/**
 * The daily lease-expiry reminder job (utils/leaseReminders.js): every lease
 * that ends within the next thirty days and is not expired gets one e-mail
 * to its tenant. Scheduling and delivery are not modelled; the messages are
 * returned instead of sent.
 */
module LeaseReminders {
  import opened Models
  import opened Db

  /** Thirty days in milliseconds. */
  const ReminderWindow: int := 30 * 24 * 60 * 60 * 1000

  /** The selection: the end date lies in [now, now + 30 days] and the lease is not expired. */
  predicate DueForReminder(lease: Lease, now: Time) {
    now <= lease.endDate <= now + ReminderWindow && lease.status != LeaseStatus.Expired
  }

  /** The ids the query selects. */
  function LeasesDue(leases: map<Id, Lease>, now: Time): (ids: set<Id>)
    ensures forall id :: id in ids <==> id in leases && DueForReminder(leases[id], now)
  {
    set id | id in leases && DueForReminder(leases[id], now)
  }

  /** The data one reminder carries; `lease` says which lease it is about. */
  datatype Reminder = Reminder(lease: Id, to: string, tenantName: string,
                               propertyTitle: string, propertyAddress: string, endDate: Time)

  /** The tenant and the property a reminder reads both exist. */
  predicate Addressable(users: map<Id, User>, properties: map<Id, Property>, lease: Lease) {
    lease.tenantId in users && lease.propertyId in properties
  }

  /** The reminder for lease `id`, addressed to its tenant's e-mail. */
  function ReminderFor(users: map<Id, User>, properties: map<Id, Property>, id: Id, lease: Lease): (r: Reminder)
    requires Addressable(users, properties, lease)
    ensures r.lease == id && r.to == users[lease.tenantId].email && r.endDate == lease.endDate
  {
    var tenant := users[lease.tenantId];
    var property := properties[lease.propertyId];
    Reminder(id, tenant.email, tenant.name, property.title, property.address, lease.endDate)
  }

  /** `r` is the reminder for one of the leases `ids`. */
  predicate ReminderOf(users: map<Id, User>, properties: map<Id, Property>, leases: map<Id, Lease>,
                       ids: set<Id>, r: Reminder) {
    && r.lease in ids && r.lease in leases
    && Addressable(users, properties, leases[r.lease])
    && r == ReminderFor(users, properties, r.lease, leases[r.lease])
  }

  /** Every message in `sent` is the reminder for one of the leases `ids`. */
  predicate AllFor(users: map<Id, User>, properties: map<Id, Property>, leases: map<Id, Lease>,
                   ids: set<Id>, sent: seq<Reminder>) {
    forall i :: 0 <= i < |sent| ==> ReminderOf(users, properties, leases, ids, sent[i])
  }

  /** No lease is reminded twice. */
  predicate Distinct(sent: seq<Reminder>) {
    forall i, j :: 0 <= i < j < |sent| ==> sent[i].lease != sent[j].lease
  }

  /** Every lease of `ids` has a message in `sent`. */
  predicate Covers(sent: seq<Reminder>, ids: set<Id>) {
    forall id :: id in ids ==> exists i :: 0 <= i < |sent| && sent[i].lease == id
  }

  /** The messages of `sent` are exactly one per lease of `done`. */
  predicate Progress(users: map<Id, User>, properties: map<Id, Property>, leases: map<Id, Lease>,
                     done: set<Id>, sent: seq<Reminder>) {
    AllFor(users, properties, leases, done, sent) && Distinct(sent) && Covers(sent, done) && |sent| == |done|
  }

  /** Reminding one more selected lease, one not yet reminded, keeps `Progress`. */
  lemma {:induction false} RemindOne(users: map<Id, User>, properties: map<Id, Property>, leases: map<Id, Lease>,
                                     due: set<Id>, todo: set<Id>, sent: seq<Reminder>, id: Id)
    requires todo <= due && id in todo && id in leases && Addressable(users, properties, leases[id])
    requires Progress(users, properties, leases, due - todo, sent)
    ensures Progress(users, properties, leases, due - (todo - {id}),
                     sent + [ReminderFor(users, properties, id, leases[id])])
  {
    var done := due - todo;
    var r := ReminderFor(users, properties, id, leases[id]);
    var sent' := sent + [r];
    assert due - (todo - {id}) == done + {id};
    assert id !in done;
    assert |done + {id}| == |done| + 1;
    forall i | 0 <= i < |sent'|
      ensures ReminderOf(users, properties, leases, done + {id}, sent'[i])
    {
      if i < |sent| {
        assert sent'[i] == sent[i];
        assert ReminderOf(users, properties, leases, done, sent[i]);
      }
    }
    forall i, j | 0 <= i < j < |sent'|
      ensures sent'[i].lease != sent'[j].lease
    {
      assert ReminderOf(users, properties, leases, done, sent[i]);
      if j < |sent| {
        assert sent'[i] == sent[i] && sent'[j] == sent[j];
      }
    }
    forall k | k in done + {id}
      ensures exists i :: 0 <= i < |sent'| && sent'[i].lease == k
    {
      if k == id {
        assert sent'[|sent|].lease == k;
      } else {
        var i :| 0 <= i < |sent| && sent[i].lease == k;
        assert sent'[i].lease == k;
      }
    }
  }

  /** Every lease that has been reminded could be addressed. */
  lemma {:induction false} RemindedAreAddressable(users: map<Id, User>, properties: map<Id, Property>,
                                                  leases: map<Id, Lease>, done: set<Id>, sent: seq<Reminder>)
    requires Progress(users, properties, leases, done, sent)
    ensures forall id :: id in done ==> id in leases && Addressable(users, properties, leases[id])
  {
    forall id | id in done
      ensures id in leases && Addressable(users, properties, leases[id])
    {
      var i :| 0 <= i < |sent| && sent[i].lease == id;
    }
  }

  /** One run of the job. The selected leases are visited in an unspecified
      order; a lease whose tenant or property is missing makes building its
      message throw, which ends the run (`aborted`). Nothing is written. */
  method SendLeaseReminders(db: Store, now: Time) returns (sent: seq<Reminder>, aborted: bool)
    ensures AllFor(db.users, db.properties, db.leases, LeasesDue(db.leases, now), sent)
    ensures Distinct(sent)
    ensures aborted <==>
      exists id :: id in LeasesDue(db.leases, now) && !Addressable(db.users, db.properties, db.leases[id])
    ensures !aborted ==> |sent| == |LeasesDue(db.leases, now)|
    ensures !aborted ==> Covers(sent, LeasesDue(db.leases, now))
  {
    var users, properties, leases := db.users, db.properties, db.leases;
    var due := LeasesDue(leases, now);
    var todo := due;
    sent, aborted := [], false;
    while todo != {}
      invariant todo <= due
      invariant Progress(users, properties, leases, due - todo, sent)
      decreases todo
    {
      var id :| id in todo;
      var lease := leases[id];
      if !Addressable(users, properties, lease) {
        aborted := true;
        return;
      }
      RemindOne(users, properties, leases, due, todo, sent, id);
      sent := sent + [ReminderFor(users, properties, id, lease)];
      todo := todo - {id};
    }
    assert due - todo == due;
    RemindedAreAddressable(users, properties, leases, due, sent);
  }

  /** Since no handler writes `expired` (Store.Valid), the status filter
      never removes a lease: selection is by end date alone. */
  lemma StatusFilterRedundant(db: Store, now: Time)
    requires db.Valid()
    ensures LeasesDue(db.leases, now) ==
      set id | id in db.leases && now <= db.leases[id].endDate <= now + ReminderWindow
  {
  }
}
