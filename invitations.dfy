/**
 * The invitation workflow of controllers/invitationController.js: a landlord
 * invites a tenant e-mail to a property (and optionally an existing lease);
 * the invited tenant accepts or declines once.
 *
 * The controller uses `Lease` without requiring models/Lease, so every branch
 * that touches a lease throws and ends in the catch-all 500. The handlers
 * below model the lease lookup the code evidently intends; the `AsWritten`
 * twins model the code as it stands (see README, "Findings").
 */
module Invitations {
  import opened Models
  import opened Db

  /** Invitations leave `pending` at most once: a settled one never changes again. */
  predicate Settled(before: map<Id, Invitation>, after: map<Id, Invitation>) {
    forall id :: id in before && before[id].status != InvitationStatus.Pending ==>
      id in after && after[id] == before[id]
  }

  /** An empty `lease_id` is stored as no lease. */
  function StoredLeaseId(leaseId: Option<Id>): (r: Option<Id>)
    ensures r.Some? <==> Given(leaseId)
    ensures r.Some? ==> r == leaseId
  {
    if Given(leaseId) then leaseId else None
  }

  /** Lease `lid` exists and is a lease on property `pid`. */
  predicate LeaseOn(leases: map<Id, Lease>, lid: Id, pid: Id) {
    lid in leases && leases[lid].propertyId == pid
  }

  /** The invitation a successful create stores. */
  function NewInvitation(caller: Caller, tenantEmail: string, propertyId: Id, leaseId: Option<Id>, now: Time): (inv: Invitation)
    ensures inv.status == InvitationStatus.Pending && inv.landlordId == caller.id
    ensures inv.tenantEmail == tenantEmail && inv.propertyId == propertyId
    ensures inv.leaseId == StoredLeaseId(leaseId) && inv.createdAt == now
  {
    Invitation(caller.id, tenantEmail, propertyId, StoredLeaseId(leaseId), InvitationStatus.Pending, now)
  }

  /** Create invitation (the e-mail to the invited address is not modelled). */
  method CreateInvitation(db: Store, caller: Caller, tenantEmail: Option<string>, propertyId: Option<Id>,
                          leaseId: Option<Id>, newId: Id, now: Time) returns (status: Http)
    requires db.Valid()
    requires newId !in db.invitations
    modifies db`invitations
    ensures db.Valid()
    ensures Settled(old(db.invitations), db.invitations)
    ensures caller.role != Landlord ==> status == Forbidden
    ensures caller.role == Landlord && !(Given(tenantEmail) && Given(propertyId)) ==> status == BadRequest
    ensures caller.role == Landlord && Given(tenantEmail) && Given(propertyId) ==>
      status == (if !Owns(db.properties, propertyId.value, caller.id) then Forbidden
                 else if Given(leaseId) && !LeaseOn(db.leases, leaseId.value, propertyId.value) then BadRequest
                 else Created)
    ensures status == Created ==>
      db.invitations == old(db.invitations)[newId := NewInvitation(caller, tenantEmail.value, propertyId.value, leaseId, now)]
    ensures status != Created ==> db.invitations == old(db.invitations)
  {
    if caller.role != Landlord {
      return Forbidden;
    }
    if !Given(tenantEmail) || !Given(propertyId) {
      return BadRequest;
    }
    var pid := propertyId.value;
    if pid !in db.properties || db.properties[pid].landlordId != caller.id {
      return Forbidden;
    }
    if Given(leaseId) {
      var lid := leaseId.value;
      if lid !in db.leases || db.leases[lid].propertyId != pid {
        return BadRequest;
      }
    }
    db.invitations := db.invitations[newId := NewInvitation(caller, tenantEmail.value, pid, leaseId, now)];
    status := Created;
  }

  /** Create invitation as written: any given `lease_id` reaches the undefined
      `Lease` and the request fails with 500 before anything is stored. */
  method CreateInvitationAsWritten(db: Store, caller: Caller, tenantEmail: Option<string>, propertyId: Option<Id>,
                                   leaseId: Option<Id>, newId: Id, now: Time) returns (status: Http)
    requires db.Valid()
    requires newId !in db.invitations
    modifies db`invitations
    ensures db.Valid()
    ensures Settled(old(db.invitations), db.invitations)
    ensures caller.role != Landlord ==> status == Forbidden
    ensures caller.role == Landlord && !(Given(tenantEmail) && Given(propertyId)) ==> status == BadRequest
    ensures caller.role == Landlord && Given(tenantEmail) && Given(propertyId) ==>
      status == (if !Owns(db.properties, propertyId.value, caller.id) then Forbidden
                 else if Given(leaseId) then ServerError
                 else Created)
    ensures status == Created ==>
      db.invitations == old(db.invitations)[newId := NewInvitation(caller, tenantEmail.value, propertyId.value, leaseId, now)]
    ensures status != Created ==> db.invitations == old(db.invitations)
  {
    if caller.role != Landlord {
      return Forbidden;
    }
    if !Given(tenantEmail) || !Given(propertyId) {
      return BadRequest;
    }
    var pid := propertyId.value;
    if pid !in db.properties || db.properties[pid].landlordId != caller.id {
      return Forbidden;
    }
    if Given(leaseId) {
      return ServerError;  // ReferenceError: Lease is not defined
    }
    db.invitations := db.invitations[newId := NewInvitation(caller, tenantEmail.value, pid, leaseId, now)];
    status := Created;
  }

  /** A concrete run of both creates: landlord "owner" invites t@example.com
      to property "p1" with lease "l1", which is a lease on "p1". The corrected
      handler stores the invitation; the handler as written answers 500. */
  method CreateAsWrittenRejectsValidLease() returns (asWritten: Http, corrected: Http)
    ensures asWritten == ServerError && corrected == Created
  {
    var owner := Caller("owner", Landlord, "owner@example.com");
    var db := new Store();
    db.properties := map["p1" := Property("owner", "Flat", "Two rooms", "1 Main St", "bill.pdf", 5, [], 100, 12,
                                          Apartment, PropertyStatus.Active, 0)];
    db.leases := map["l1" := Lease("p1", "t0", 1, 2, 100, "Monthly", None, LeaseStatus.Active, 0)];
    asWritten := CreateInvitationAsWritten(db, owner, Some("t@example.com"), Some("p1"), Some("l1"), "i1", 9);
    corrected := CreateInvitation(db, owner, Some("t@example.com"), Some("p1"), Some("l1"), "i1", 9);
  }

  /** Get invitations: a landlord sees what they sent, anyone else what was
      sent to their e-mail address. */
  function GetInvitations(invitations: map<Id, Invitation>, caller: Caller): (r: map<Id, Invitation>)
    ensures SubMap(r, invitations)
    ensures caller.role == Landlord ==>
      forall id :: id in r <==> id in invitations && invitations[id].landlordId == caller.id
    ensures caller.role != Landlord ==>
      forall id :: id in r <==> id in invitations && invitations[id].tenantEmail == caller.email
  {
    map id | id in invitations &&
             (if caller.role == Landlord then invitations[id].landlordId == caller.id
              else invitations[id].tenantEmail == caller.email)
           :: invitations[id]
  }

  /** The caller is a tenant and invitation `id` exists and is addressed to
      the caller's e-mail (compared exactly, case included). */
  predicate MayRespond(invitations: map<Id, Invitation>, caller: Caller, id: Id) {
    caller.role == Tenant && id in invitations && invitations[id].tenantEmail == caller.email
  }

  /** Accept invitation: the invitation becomes `accepted`, then its lease, if
      any, is bound to the caller. A lease that no longer exists makes the
      lease write fail with 500 after the status has been saved. */
  method AcceptInvitation(db: Store, caller: Caller, id: Id) returns (status: Http)
    requires db.Valid()
    modifies db`invitations, db`leases
    ensures db.Valid()
    ensures Settled(old(db.invitations), db.invitations)
    ensures !MayRespond(old(db.invitations), caller, id) ==>
      status == Forbidden && db.invitations == old(db.invitations) && db.leases == old(db.leases)
    ensures MayRespond(old(db.invitations), caller, id) && old(db.invitations)[id].status != InvitationStatus.Pending ==>
      status == BadRequest && db.invitations == old(db.invitations) && db.leases == old(db.leases)
    ensures MayRespond(old(db.invitations), caller, id) && old(db.invitations)[id].status == InvitationStatus.Pending ==>
      var inv := old(db.invitations)[id];
      && db.invitations == old(db.invitations)[id := inv.(status := InvitationStatus.Accepted)]
      && (inv.leaseId.None? ==> status == Ok && db.leases == old(db.leases))
      && (inv.leaseId.Some? && inv.leaseId.value in old(db.leases) ==>
            status == Ok &&
            db.leases == old(db.leases)[inv.leaseId.value := old(db.leases)[inv.leaseId.value].(tenantId := caller.id)])
      && (inv.leaseId.Some? && inv.leaseId.value !in old(db.leases) ==>
            status == ServerError && db.leases == old(db.leases))
  {
    if caller.role != Tenant {
      return Forbidden;
    }
    if id !in db.invitations || db.invitations[id].tenantEmail != caller.email {
      return Forbidden;
    }
    var inv := db.invitations[id];
    if inv.status != InvitationStatus.Pending {
      return BadRequest;
    }
    db.invitations := db.invitations[id := inv.(status := InvitationStatus.Accepted)];
    if inv.leaseId.Some? {
      var lid := inv.leaseId.value;
      if lid !in db.leases {
        return ServerError;  // the lookup yields null and `lease.tenant_id = …` throws
      }
      db.leases := db.leases[lid := db.leases[lid].(tenantId := caller.id)];
    }
    status := Ok;
  }

  /** Accept invitation as written: an invitation that names a lease is saved
      as `accepted`, then the undefined `Lease` throws, so the caller gets 500
      and the lease is never bound to the tenant. */
  method AcceptInvitationAsWritten(db: Store, caller: Caller, id: Id) returns (status: Http)
    requires db.Valid()
    modifies db`invitations
    ensures db.Valid()
    ensures Settled(old(db.invitations), db.invitations)
    ensures !MayRespond(old(db.invitations), caller, id) ==>
      status == Forbidden && db.invitations == old(db.invitations)
    ensures MayRespond(old(db.invitations), caller, id) && old(db.invitations)[id].status != InvitationStatus.Pending ==>
      status == BadRequest && db.invitations == old(db.invitations)
    ensures MayRespond(old(db.invitations), caller, id) && old(db.invitations)[id].status == InvitationStatus.Pending ==>
      var inv := old(db.invitations)[id];
      && db.invitations == old(db.invitations)[id := inv.(status := InvitationStatus.Accepted)]
      && status == (if inv.leaseId.Some? then ServerError else Ok)
  {
    if caller.role != Tenant {
      return Forbidden;
    }
    if id !in db.invitations || db.invitations[id].tenantEmail != caller.email {
      return Forbidden;
    }
    var inv := db.invitations[id];
    if inv.status != InvitationStatus.Pending {
      return BadRequest;
    }
    db.invitations := db.invitations[id := inv.(status := InvitationStatus.Accepted)];
    if inv.leaseId.Some? {
      return ServerError;  // ReferenceError: Lease is not defined
    }
    status := Ok;
  }

  /** A concrete run of the as-written accept: tenant t@example.com accepts an
      invitation that names lease "l1"; the invitation ends up accepted, the
      answer is 500 and the lease still belongs to its previous tenant. */
  method AcceptAsWrittenStrandsLease() returns (status: Http, accepted: bool, bound: bool)
    ensures status == ServerError && accepted && !bound
  {
    var db := new Store();
    db.leases := map["l1" := Lease("p1", "t0", 1, 2, 100, "Monthly", None, LeaseStatus.Active, 0)];
    db.invitations := map["i1" := Invitation("owner", "t@example.com", "p1", Some("l1"), InvitationStatus.Pending, 0)];
    status := AcceptInvitationAsWritten(db, Caller("t1", Tenant, "t@example.com"), "i1");
    accepted := db.invitations["i1"].status == InvitationStatus.Accepted;
    bound := db.leases["l1"].tenantId == "t1";
  }

  /** Decline invitation: only the invitation's status changes. */
  method DeclineInvitation(db: Store, caller: Caller, id: Id) returns (status: Http)
    requires db.Valid()
    modifies db`invitations
    ensures db.Valid()
    ensures Settled(old(db.invitations), db.invitations)
    ensures !MayRespond(old(db.invitations), caller, id) ==>
      status == Forbidden && db.invitations == old(db.invitations)
    ensures MayRespond(old(db.invitations), caller, id) && old(db.invitations)[id].status != InvitationStatus.Pending ==>
      status == BadRequest && db.invitations == old(db.invitations)
    ensures MayRespond(old(db.invitations), caller, id) && old(db.invitations)[id].status == InvitationStatus.Pending ==>
      status == Ok &&
      db.invitations == old(db.invitations)[id := old(db.invitations)[id].(status := InvitationStatus.Declined)]
  {
    if caller.role != Tenant {
      return Forbidden;
    }
    if id !in db.invitations || db.invitations[id].tenantEmail != caller.email {
      return Forbidden;
    }
    var inv := db.invitations[id];
    if inv.status != InvitationStatus.Pending {
      return BadRequest;
    }
    db.invitations := db.invitations[id := inv.(status := InvitationStatus.Declined)];
    status := Ok;
  }

  /** A second answer to the same invitation is refused and changes nothing:
      after a successful accept or decline, accepting or declining again
      (by anyone) yields 400 or 403. */
  method RespondTwice(db: Store, caller: Caller, other: Caller, id: Id, acceptFirst: bool, acceptSecond: bool)
    returns (first: Http, second: Http)
    requires db.Valid()
    modifies db`invitations, db`leases
    ensures first == Ok ==> second in {BadRequest, Forbidden}
    ensures first == Ok ==> id in db.invitations
    ensures first == Ok ==>
      db.invitations[id].status == (if acceptFirst then InvitationStatus.Accepted else InvitationStatus.Declined)
  {
    if acceptFirst {
      first := AcceptInvitation(db, caller, id);
    } else {
      first := DeclineInvitation(db, caller, id);
    }
    ghost var settled := db.invitations;
    if acceptSecond {
      second := AcceptInvitation(db, other, id);
    } else {
      second := DeclineInvitation(db, other, id);
    }
    assert first == Ok ==> id in settled && settled[id].status != InvitationStatus.Pending;
  }
}
