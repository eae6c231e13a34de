/**
 * The lease lifecycle of controllers/leaseController.js: a landlord binds a
 * tenant to one of their properties for a date range; status is derived
 * from the start date when the lease is written.
 */
module Leases {
  import opened Models
  import opened Db

  /** The status a lease gets when written with start date `startDate` at time `now`. */
  function InitialStatus(startDate: Time, now: Time): (s: LeaseStatus)
    ensures s != LeaseStatus.Expired
    ensures s == LeaseStatus.Upcoming <==> startDate > now
    ensures s == LeaseStatus.Active <==> startDate <= now
  {
    if startDate > now then LeaseStatus.Upcoming else LeaseStatus.Active
  }

  /** The six required fields of a new lease, all given. */
  predicate AllGiven(propertyId: Option<Id>, tenantId: Option<Id>, startDate: Option<Time>, endDate: Option<Time>,
                     rentAmount: Option<int>, paymentTerms: Option<string>) {
    Given(propertyId) && Given(tenantId) && GivenNum(startDate) && GivenNum(endDate) &&
    GivenNum(rentAmount) && Given(paymentTerms)
  }

  /** User `uid` exists and has role tenant. */
  predicate IsTenant(users: map<Id, User>, uid: Id) {
    uid in users && users[uid].role == Tenant
  }

  /** Create lease. `document` is the path of the uploaded lease document, if any. */
  method CreateLease(db: Store, caller: Caller, propertyId: Option<Id>, tenantId: Option<Id>,
                     startDate: Option<Time>, endDate: Option<Time>, rentAmount: Option<int>,
                     paymentTerms: Option<string>, document: Option<string>, newId: Id, now: Time)
    returns (status: Http)
    requires db.Valid()
    requires newId !in db.leases
    modifies db`leases
    ensures db.Valid()
    ensures caller.role != Landlord ==> status == Forbidden
    ensures caller.role == Landlord && !AllGiven(propertyId, tenantId, startDate, endDate, rentAmount, paymentTerms) ==>
      status == BadRequest
    ensures caller.role == Landlord && AllGiven(propertyId, tenantId, startDate, endDate, rentAmount, paymentTerms) ==>
      status == (if !Owns(db.properties, propertyId.value, caller.id) then Forbidden
                 else if !IsTenant(db.users, tenantId.value) then BadRequest
                 else if startDate.value >= endDate.value then BadRequest
                 else Created)
    ensures status == Created ==>
      db.leases == old(db.leases)[newId := Lease(propertyId.value, tenantId.value, startDate.value, endDate.value,
                                                 rentAmount.value, paymentTerms.value, document,
                                                 InitialStatus(startDate.value, now), now)]
    ensures status == Created ==> db.leases[newId].startDate < db.leases[newId].endDate
    ensures status != Created ==> db.leases == old(db.leases)
  {
    if caller.role != Landlord {
      return Forbidden;
    }
    if !AllGiven(propertyId, tenantId, startDate, endDate, rentAmount, paymentTerms) {
      return BadRequest;
    }
    var pid := propertyId.value;
    if pid !in db.properties || db.properties[pid].landlordId != caller.id {
      return Forbidden;
    }
    var tid := tenantId.value;
    if tid !in db.users || db.users[tid].role != Tenant {
      return BadRequest;
    }
    if startDate.value >= endDate.value {
      return BadRequest;
    }
    var lease := Lease(pid, tid, startDate.value, endDate.value, rentAmount.value, paymentTerms.value,
                       document, InitialStatus(startDate.value, now), now);
    db.leases := db.leases[newId := lease];
    status := Created;
  }

  /** Get all leases: a landlord sees the leases on every property they own
      (deleted ones included), anyone else the leases they are tenant of. */
  function GetLeases(properties: map<Id, Property>, leases: map<Id, Lease>, caller: Caller): (r: map<Id, Lease>)
    ensures SubMap(r, leases)
    ensures caller.role == Landlord ==>
      forall id :: id in r <==> id in leases && Owns(properties, leases[id].propertyId, caller.id)
    ensures caller.role != Landlord ==>
      forall id :: id in r <==> id in leases && leases[id].tenantId == caller.id
  {
    if caller.role == Landlord then
      var owned := OwnedPropertyIds(properties, caller.id);
      map id | id in leases && leases[id].propertyId in owned :: leases[id]
    else
      map id | id in leases && leases[id].tenantId == caller.id :: leases[id]
  }

  /** Get single lease. A landlord's check reads the lease's property; when
      that property is missing the dereference fails with 500. */
  function GetLease(properties: map<Id, Property>, leases: map<Id, Lease>, caller: Caller, id: Id): (r: Reply<Lease>)
    ensures r.Success? <==>
      id in leases &&
      (if caller.role == Landlord then Owns(properties, leases[id].propertyId, caller.id)
       else leases[id].tenantId == caller.id)
    ensures r.Success? ==> r.body == leases[id]
    ensures r.Failure? ==>
      r.status == (if id !in leases then NotFound
                   else if caller.role == Landlord && leases[id].propertyId !in properties then ServerError
                   else Forbidden)
  {
    if id !in leases then Failure(NotFound)
    else
      var lease := leases[id];
      if caller.role == Landlord then
        if lease.propertyId !in properties then Failure(ServerError)
        else if properties[lease.propertyId].landlordId != caller.id then Failure(Forbidden)
        else Success(lease)
      else if lease.tenantId != caller.id then Failure(Forbidden)
      else Success(lease)
  }

  /** Get single lease as written: the lease is loaded with `tenant_id`
      populated, so the tenant check compares the string form of a user
      document with the caller's id and never matches; a tenant user that no
      longer exists populates as null and the comparison throws (500). */
  function GetLeaseAsWritten(properties: map<Id, Property>, leases: map<Id, Lease>, users: map<Id, User>,
                             caller: Caller, id: Id): (r: Reply<Lease>)
    ensures r.Success? <==> id in leases && caller.role == Landlord && Owns(properties, leases[id].propertyId, caller.id)
    ensures r.Success? ==> r.body == leases[id]
    ensures r.Failure? ==>
      r.status == (if id !in leases then NotFound
                   else if caller.role == Landlord && leases[id].propertyId !in properties then ServerError
                   else if caller.role != Landlord && leases[id].tenantId !in users then ServerError
                   else Forbidden)
  {
    if id !in leases then Failure(NotFound)
    else
      var lease := leases[id];
      if caller.role == Landlord then
        if lease.propertyId !in properties then Failure(ServerError)
        else if properties[lease.propertyId].landlordId != caller.id then Failure(Forbidden)
        else Success(lease)
      else if lease.tenantId !in users then Failure(ServerError)
      else Failure(Forbidden)
  }

  /** As written, the tenant of a lease can never read it, although the
      corrected handler (and the listing) gives it to them. */
  lemma TenantLockedOutAsWritten(properties: map<Id, Property>, leases: map<Id, Lease>, users: map<Id, User>,
                                 caller: Caller, id: Id)
    requires id in leases && caller.role == Tenant && leases[id].tenantId == caller.id
    ensures GetLeaseAsWritten(properties, leases, users, caller, id).Failure?
    ensures GetLease(properties, leases, caller, id) == Success(leases[id])
    ensures id in GetLeases(properties, leases, caller)
  {
  }

  /** A caller can read a single lease exactly when it is in their listing. */
  lemma GetLeaseAgreesWithListing(properties: map<Id, Property>, leases: map<Id, Lease>, caller: Caller, id: Id)
    ensures GetLease(properties, leases, caller, id).Success? <==> id in GetLeases(properties, leases, caller)
    ensures id in GetLeases(properties, leases, caller) ==>
      GetLease(properties, leases, caller, id).body == GetLeases(properties, leases, caller)[id]
  {
    var r := GetLeases(properties, leases, caller);
    if id in leases && caller.role == Landlord {
      assert id in r <==> Owns(properties, leases[id].propertyId, caller.id);
    }
  }

  /** The fields an update may supply. */
  datatype LeasePatch = LeasePatch(
    startDate: Option<Time>,
    endDate: Option<Time>,
    rentAmount: Option<int>,
    paymentTerms: Option<string>,
    document: Option<string>)

  /** The update merge: every falsy field keeps its stored value; the status
      becomes `upcoming` when a future start date is supplied and is kept
      otherwise. Property, tenant and creation time are never touched. */
  function MergeLease(lease: Lease, patch: LeasePatch, now: Time): (r: Lease)
    ensures r.propertyId == lease.propertyId && r.tenantId == lease.tenantId && r.createdAt == lease.createdAt
    ensures GivenNum(patch.startDate) ==> r.startDate == patch.startDate.value
    ensures !GivenNum(patch.startDate) ==> r.startDate == lease.startDate
    ensures GivenNum(patch.endDate) ==> r.endDate == patch.endDate.value
    ensures !GivenNum(patch.endDate) ==> r.endDate == lease.endDate
    ensures GivenNum(patch.rentAmount) ==> r.rentAmount == patch.rentAmount.value
    ensures !GivenNum(patch.rentAmount) ==> r.rentAmount == lease.rentAmount
    ensures Given(patch.paymentTerms) ==> r.paymentTerms == patch.paymentTerms.value
    ensures !Given(patch.paymentTerms) ==> r.paymentTerms == lease.paymentTerms
    ensures Given(patch.document) ==> r.document == patch.document
    ensures !Given(patch.document) ==> r.document == lease.document
    ensures r.status == LeaseStatus.Upcoming || r.status == lease.status
    ensures r.status == LeaseStatus.Upcoming <==>
      (GivenNum(patch.startDate) && patch.startDate.value > now) || lease.status == LeaseStatus.Upcoming
  {
    lease.(
      startDate := PickNum(patch.startDate, lease.startDate),
      endDate := PickNum(patch.endDate, lease.endDate),
      rentAmount := PickNum(patch.rentAmount, lease.rentAmount),
      paymentTerms := PickStr(patch.paymentTerms, lease.paymentTerms),
      document := PickOpt(patch.document, lease.document),
      status := if GivenNum(patch.startDate) && patch.startDate.value > now then LeaseStatus.Upcoming else lease.status)
  }

  /** Applying the same update twice is the same as applying it once. */
  lemma MergeLeaseIdempotent(lease: Lease, patch: LeasePatch, now: Time)
    ensures MergeLease(MergeLease(lease, patch, now), patch, now) == MergeLease(lease, patch, now)
  {
  }

  /** An update that supplies nothing leaves the lease as it was. */
  lemma MergeLeaseEmpty(lease: Lease, now: Time)
    ensures MergeLease(lease, LeasePatch(None, None, None, None, None), now) == lease
  {
  }

  /** Date order survives an update that supplies both dates (in order) or
      neither of them. */
  lemma MergeLeaseKeepsOrder(lease: Lease, patch: LeasePatch, now: Time)
    requires lease.startDate < lease.endDate
    requires GivenNum(patch.startDate) <==> GivenNum(patch.endDate)
    requires GivenNum(patch.startDate) ==> patch.startDate.value < patch.endDate.value
    ensures MergeLease(lease, patch, now).startDate < MergeLease(lease, patch, now).endDate
  {
  }

  /** The order check runs only when both dates are supplied: moving just the
      end date before the stored start date is accepted. */
  lemma SingleDateUpdateMayInvertDates()
    ensures var lease := Lease("p", "t", 100, 200, 10, "Monthly", None, LeaseStatus.Active, 0);
            var r := MergeLease(lease, LeasePatch(None, Some(50), None, None, None), 100);
            r.startDate > r.endDate
  {
  }

  /** Update lease. The date order is checked only when both dates are given. */
  method UpdateLease(db: Store, caller: Caller, id: Id, patch: LeasePatch, now: Time) returns (status: Http)
    requires db.Valid()
    modifies db`leases
    ensures db.Valid()
    ensures caller.role != Landlord ==> status == Forbidden
    ensures caller.role == Landlord ==>
      status == (if id !in old(db.leases) then NotFound
                 else if old(db.leases)[id].propertyId !in db.properties then ServerError
                 else if db.properties[old(db.leases)[id].propertyId].landlordId != caller.id then Forbidden
                 else if GivenNum(patch.startDate) && GivenNum(patch.endDate)
                         && patch.startDate.value >= patch.endDate.value then BadRequest
                 else Ok)
    ensures status == Ok ==> db.leases == old(db.leases)[id := MergeLease(old(db.leases)[id], patch, now)]
    ensures status != Ok ==> db.leases == old(db.leases)
  {
    if caller.role != Landlord {
      return Forbidden;
    }
    if id !in db.leases {
      return NotFound;
    }
    var lease := db.leases[id];
    if lease.propertyId !in db.properties {
      return ServerError;  // `property.landlord_id` on a null property
    }
    if db.properties[lease.propertyId].landlordId != caller.id {
      return Forbidden;
    }
    if GivenNum(patch.startDate) && GivenNum(patch.endDate) && patch.startDate.value >= patch.endDate.value {
      return BadRequest;
    }
    db.leases := db.leases[id := MergeLease(lease, patch, now)];
    status := Ok;
  }

  /** Delete lease: a hard delete of exactly that lease, by the property's owner. */
  method DeleteLease(db: Store, caller: Caller, id: Id) returns (status: Http)
    requires db.Valid()
    modifies db`leases
    ensures db.Valid()
    ensures caller.role != Landlord ==> status == Forbidden
    ensures caller.role == Landlord ==>
      status == (if id !in old(db.leases) then NotFound
                 else if old(db.leases)[id].propertyId !in db.properties then ServerError
                 else if db.properties[old(db.leases)[id].propertyId].landlordId != caller.id then Forbidden
                 else Ok)
    ensures status == Ok ==> db.leases == old(db.leases) - {id}
    ensures status != Ok ==> db.leases == old(db.leases)
  {
    if caller.role != Landlord {
      return Forbidden;
    }
    if id !in db.leases {
      return NotFound;
    }
    var lease := db.leases[id];
    if lease.propertyId !in db.properties {
      return ServerError;  // `property.landlord_id` on a null property
    }
    if db.properties[lease.propertyId].landlordId != caller.id {
      return Forbidden;
    }
    db.leases := db.leases - {id};
    status := Ok;
  }
}
