/**
 * The payment ledger of controllers/paymentController.js: a tenant records a
 * (mock, always successful) payment against a lease they hold.
 *
 * The controller uses `Property` without requiring models/Property, so the
 * non-tenant branch of the listing throws and ends in 500. `GetPayments`
 * models the join the code evidently intends; `GetPaymentsAsWritten` models
 * the code as it stands (see README, "Findings").
 */
module Payments {
  import opened Models
  import opened Db
  import Leases

  /** Create payment. `transactionId` is the fresh value of `uuidv4()`. */
  method CreatePayment(db: Store, caller: Caller, leaseId: Option<Id>, amount: Option<int>,
                       transactionId: string, newId: Id, now: Time) returns (status: Http)
    requires db.Valid()
    requires newId !in db.payments
    requires forall id :: id in db.payments ==> db.payments[id].transactionId != transactionId
    modifies db`payments
    ensures db.Valid()
    ensures status ==
      (if caller.role != Tenant then Forbidden
       else if !Given(leaseId) || !GivenNum(amount) then BadRequest
       else if leaseId.value !in db.leases || db.leases[leaseId.value].tenantId != caller.id then Forbidden
       else Created)
    ensures status == Created ==>
      db.payments == old(db.payments)[newId := Payment(leaseId.value, caller.id, amount.value,
                                                       PaymentStatus.Completed, transactionId, now)]
    ensures status != Created ==> db.payments == old(db.payments)
  {
    if caller.role != Tenant {
      return Forbidden;
    }
    if !Given(leaseId) || !GivenNum(amount) {
      return BadRequest;
    }
    var lid := leaseId.value;
    if lid !in db.leases || db.leases[lid].tenantId != caller.id {
      return Forbidden;
    }
    db.payments := db.payments[newId := Payment(lid, caller.id, amount.value, PaymentStatus.Completed, transactionId, now)];
    status := Created;
  }

  /** Payment `p` is against a lease on a property owned by `landlordId`. */
  predicate OnOwnedLease(properties: map<Id, Property>, leases: map<Id, Lease>, p: Payment, landlordId: Id) {
    p.leaseId in leases && Owns(properties, leases[p.leaseId].propertyId, landlordId)
  }

  /** Get payments: a tenant sees their own payments, anyone else the
      payments against leases on properties they own. */
  function GetPayments(properties: map<Id, Property>, leases: map<Id, Lease>, payments: map<Id, Payment>,
                       caller: Caller): (r: map<Id, Payment>)
    ensures SubMap(r, payments)
    ensures caller.role == Tenant ==>
      forall id :: id in r <==> id in payments && payments[id].tenantId == caller.id
    ensures caller.role != Tenant ==>
      forall id :: id in r <==> id in payments && OnOwnedLease(properties, leases, payments[id], caller.id)
  {
    if caller.role == Tenant then
      map id | id in payments && payments[id].tenantId == caller.id :: payments[id]
    else
      var owned := OwnedPropertyIds(properties, caller.id);
      var onOwned := set lid | lid in leases && leases[lid].propertyId in owned;
      map id | id in payments && payments[id].leaseId in onOwned :: payments[id]
  }

  /** Get payments as written: the non-tenant branch reaches the undefined
      `Property` and fails with 500. */
  function GetPaymentsAsWritten(properties: map<Id, Property>, leases: map<Id, Lease>, payments: map<Id, Payment>,
                                caller: Caller): (r: Reply<map<Id, Payment>>)
    ensures caller.role == Tenant ==> r.Success? && forall id :: id in r.body <==> id in payments && payments[id].tenantId == caller.id
    ensures caller.role != Tenant ==> r == Failure(ServerError)
  {
    if caller.role == Tenant then Success(GetPayments(properties, leases, payments, caller))
    else Failure(ServerError)
  }

  /** As written, a landlord with a payment on one of their leases gets 500
      instead of a listing that contains it. */
  lemma LandlordPaymentsLostAsWritten(properties: map<Id, Property>, leases: map<Id, Lease>,
                                      payments: map<Id, Payment>, caller: Caller, id: Id)
    requires caller.role == Landlord
    requires id in payments && OnOwnedLease(properties, leases, payments[id], caller.id)
    ensures GetPaymentsAsWritten(properties, leases, payments, caller) == Failure(ServerError)
    ensures id in GetPayments(properties, leases, payments, caller)
  {
  }

  /** A landlord's payments are exactly the payments against the leases in
      that landlord's lease listing. */
  lemma LandlordPaymentsFollowLeases(properties: map<Id, Property>, leases: map<Id, Lease>,
                                     payments: map<Id, Payment>, caller: Caller)
    requires caller.role == Landlord
    ensures forall id :: id in GetPayments(properties, leases, payments, caller) <==>
      id in payments && payments[id].leaseId in Leases.GetLeases(properties, leases, caller)
  {
    var listed := Leases.GetLeases(properties, leases, caller);
    assert forall lid :: lid in listed <==> lid in leases && Owns(properties, leases[lid].propertyId, caller.id);
  }

  /** A new payment joins exactly the listings of the callers who may see it:
      its tenant, and the landlord owning the property of its lease. */
  lemma NewPaymentListed(properties: map<Id, Property>, leases: map<Id, Lease>, payments: map<Id, Payment>,
                         newId: Id, p: Payment, caller: Caller)
    requires newId !in payments
    ensures GetPayments(properties, leases, payments[newId := p], caller) ==
      (if (if caller.role == Tenant then p.tenantId == caller.id else OnOwnedLease(properties, leases, p, caller.id))
       then GetPayments(properties, leases, payments, caller)[newId := p]
       else GetPayments(properties, leases, payments, caller))
  {
    var after := GetPayments(properties, leases, payments[newId := p], caller);
    var before := GetPayments(properties, leases, payments, caller);
    if caller.role == Tenant {
      var expected := if p.tenantId == caller.id then before[newId := p] else before;
      assert after.Keys == expected.Keys;
    } else {
      var expected := if OnOwnedLease(properties, leases, p, caller.id) then before[newId := p] else before;
      assert after.Keys == expected.Keys;
    }
  }
}
