/**
 * Tenant interest in a property (controllers/requestController.js), a workflow
 * independent of invitations.
 */
module Requests {
  import opened Models
  import opened Db

  /** Create request: any caller may express interest in an active property. */
  method CreateRequest(db: Store, caller: Caller, propertyId: Option<Id>, newId: Id, now: Time) returns (status: Http)
    requires db.Valid()
    requires newId !in db.requests
    modifies db`requests
    ensures db.Valid()
    ensures status ==
      (if !Given(propertyId) then BadRequest
       else if propertyId.value !in db.properties || db.properties[propertyId.value].status != PropertyStatus.Active
         then NotFound
       else Created)
    ensures status == Created ==>
      db.requests == old(db.requests)[newId := Request(caller.id, propertyId.value, RequestStatus.Pending, now)]
    ensures status != Created ==> db.requests == old(db.requests)
  {
    if !Given(propertyId) {
      return BadRequest;
    }
    var pid := propertyId.value;
    if pid !in db.properties || db.properties[pid].status != PropertyStatus.Active {
      return NotFound;
    }
    db.requests := db.requests[newId := Request(caller.id, pid, RequestStatus.Pending, now)];
    status := Created;
  }

  /** Get requests: a landlord sees the requests on properties they own
      (deleted ones included), anyone else the requests they made. */
  function GetRequests(properties: map<Id, Property>, requests: map<Id, Request>, caller: Caller): (r: map<Id, Request>)
    ensures SubMap(r, requests)
    ensures caller.role == Landlord ==>
      forall id :: id in r <==> id in requests && Owns(properties, requests[id].propertyId, caller.id)
    ensures caller.role != Landlord ==>
      forall id :: id in r <==> id in requests && requests[id].userId == caller.id
  {
    if caller.role == Landlord then
      var owned := OwnedPropertyIds(properties, caller.id);
      map id | id in requests && requests[id].propertyId in owned :: requests[id]
    else
      map id | id in requests && requests[id].userId == caller.id :: requests[id]
  }

  /** A new request joins exactly the listings of the callers who may see it:
      its author, and the landlord owning its property. */
  lemma NewRequestListed(properties: map<Id, Property>, requests: map<Id, Request>, newId: Id, r: Request,
                         caller: Caller)
    requires newId !in requests
    ensures GetRequests(properties, requests[newId := r], caller) ==
      (if (if caller.role == Landlord then Owns(properties, r.propertyId, caller.id) else r.userId == caller.id)
       then GetRequests(properties, requests, caller)[newId := r]
       else GetRequests(properties, requests, caller))
  {
    var after := GetRequests(properties, requests[newId := r], caller);
    var before := GetRequests(properties, requests, caller);
    var expected := if (if caller.role == Landlord then Owns(properties, r.propertyId, caller.id) else r.userId == caller.id)
                    then before[newId := r] else before;
    assert after.Keys == expected.Keys;
    forall id | id in after
      ensures after[id] == expected[id]
    {
    }
  }
}
