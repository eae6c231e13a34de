/**
 * Maintenance requests (controllers/maintenanceController.js): a tenant with
 * a lease on a property reports a problem; the property's landlord sees it.
 */
module Maintenance {
  import opened Models
  import opened Db

  /** Some lease on property `pid` names `tid` as tenant, whatever its status
      (`Lease.findOne({ property_id, tenant_id })`). */
  predicate HasLease(leases: map<Id, Lease>, pid: Id, tid: Id) {
    exists lid :: lid in leases && leases[lid].propertyId == pid && leases[lid].tenantId == tid
  }

  /** Create maintenance request. The lease check comes before the property
      lookup, so a tenant without a lease gets 403 even for a missing property. */
  method CreateMaintenanceRequest(db: Store, caller: Caller, propertyId: Option<Id>, description: Option<string>,
                                  newId: Id, now: Time) returns (status: Http)
    requires db.Valid()
    requires newId !in db.maintenance
    modifies db`maintenance
    ensures db.Valid()
    ensures status ==
      (if caller.role != Tenant then Forbidden
       else if !Given(propertyId) || !Given(description) then BadRequest
       else if !HasLease(db.leases, propertyId.value, caller.id) then Forbidden
       else if propertyId.value !in db.properties then NotFound
       else Created)
    ensures status == Created ==>
      db.maintenance == old(db.maintenance)[newId := MaintenanceRequest(propertyId.value, caller.id, description.value,
                                                                        MaintenanceStatus.Pending, now)]
    ensures status != Created ==> db.maintenance == old(db.maintenance)
  {
    if caller.role != Tenant {
      return Forbidden;
    }
    if !Given(propertyId) || !Given(description) {
      return BadRequest;
    }
    var pid := propertyId.value;
    if !HasLease(db.leases, pid, caller.id) {
      return Forbidden;
    }
    if pid !in db.properties {
      return NotFound;
    }
    db.maintenance := db.maintenance[newId := MaintenanceRequest(pid, caller.id, description.value,
                                                                 MaintenanceStatus.Pending, now)];
    status := Created;
  }

  /** Get maintenance requests: a tenant sees their own, a landlord those on
      the properties they own (deleted ones included). */
  function GetMaintenanceRequests(properties: map<Id, Property>, maintenance: map<Id, MaintenanceRequest>,
                                  caller: Caller): (r: map<Id, MaintenanceRequest>)
    ensures SubMap(r, maintenance)
    ensures caller.role == Tenant ==>
      forall id :: id in r <==> id in maintenance && maintenance[id].tenantId == caller.id
    ensures caller.role == Landlord ==>
      forall id :: id in r <==> id in maintenance && Owns(properties, maintenance[id].propertyId, caller.id)
  {
    match caller.role
    case Tenant =>
      map id | id in maintenance && maintenance[id].tenantId == caller.id :: maintenance[id]
    case Landlord =>
      var owned := OwnedPropertyIds(properties, caller.id);
      map id | id in maintenance && maintenance[id].propertyId in owned :: maintenance[id]
  }

  /** A new maintenance request joins exactly the listings of the callers who
      may see it: its tenant, and the landlord owning its property. */
  lemma NewMaintenanceListed(properties: map<Id, Property>, maintenance: map<Id, MaintenanceRequest>, newId: Id,
                             m: MaintenanceRequest, caller: Caller)
    requires newId !in maintenance
    ensures GetMaintenanceRequests(properties, maintenance[newId := m], caller) ==
      (if (if caller.role == Tenant then m.tenantId == caller.id else Owns(properties, m.propertyId, caller.id))
       then GetMaintenanceRequests(properties, maintenance, caller)[newId := m]
       else GetMaintenanceRequests(properties, maintenance, caller))
  {
    var after := GetMaintenanceRequests(properties, maintenance[newId := m], caller);
    var before := GetMaintenanceRequests(properties, maintenance, caller);
    var expected := if (if caller.role == Tenant then m.tenantId == caller.id else Owns(properties, m.propertyId, caller.id))
                    then before[newId := m] else before;
    assert after.Keys == expected.Keys;
    forall id | id in after
      ensures after[id] == expected[id]
    {
    }
  }
}
