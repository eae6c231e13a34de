/**
 * The document store the controllers share: one collection per model, each
 * a map from document id to record. Handlers read these maps and write them
 * back, the way the controllers call `find`, `create`, `save`,
 * `findByIdAndUpdate` and `findByIdAndDelete`.
 */
module Db {
  import opened Models

  class Store {
    var users: map<Id, User>
    var properties: map<Id, Property>
    var leases: map<Id, Lease>
    var invitations: map<Id, Invitation>
    var payments: map<Id, Payment>
    var requests: map<Id, Request>
    var maintenance: map<Id, MaintenanceRequest>

    /** No handler ever writes lease status `expired`. */
    ghost predicate NoExpiredLeases()
      reads this
    {
      forall id :: id in leases ==> leases[id].status != LeaseStatus.Expired
    }

    /** Every payment carries its own transaction id. */
    ghost predicate UniqueTransactions()
      reads this
    {
      forall a, b :: a in payments && b in payments && a != b ==>
        payments[a].transactionId != payments[b].transactionId
    }

    ghost predicate Valid()
      reads this
    {
      NoExpiredLeases() && UniqueTransactions()
    }

    /** An empty database. */
    constructor ()
      ensures Valid()
      ensures users == map[] && properties == map[] && leases == map[]
      ensures invitations == map[] && payments == map[]
      ensures requests == map[] && maintenance == map[]
    {
      users, properties, leases := map[], map[], map[];
      invitations, payments := map[], map[];
      requests, maintenance := map[], map[];
    }
  }

  /** `r` is a selection of the documents of `m`, each returned as stored. */
  predicate SubMap<T(==)>(r: map<Id, T>, m: map<Id, T>) {
    forall id :: id in r ==> id in m && r[id] == m[id]
  }

  /** Property `pid` exists and belongs to landlord `uid`. */
  predicate Owns(properties: map<Id, Property>, pid: Id, uid: Id) {
    pid in properties && properties[pid].landlordId == uid
  }

  /** The ids of the properties owned by `landlordId`, deleted ones included
      (`Property.find({ landlord_id })`). */
  function OwnedPropertyIds(properties: map<Id, Property>, landlordId: Id): (ids: set<Id>)
    ensures forall id :: id in ids <==> id in properties && properties[id].landlordId == landlordId
  {
    set id | id in properties && properties[id].landlordId == landlordId
  }
}
