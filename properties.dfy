/**
 * The property registry of controllers/propertyController.js: landlord-owned
 * listings with a utility-bill freshness rule and soft delete.
 */
module Properties {
  import opened Models
  import opened Db

  /** `validateUtilityBill`: the bill is dated no earlier than `cutoff`, the
      instant two calendar months before now. */
  predicate ValidUtilityBill(billDate: Time, cutoff: Time) {
    billDate >= cutoff
  }

  /** The bill rule is inclusive at the cutoff, rejects any earlier bill, and
      accepts every bill newer than an accepted one. */
  lemma UtilityBillRule(billDate: Time, newer: Time, cutoff: Time)
    requires billDate <= newer
    ensures ValidUtilityBill(cutoff, cutoff)
    ensures billDate < cutoff ==> !ValidUtilityBill(billDate, cutoff)
    ensures ValidUtilityBill(billDate, cutoff) ==> ValidUtilityBill(newer, cutoff)
  {
  }

  /** The fields a create or update request may supply (`status` is read only
      by update). */
  datatype PropertyForm = PropertyForm(
    title: Option<string>,
    description: Option<string>,
    address: Option<string>,
    utilityBill: Option<string>,
    utilityBillDate: Option<Time>,
    photos: Option<seq<string>>,
    rent: Option<int>,
    leaseDuration: Option<int>,
    kind: Option<PropertyType>,
    status: Option<PropertyStatus>)

  /** The eight fields a new property requires, all given. */
  predicate AllGiven(f: PropertyForm) {
    Given(f.title) && Given(f.description) && Given(f.address) && Given(f.utilityBill) &&
    GivenNum(f.utilityBillDate) && GivenNum(f.rent) && GivenNum(f.leaseDuration) && f.kind.Some?
  }

  /** The property a successful create stores. */
  function NewProperty(landlordId: Id, f: PropertyForm, now: Time): (p: Property)
    requires AllGiven(f)
    ensures p.landlordId == landlordId && p.status == PropertyStatus.Active && p.createdAt == now
    ensures p.photos == (if f.photos.Some? then f.photos.value else [])
    ensures p.title == f.title.value && p.description == f.description.value && p.address == f.address.value
    ensures p.utilityBill == f.utilityBill.value && p.utilityBillDate == f.utilityBillDate.value
    ensures p.rent == f.rent.value && p.leaseDuration == f.leaseDuration.value && p.kind == f.kind.value
  {
    Property(landlordId, f.title.value, f.description.value, f.address.value, f.utilityBill.value,
             f.utilityBillDate.value, f.photos.GetOr([]), f.rent.value, f.leaseDuration.value, f.kind.value,
             PropertyStatus.Active, now)
  }

  /** Properties are never removed, and a deleted property stays deleted and unchanged. */
  predicate SoftDeleteOnly(before: map<Id, Property>, after: map<Id, Property>) {
    before.Keys <= after.Keys &&
    forall id :: id in before && before[id].status == PropertyStatus.Deleted ==> after[id] == before[id]
  }

  /** Create property. */
  method CreateProperty(db: Store, caller: Caller, f: PropertyForm, cutoff: Time, newId: Id, now: Time)
    returns (status: Http)
    requires db.Valid()
    requires newId !in db.properties
    modifies db`properties
    ensures db.Valid()
    ensures SoftDeleteOnly(old(db.properties), db.properties)
    ensures status ==
      (if caller.role != Landlord then Forbidden
       else if !AllGiven(f) then BadRequest
       else if !ValidUtilityBill(f.utilityBillDate.value, cutoff) then BadRequest
       else Created)
    ensures status == Created ==> db.properties == old(db.properties)[newId := NewProperty(caller.id, f, now)]
    ensures status == Created ==> ValidUtilityBill(db.properties[newId].utilityBillDate, cutoff)
    ensures status != Created ==> db.properties == old(db.properties)
  {
    if caller.role != Landlord {
      return Forbidden;
    }
    if !AllGiven(f) {
      return BadRequest;
    }
    if !ValidUtilityBill(f.utilityBillDate.value, cutoff) {
      return BadRequest;
    }
    db.properties := db.properties[newId := NewProperty(caller.id, f, now)];
    status := Created;
  }

  /** Get all properties: a landlord sees their own properties that are not
      deleted, anyone else every active property. */
  function GetProperties(properties: map<Id, Property>, caller: Caller): (r: map<Id, Property>)
    ensures SubMap(r, properties)
    ensures caller.role == Landlord ==>
      forall id :: id in r <==>
        id in properties && properties[id].landlordId == caller.id && properties[id].status != PropertyStatus.Deleted
    ensures caller.role != Landlord ==>
      forall id :: id in r <==> id in properties && properties[id].status == PropertyStatus.Active
    ensures forall id :: id in r ==> r[id].status != PropertyStatus.Deleted
  {
    if caller.role == Landlord then
      map id | id in properties && properties[id].landlordId == caller.id
                                && properties[id].status != PropertyStatus.Deleted :: properties[id]
    else
      map id | id in properties && properties[id].status == PropertyStatus.Active :: properties[id]
  }

  /** Get single property: anyone may read a property that is not deleted. */
  function GetProperty(properties: map<Id, Property>, id: Id): (r: Reply<Property>)
    ensures r.Success? <==> id in properties && properties[id].status != PropertyStatus.Deleted
    ensures r.Success? ==> r.body == properties[id]
    ensures r.Failure? ==> r.status == NotFound
  {
    if id !in properties || properties[id].status == PropertyStatus.Deleted then Failure(NotFound)
    else Success(properties[id])
  }

  /** Everything a caller can list they can also fetch; an archived property
      can be fetched by anyone but listed only by its owner. */
  lemma ListedImpliesReadable(properties: map<Id, Property>, caller: Caller, id: Id)
    ensures id in GetProperties(properties, caller) ==> GetProperty(properties, id) == Success(properties[id])
    ensures id in properties && properties[id].status == PropertyStatus.Archived ==>
      GetProperty(properties, id).Success? &&
      (id in GetProperties(properties, caller) <==>
         caller.role == Landlord && properties[id].landlordId == caller.id)
  {
  }

  /** The update merge: falsy fields keep their stored value, photos are
      replaced only by a non-empty list; owner and creation time never change. */
  function MergeProperty(p: Property, f: PropertyForm): (r: Property)
    ensures r.landlordId == p.landlordId && r.createdAt == p.createdAt
    ensures r.photos == (if f.photos.Some? && |f.photos.value| > 0 then f.photos.value else p.photos)
    ensures r.status == (if f.status.Some? then f.status.value else p.status)
    ensures r.kind == (if f.kind.Some? then f.kind.value else p.kind)
    ensures Given(f.title) ==> r.title == f.title.value
    ensures !Given(f.title) ==> r.title == p.title
    ensures Given(f.description) ==> r.description == f.description.value
    ensures !Given(f.description) ==> r.description == p.description
    ensures Given(f.address) ==> r.address == f.address.value
    ensures !Given(f.address) ==> r.address == p.address
    ensures Given(f.utilityBill) ==> r.utilityBill == f.utilityBill.value
    ensures !Given(f.utilityBill) ==> r.utilityBill == p.utilityBill
    ensures GivenNum(f.utilityBillDate) ==> r.utilityBillDate == f.utilityBillDate.value
    ensures !GivenNum(f.utilityBillDate) ==> r.utilityBillDate == p.utilityBillDate
    ensures GivenNum(f.rent) ==> r.rent == f.rent.value
    ensures !GivenNum(f.rent) ==> r.rent == p.rent
    ensures GivenNum(f.leaseDuration) ==> r.leaseDuration == f.leaseDuration.value
    ensures !GivenNum(f.leaseDuration) ==> r.leaseDuration == p.leaseDuration
  {
    p.(
      title := PickStr(f.title, p.title),
      description := PickStr(f.description, p.description),
      address := PickStr(f.address, p.address),
      utilityBill := PickStr(f.utilityBill, p.utilityBill),
      utilityBillDate := PickNum(f.utilityBillDate, p.utilityBillDate),
      photos := if f.photos.Some? && |f.photos.value| > 0 then f.photos.value else p.photos,
      rent := PickNum(f.rent, p.rent),
      leaseDuration := PickNum(f.leaseDuration, p.leaseDuration),
      kind := f.kind.GetOr(p.kind),
      status := f.status.GetOr(p.status))
  }

  /** Applying the same update twice is the same as applying it once. */
  lemma MergePropertyIdempotent(p: Property, f: PropertyForm)
    ensures MergeProperty(MergeProperty(p, f), f) == MergeProperty(p, f)
  {
  }

  /** Update property. A supplied bill date is validated before anything is
      looked up. */
  method UpdateProperty(db: Store, caller: Caller, id: Id, f: PropertyForm, cutoff: Time) returns (status: Http)
    requires db.Valid()
    modifies db`properties
    ensures db.Valid()
    ensures SoftDeleteOnly(old(db.properties), db.properties)
    ensures status ==
      (if caller.role != Landlord then Forbidden
       else if GivenNum(f.utilityBillDate) && !ValidUtilityBill(f.utilityBillDate.value, cutoff) then BadRequest
       else if id !in old(db.properties) || old(db.properties)[id].status == PropertyStatus.Deleted then NotFound
       else if old(db.properties)[id].landlordId != caller.id then Forbidden
       else Ok)
    ensures status == Ok ==> db.properties == old(db.properties)[id := MergeProperty(old(db.properties)[id], f)]
    ensures status == Ok && GivenNum(f.utilityBillDate) ==> ValidUtilityBill(db.properties[id].utilityBillDate, cutoff)
    ensures status != Ok ==> db.properties == old(db.properties)
  {
    if caller.role != Landlord {
      return Forbidden;
    }
    if GivenNum(f.utilityBillDate) && !ValidUtilityBill(f.utilityBillDate.value, cutoff) {
      return BadRequest;
    }
    if id !in db.properties || db.properties[id].status == PropertyStatus.Deleted {
      return NotFound;
    }
    var p := db.properties[id];
    if p.landlordId != caller.id {
      return Forbidden;
    }
    db.properties := db.properties[id := MergeProperty(p, f)];
    status := Ok;
  }

  /** Delete property: a soft delete that keeps the record with every other
      field as it was. */
  method DeleteProperty(db: Store, caller: Caller, id: Id) returns (status: Http)
    requires db.Valid()
    modifies db`properties
    ensures db.Valid()
    ensures SoftDeleteOnly(old(db.properties), db.properties)
    ensures status ==
      (if caller.role != Landlord then Forbidden
       else if id !in old(db.properties) || old(db.properties)[id].status == PropertyStatus.Deleted then NotFound
       else if old(db.properties)[id].landlordId != caller.id then Forbidden
       else Ok)
    ensures status == Ok ==>
      db.properties == old(db.properties)[id := old(db.properties)[id].(status := PropertyStatus.Deleted)]
    ensures status != Ok ==> db.properties == old(db.properties)
  {
    if caller.role != Landlord {
      return Forbidden;
    }
    if id !in db.properties || db.properties[id].status == PropertyStatus.Deleted {
      return NotFound;
    }
    var p := db.properties[id];
    if p.landlordId != caller.id {
      return Forbidden;
    }
    db.properties := db.properties[id := p.(status := PropertyStatus.Deleted)];
    status := Ok;
  }

  /** Deleting twice: the second delete answers 404 and changes nothing. */
  method DeletePropertyTwice(db: Store, caller: Caller, id: Id) returns (first: Http, second: Http)
    requires db.Valid()
    modifies db`properties
    ensures first == Ok ==> second == NotFound && id in old(db.properties)
    ensures first == Ok ==>
      db.properties == old(db.properties)[id := old(db.properties)[id].(status := PropertyStatus.Deleted)]
  {
    first := DeleteProperty(db, caller, id);
    second := DeleteProperty(db, caller, id);
  }

  /** A soft delete removes the property from every caller's listing and
      changes nothing else in it. */
  lemma {:induction false} SoftDeleteHides(properties: map<Id, Property>, caller: Caller, id: Id)
    requires id in properties
    ensures GetProperties(properties[id := properties[id].(status := PropertyStatus.Deleted)], caller)
         == GetProperties(properties, caller) - {id}
  {
    var after := GetProperties(properties[id := properties[id].(status := PropertyStatus.Deleted)], caller);
    var before := GetProperties(properties, caller);
    assert after.Keys == before.Keys - {id};
    forall k | k in after
      ensures after[k] == (before - {id})[k]
    {
    }
  }

  /** A new (active) property joins every listing but other landlords'. */
  lemma NewPropertyListed(properties: map<Id, Property>, newId: Id, p: Property, caller: Caller)
    requires newId !in properties && p.status == PropertyStatus.Active
    ensures GetProperties(properties[newId := p], caller) ==
      (if caller.role != Landlord || p.landlordId == caller.id
       then GetProperties(properties, caller)[newId := p]
       else GetProperties(properties, caller))
  {
    var after := GetProperties(properties[newId := p], caller);
    var before := GetProperties(properties, caller);
    var expected := if caller.role != Landlord || p.landlordId == caller.id then before[newId := p] else before;
    assert after.Keys == expected.Keys;
    forall id | id in after
      ensures after[id] == expected[id]
    {
    }
  }
}
