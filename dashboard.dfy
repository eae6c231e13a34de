/**
 * Read-only summary counts (controllers/dashboardController.js).
 */
module Dashboard {
  import opened Models
  import opened Db
  import Properties
  import Leases
  import Invitations

  datatype LandlordSummary = LandlordSummary(properties: nat, leases: nat, pendingInvitations: nat)
  datatype TenantSummary = TenantSummary(leases: nat, pendingInvitations: nat)

  /** The landlord's properties that are not deleted. */
  function LiveOwned(properties: map<Id, Property>, landlordId: Id): set<Id> {
    set id | id in properties && properties[id].landlordId == landlordId && properties[id].status != PropertyStatus.Deleted
  }

  /** The leases on any property of the landlord, deleted properties included. */
  function LeasesOnOwned(properties: map<Id, Property>, leases: map<Id, Lease>, landlordId: Id): set<Id> {
    var owned := OwnedPropertyIds(properties, landlordId);
    set id | id in leases && leases[id].propertyId in owned
  }

  /** The pending invitations the landlord sent. */
  function PendingSent(invitations: map<Id, Invitation>, landlordId: Id): set<Id> {
    set id | id in invitations && invitations[id].landlordId == landlordId
                               && invitations[id].status == InvitationStatus.Pending
  }

  /** The leases whose tenant is `tenantId`. */
  function TenantLeases(leases: map<Id, Lease>, tenantId: Id): set<Id> {
    set id | id in leases && leases[id].tenantId == tenantId
  }

  /** The pending invitations addressed to `email`. */
  function PendingReceived(invitations: map<Id, Invitation>, email: string): set<Id> {
    set id | id in invitations && invitations[id].tenantEmail == email
                               && invitations[id].status == InvitationStatus.Pending
  }

  /** Landlord dashboard. */
  function GetLandlordDashboard(properties: map<Id, Property>, leases: map<Id, Lease>,
                                invitations: map<Id, Invitation>, caller: Caller): (r: Reply<LandlordSummary>)
    ensures caller.role != Landlord <==> r == Failure(Forbidden)
    ensures r.Success? ==>
      r.body.properties == |LiveOwned(properties, caller.id)| &&
      r.body.leases == |LeasesOnOwned(properties, leases, caller.id)| &&
      r.body.pendingInvitations == |PendingSent(invitations, caller.id)|
  {
    if caller.role != Landlord then Failure(Forbidden)
    else Success(LandlordSummary(|LiveOwned(properties, caller.id)|,
                                 |LeasesOnOwned(properties, leases, caller.id)|,
                                 |PendingSent(invitations, caller.id)|))
  }

  /** Tenant dashboard. */
  function GetTenantDashboard(leases: map<Id, Lease>, invitations: map<Id, Invitation>, caller: Caller)
    : (r: Reply<TenantSummary>)
    ensures caller.role != Tenant <==> r == Failure(Forbidden)
    ensures r.Success? ==>
      r.body.leases == |TenantLeases(leases, caller.id)| &&
      r.body.pendingInvitations == |PendingReceived(invitations, caller.email)|
  {
    if caller.role != Tenant then Failure(Forbidden)
    else Success(TenantSummary(|TenantLeases(leases, caller.id)|, |PendingReceived(invitations, caller.email)|))
  }

  /** The pending entries of an invitation listing. */
  function PendingOf(m: map<Id, Invitation>): set<Id> {
    set id | id in m && m[id].status == InvitationStatus.Pending
  }

  /** The landlord's counts are the sizes of what the landlord's listings
      return: properties and leases exactly, pending invitations among the
      listed invitations. */
  lemma LandlordDashboardMatchesListings(properties: map<Id, Property>, leases: map<Id, Lease>,
                                         invitations: map<Id, Invitation>, caller: Caller)
    requires caller.role == Landlord
    ensures var d := GetLandlordDashboard(properties, leases, invitations, caller).body;
      && d.properties == |Properties.GetProperties(properties, caller)|
      && d.leases == |Leases.GetLeases(properties, leases, caller)|
      && d.pendingInvitations == |PendingOf(Invitations.GetInvitations(invitations, caller))|
      && d.pendingInvitations <= |Invitations.GetInvitations(invitations, caller)|
  {
    var ps := Properties.GetProperties(properties, caller);
    assert ps.Keys == LiveOwned(properties, caller.id);
    var ls := Leases.GetLeases(properties, leases, caller);
    assert ls.Keys == LeasesOnOwned(properties, leases, caller.id);
    var sent := Invitations.GetInvitations(invitations, caller);
    assert PendingOf(sent) == PendingSent(invitations, caller.id);
    assert PendingOf(sent) <= sent.Keys;
    SubsetCard(PendingOf(sent), sent.Keys);
  }

  /** The tenant's counts are the sizes of what the tenant's listings return. */
  lemma TenantDashboardMatchesListings(properties: map<Id, Property>, leases: map<Id, Lease>,
                                       invitations: map<Id, Invitation>, caller: Caller)
    requires caller.role == Tenant
    ensures var d := GetTenantDashboard(leases, invitations, caller).body;
      && d.leases == |Leases.GetLeases(properties, leases, caller)|
      && d.pendingInvitations == |PendingOf(Invitations.GetInvitations(invitations, caller))|
  {
    var ls := Leases.GetLeases(properties, leases, caller);
    assert ls.Keys == TenantLeases(leases, caller.id);
    var received := Invitations.GetInvitations(invitations, caller);
    assert PendingOf(received) == PendingReceived(invitations, caller.email);
  }

  lemma SubsetCard(a: set<Id>, b: set<Id>)
    requires a <= b
    ensures |a| <= |b|
  {
    assert b == a + (b - a);
  }

  /** Soft-deleting one of the landlord's live properties lowers the property
      count by one and leaves the lease count alone. */
  lemma SoftDeleteCounts(properties: map<Id, Property>, leases: map<Id, Lease>, landlordId: Id, id: Id)
    requires id in properties && properties[id].landlordId == landlordId
    requires properties[id].status != PropertyStatus.Deleted
    ensures var after := properties[id := properties[id].(status := PropertyStatus.Deleted)];
      && |LiveOwned(after, landlordId)| == |LiveOwned(properties, landlordId)| - 1
      && LeasesOnOwned(after, leases, landlordId) == LeasesOnOwned(properties, leases, landlordId)
  {
    var after := properties[id := properties[id].(status := PropertyStatus.Deleted)];
    assert LiveOwned(properties, landlordId) == LiveOwned(after, landlordId) + {id};
    assert OwnedPropertyIds(after, landlordId) == OwnedPropertyIds(properties, landlordId);
  }

  /** A new invitation raises its landlord's and its addressee's pending
      counts by one. */
  lemma NewInvitationCounts(invitations: map<Id, Invitation>, newId: Id, inv: Invitation)
    requires newId !in invitations && inv.status == InvitationStatus.Pending
    ensures |PendingSent(invitations[newId := inv], inv.landlordId)| == |PendingSent(invitations, inv.landlordId)| + 1
    ensures |PendingReceived(invitations[newId := inv], inv.tenantEmail)|
         == |PendingReceived(invitations, inv.tenantEmail)| + 1
  {
    PendingSentInsert(invitations, newId, inv);
    PendingReceivedInsert(invitations, newId, inv);
  }

  lemma PendingSentInsert(invitations: map<Id, Invitation>, newId: Id, inv: Invitation)
    requires newId !in invitations && inv.status == InvitationStatus.Pending
    ensures PendingSent(invitations[newId := inv], inv.landlordId) == PendingSent(invitations, inv.landlordId) + {newId}
  {
    var after := invitations[newId := inv];
    assert forall id :: id in after <==> id in invitations || id == newId;
  }

  lemma PendingReceivedInsert(invitations: map<Id, Invitation>, newId: Id, inv: Invitation)
    requires newId !in invitations && inv.status == InvitationStatus.Pending
    ensures PendingReceived(invitations[newId := inv], inv.tenantEmail)
         == PendingReceived(invitations, inv.tenantEmail) + {newId}
  {
    var after := invitations[newId := inv];
    assert forall id :: id in after <==> id in invitations || id == newId;
  }

  /** Answering a pending invitation lowers its landlord's and its
      addressee's pending counts by one. */
  lemma AnswerCounts(invitations: map<Id, Invitation>, id: Id, answer: InvitationStatus)
    requires id in invitations && invitations[id].status == InvitationStatus.Pending
    requires answer != InvitationStatus.Pending
    ensures var inv := invitations[id];
            var after := invitations[id := inv.(status := answer)];
      && |PendingSent(after, inv.landlordId)| == |PendingSent(invitations, inv.landlordId)| - 1
      && |PendingReceived(after, inv.tenantEmail)| == |PendingReceived(invitations, inv.tenantEmail)| - 1
  {
    var inv := invitations[id];
    var after := invitations[id := inv.(status := answer)];
    assert PendingSent(invitations, inv.landlordId) == PendingSent(after, inv.landlordId) + {id};
    assert PendingReceived(invitations, inv.tenantEmail) == PendingReceived(after, inv.tenantEmail) + {id};
  }

  /** A new lease raises its tenant's lease count by one, and its landlord's
      when the property is theirs. */
  lemma NewLeaseCounts(properties: map<Id, Property>, leases: map<Id, Lease>, newId: Id, lease: Lease, landlordId: Id)
    requires newId !in leases && Owns(properties, lease.propertyId, landlordId)
    ensures |TenantLeases(leases[newId := lease], lease.tenantId)| == |TenantLeases(leases, lease.tenantId)| + 1
    ensures |LeasesOnOwned(properties, leases[newId := lease], landlordId)|
         == |LeasesOnOwned(properties, leases, landlordId)| + 1
  {
    TenantLeasesInsert(leases, newId, lease);
    LeasesOnOwnedInsert(properties, leases, newId, lease, landlordId);
  }

  lemma TenantLeasesInsert(leases: map<Id, Lease>, newId: Id, lease: Lease)
    requires newId !in leases
    ensures TenantLeases(leases[newId := lease], lease.tenantId) == TenantLeases(leases, lease.tenantId) + {newId}
  {
    var after := leases[newId := lease];
    assert forall id :: id in after <==> id in leases || id == newId;
  }

  lemma LeasesOnOwnedInsert(properties: map<Id, Property>, leases: map<Id, Lease>, newId: Id, lease: Lease,
                            landlordId: Id)
    requires newId !in leases && Owns(properties, lease.propertyId, landlordId)
    ensures LeasesOnOwned(properties, leases[newId := lease], landlordId)
         == LeasesOnOwned(properties, leases, landlordId) + {newId}
  {
    var after := leases[newId := lease];
    var owned := OwnedPropertyIds(properties, landlordId);
    assert lease.propertyId in owned;
    var before, now := LeasesOnOwned(properties, leases, landlordId), LeasesOnOwned(properties, after, landlordId);
    forall id | id in now ensures id in before + {newId} {
      if id != newId { assert after[id] == leases[id]; }
    }
    forall id | id in before + {newId} ensures id in now {
      if id != newId { assert after[id] == leases[id]; }
    }
  }
}
