# Property-management backend: role-gated lifecycle model

This project models, in Dafny, the request handlers of a property-management
REST backend (Express + Mongoose). Landlords register properties, invite
tenants by e-mail and write leases. Tenants accept or decline invitations,
pay rent against their leases and express interest in properties. Both roles
read dashboards of summary counts. A daily job e-mails a renewal reminder to
every tenant whose lease ends within thirty days. The maintenance controller is modelled as well. Its routes
(routes/maintenance.js) answer 501 and do not call it, so the model describes
code that is not reachable over HTTP.

Layout:

- `models.dfy` (module `Models`): the stored records and their enumerations
  (the Mongoose schemas), the authenticated caller, the HTTP outcomes, and
  the JavaScript truthiness rules the handlers apply to request fields.
  `Given` means present and not `""`; `GivenNum` means present and not `0`.
  `PickStr`, `PickNum` and `PickOpt` model `field || stored`.
- `db.dfy` (module `Db`): class `Store`, one `map` per collection. Its
  invariant `Valid()` says two things:
  - no lease is ever written as `expired`;
  - transaction ids are unique across payments.
- One module per controller: `Invitations`, `Leases`, `Properties`,
  `Payments`, `Requests`, `Maintenance`, `Dashboard` and `Profile`.
  `LeaseReminders` models the reminder job.

Modelling style:

- A handler that writes is a module-level method that takes the `Store` as
  its `db` parameter. Its `modifies` clause names only the collection it
  writes. It states its HTTP status for every guard, in the source's order.
  It gives the new collection exactly, for success and for every failure.
- A handler that only reads is a function of the collections it queries.
- Document ids the database assigns are parameters, with a freshness
  precondition. So are the current time and the `uuidv4()` value.
- Each operation has a partner. The ones used are:
  - the listing, for a single-document read;
  - idempotence, for a merge;
  - a count that changes by exactly one, for the dashboards;
  - for a create, the listings it joins;
  - for a delete, the listing the document leaves.

## Model

| member | source | states |
|---|---|---|
| Invitations.CreateInvitation | controllers/invitationController.js:19-63 | 403 for a non-landlord; 400 for a missing e-mail or property; 403 for a property that is missing or not the caller's; 400 for a lease that is missing or on another property; otherwise 201 and exactly one pending invitation added; settled invitations unchanged |
| Invitations.CreateInvitationAsWritten | controllers/invitationController.js:36-41 | as written: any given lease id answers 500 and stores nothing |
| Invitations.CreateAsWrittenRejectsValidLease | controllers/invitationController.js:36-41 | for a valid lease on the landlord's own property, the code as written answers 500 where the corrected handler answers 201 |
| Invitations.GetInvitations | controllers/invitationController.js:66-76 | a landlord gets exactly the invitations they sent; anyone else exactly those sent to their e-mail; documents as stored |
| Invitations.AcceptInvitation | controllers/invitationController.js:79-106 | 403 unless the caller is a tenant and the invitation exists and is addressed to their e-mail; 400 if already answered; otherwise the status becomes accepted and the named lease gets the caller as tenant; a lease that no longer exists gives 500 after the status is saved; an answered invitation never changes |
| Invitations.AcceptInvitationAsWritten | controllers/invitationController.js:93-100 | as written: an invitation naming a lease is saved as accepted, the answer is 500 and no lease is written |
| Invitations.AcceptAsWrittenStrandsLease | controllers/invitationController.js:93-100 | a concrete accept, as written, leaves the invitation accepted, answers 500 and leaves the lease bound to its previous tenant |
| Invitations.DeclineInvitation | controllers/invitationController.js:109-130 | the same guards as accept; on success only the status changes, to declined |
| Invitations.RespondTwice | controllers/invitationController.js:89-91 | after one successful accept or decline, a second answer by anyone is refused with 400 or 403, and the status stays as first set |
| Leases.InitialStatus | controllers/leaseController.js:56 | a written lease is upcoming iff it starts after now, otherwise active, and never expired |
| Leases.CreateLease | controllers/leaseController.js:18-63 | 403 role; 400 for any missing field; 403 for a property that is missing or not the caller's; 400 for a user that is missing or not a tenant; 400 unless start < end; otherwise 201 and exactly the new lease added, with start < end |
| Leases.GetLeases | controllers/leaseController.js:66-83 | a landlord gets exactly the leases on properties they own (deleted included); anyone else exactly the leases naming them as tenant |
| Leases.GetLease | controllers/leaseController.js:86-106 | success iff the lease exists and the caller owns its property (landlord) or is its tenant; 404 missing, 500 when a landlord's lease has no property, otherwise 403 |
| Leases.GetLeaseAsWritten | controllers/leaseController.js:88-101 | as written: only a landlord owning the property succeeds; a tenant always gets 403 (500 when the tenant user is gone) |
| Leases.TenantLockedOutAsWritten | controllers/leaseController.js:99-101 | the tenant of a lease is refused by the code as written, yet the corrected handler returns the lease and the listing contains it |
| Leases.GetLeaseAgreesWithListing | controllers/leaseController.js:66-106 | a caller can read a single lease exactly when it is in their listing, and reads the listed document |
| Leases.MergeLease | controllers/leaseController.js:131-138 | property, tenant and creation time kept; each of start date, end date, rent amount, payment terms and document is replaced iff a truthy value is given, otherwise kept; status becomes upcoming iff a future start date is given or it already was, otherwise unchanged |
| Leases.MergeLeaseIdempotent | controllers/leaseController.js:131-138 | applying the same update twice equals applying it once |
| Leases.MergeLeaseEmpty | controllers/leaseController.js:131-138 | an update that supplies nothing leaves the lease unchanged |
| Leases.MergeLeaseKeepsOrder | controllers/leaseController.js:127-133 | start < end survives an update giving both dates in order, or neither |
| Leases.SingleDateUpdateMayInvertDates | controllers/leaseController.js:127-133 | an update giving only an end date before the stored start is accepted and inverts the dates |
| Leases.UpdateLease | controllers/leaseController.js:109-145 | 403 role; 404 missing; 500 when the property is gone; 403 non-owner; 400 when both dates are given and out of order; otherwise the lease is replaced by the merge; nothing else written |
| Leases.DeleteLease | controllers/leaseController.js:148-166 | the same guards as update; on success exactly that lease is removed |
| Properties.CreateProperty | controllers/propertyController.js:19-55 | 403 role; 400 for a missing field; 400 for a bill dated before the two-month cutoff; otherwise 201 and exactly the new property added, active and with a bill that passes the rule; no property removed, deleted ones untouched |
| Properties.UtilityBillRule | controllers/propertyController.js:12-16 | `validateUtilityBill`: a bill dated exactly at the cutoff passes, any earlier one fails, and a bill newer than a passing one passes too |
| Properties.GetProperties | controllers/propertyController.js:58-67 | a landlord gets exactly their not-deleted properties; anyone else exactly the active ones; never a deleted one |
| Properties.GetProperty | controllers/propertyController.js:70-81 | success with the stored document iff it exists and is not deleted, otherwise 404 |
| Properties.ListedImpliesReadable | controllers/propertyController.js:58-81 | every listed property can be fetched; an archived one can be fetched by anyone but is listed only by its owner |
| Properties.MergeProperty | controllers/propertyController.js:105-116 | owner and creation time kept; each of title, description, address, utility bill, bill date, rent and lease duration is replaced iff a truthy value is given, otherwise kept; photos replaced only by a non-empty list; type and status replaced when given |
| Properties.MergePropertyIdempotent | controllers/propertyController.js:105-116 | applying the same update twice equals applying it once |
| Properties.UpdateProperty | controllers/propertyController.js:84-124 | 403 role; 400 for a given bill date before the cutoff, checked before the lookup; 404 missing or deleted; 403 non-owner; otherwise the property is replaced by the merge, and a supplied bill date in it passes the rule |
| Properties.DeleteProperty | controllers/propertyController.js:127-146 | 403 role; 404 missing or deleted; 403 non-owner; otherwise only the status becomes deleted and the record is kept |
| Properties.DeletePropertyTwice | controllers/propertyController.js:133-135 | a second delete of the same property answers 404 and changes nothing |
| Properties.SoftDeleteHides | controllers/propertyController.js:139-140 | after a soft delete, every caller's listing is the previous listing without that property |
| Properties.NewPropertyListed | controllers/propertyController.js:38-60 | a created (active) property joins every caller's listing except other landlords', and nothing else in the listings changes |
| Payments.CreatePayment | controllers/paymentController.js:15-44 | 403 non-tenant; 400 without lease id or amount; 403 for a lease that is missing or not the caller's; otherwise 201 and exactly one completed payment by the caller added, with a transaction id no other payment has |
| Payments.GetPayments | controllers/paymentController.js:46-54 | a tenant gets exactly their payments; anyone else exactly the payments on leases of properties they own |
| Payments.GetPaymentsAsWritten | controllers/paymentController.js:48 | as written: a tenant gets their payments; any other caller gets 500 |
| Payments.LandlordPaymentsLostAsWritten | controllers/paymentController.js:48 | a landlord with a payment on their own lease gets 500 as written, although the corrected listing contains it |
| Payments.LandlordPaymentsFollowLeases | controllers/paymentController.js:48 | a landlord's payments are exactly those on the leases of that landlord's lease listing |
| Payments.NewPaymentListed | controllers/paymentController.js:32-48 | a new payment joins exactly its tenant's listing and the listing of the landlord owning its lease's property; nothing else in any listing changes |
| Requests.CreateRequest | controllers/requestController.js:4-27 | any caller; 400 without a property id; 404 unless the property exists and is active; otherwise 201 and exactly one pending request by the caller added |
| Requests.GetRequests | controllers/requestController.js:29-37 | a landlord gets exactly the requests on properties they own; anyone else exactly their own requests |
| Requests.NewRequestListed | controllers/requestController.js:17-31 | a new request joins exactly its author's listing and the listing of the landlord owning its property; nothing else in any listing changes |
| Maintenance.CreateMaintenanceRequest | controllers/maintenanceController.js:5-38 | 403 non-tenant; 400 without property or description; 403 without a lease on that property, checked before the property lookup; 404 missing property; otherwise 201 and exactly one pending request added |
| Maintenance.GetMaintenanceRequests | controllers/maintenanceController.js:40-61 | a tenant gets exactly their own requests; a landlord exactly those on properties they own |
| Maintenance.NewMaintenanceListed | controllers/maintenanceController.js:27-48 | a new maintenance request joins exactly its tenant's listing and the listing of the landlord owning its property; nothing else in any listing changes |
| Dashboard.GetLandlordDashboard | controllers/dashboardController.js:15-33 | 403 iff not a landlord; otherwise the number of their not-deleted properties, of leases on any of their properties, and of their pending sent invitations |
| Dashboard.GetTenantDashboard | controllers/dashboardController.js:35-51 | 403 iff not a tenant; otherwise the number of their leases and of pending invitations to their e-mail |
| Dashboard.LandlordDashboardMatchesListings | controllers/dashboardController.js:21-23 | the landlord's counts equal the sizes of the property and lease listings and the pending part of the invitation listing |
| Dashboard.TenantDashboardMatchesListings | controllers/dashboardController.js:41-42 | the tenant's counts equal the size of the lease listing and the pending part of the invitation listing |
| Dashboard.SoftDeleteCounts | controllers/dashboardController.js:21-22 | soft-deleting a live property lowers the property count by one and leaves the lease count alone |
| Dashboard.NewInvitationCounts | controllers/dashboardController.js:23 | a new pending invitation raises the sender's pending count (line 23) and the addressee's (line 42) by one |
| Dashboard.PendingSentInsert | controllers/dashboardController.js:23 | a new pending invitation joins exactly its sender's pending set |
| Dashboard.PendingReceivedInsert | controllers/dashboardController.js:42 | a new pending invitation joins exactly its addressee's pending set |
| Dashboard.AnswerCounts | controllers/dashboardController.js:23 | answering a pending invitation lowers the sender's pending count (line 23) and the addressee's (line 42) by one |
| Dashboard.NewLeaseCounts | controllers/dashboardController.js:22 | a new lease raises its landlord's lease count (line 22) by one when the property is theirs, and its tenant's (line 41) by one |
| Dashboard.TenantLeasesInsert | controllers/dashboardController.js:41 | a new lease joins exactly its tenant's lease set |
| Dashboard.LeasesOnOwnedInsert | controllers/dashboardController.js:22 | a new lease on an owned property joins exactly the landlord's lease set |
| Profile.MergeProfile | controllers/profileController.js:23-30 | e-mail, role, password, verification flags, national id, provider and creation time never change; each of name, phone, occupation, next of kin, emergency contact and profile picture is replaced iff a truthy value is given, otherwise kept; an empty patch changes nothing |
| Profile.MergeProfileIdempotent | controllers/profileController.js:23-30 | applying the same update twice equals applying it once |
| Profile.UpdateProfile | controllers/profileController.js:13-37 | 404 when the caller's user is missing; otherwise exactly the caller's record is replaced by the merge |
| Profile.WithoutPasswordDropsOnlyPassword | controllers/profileController.js:41 | the public view does not depend on the password, and the password is all it takes to rebuild the user |
| Profile.GetProfile | controllers/profileController.js:39-49 | 404 iff the caller's user is missing; otherwise the stored user without exactly its password |
| LeaseReminders.LeasesDue | utils/leaseReminders.js:12-17 | exactly the leases ending within [now, now + 30 days] that are not expired |
| LeaseReminders.RemindOne | utils/leaseReminders.js:19-28 | reminding one more selected lease keeps the sent list at one distinct reminder per visited lease |
| LeaseReminders.RemindedAreAddressable | utils/leaseReminders.js:19-28 | every reminded lease had an existing tenant and property |
| LeaseReminders.SendLeaseReminders | utils/leaseReminders.js:11-31 | every message is the reminder of a selected lease, no lease twice; the run aborts iff some selected lease lacks its tenant or property; otherwise every selected lease gets exactly one reminder |
| LeaseReminders.StatusFilterRedundant | utils/leaseReminders.js:14-17 | in a valid store the status filter removes nothing: selection is by end date alone |

## Left out

- E-mail and SMS delivery are not modelled. This covers the invitation mail, the reminder mail and the 500 a failed send produces after the invitation is stored. Sends are assumed to succeed, and the reminder job returns its messages instead of sending them.
- Scheduling of the reminder job by cron is not modelled; `SendLeaseReminders` is one run at a given `now`.
- Authentication is not modelled: the passport strategies, tokens, OTPs, the auth controller and the mock API. A handler receives the already-resolved caller.
- Routing and the upload middleware are not modelled. An uploaded document or picture path is an optional parameter.
- The payment-gateway flows are not modelled because they are foreign calls. Only the mock `createPayment` is part of this model.
- `populate` and `select` projections are not modelled: a listing returns the stored documents by id. `select('-password')` is the exception, modelled by `Profile.GetProfile`.
- Calendar arithmetic is not modelled. The cutoff "two calendar months before now" is a parameter of the property handlers.
- Malformed input is not modelled: ids that are not ObjectIds (a CastError, hence 500), enum strings outside the schema, and dates that do not parse. Request fields are typed options, and an enum field counts as given when present.
- Schema validation errors raised by `create` are not modelled, apart from the ones the handlers check themselves.
- Invitations.StoredLeaseId: an empty `lease_id` is modelled as stored absent; how the ObjectId cast treats an empty string is not modelled.
- Maintenance.GetMaintenanceRequests: the schema allows only two roles, so the 403 branch for any other role cannot be reached and is not modelled.
- Dates are `Time = int` milliseconds, not the strings a JSON body carries (`express.json()`, server.js:19). `GivenNum` takes a date of 0 as not given, but in the source every non-empty date string is truthy, the epoch included. So a `utility_bill_date` of "1970-01-01T00:00:00Z" is rejected as stale by `updateProperty` (propertyController.js:92), while `Properties.UpdateProperty` skips the check and keeps the stored date.
- Rent, lease duration, rent amount and payment amount are JavaScript numbers and may be fractional. The model uses `int`.
- Failures of the document store are not modelled: a failed query or write, and the catch-all 500 every handler answers with. Read functions such as `Leases.GetLeases` never fail, and write methods fail only on the branches named in their contracts.
- Concurrency between requests is not modelled. Each handler runs atomically on the store.
- `profileController.getProperties` is not modelled. No route uses it and it duplicates `propertyController.getProperties`.
- Payments.CreatePayment: the uniqueness of `uuidv4()` is a precondition (a fresh transaction id) rather than a proved fact.

## Findings

| source | as written | input that shows it | evidently intended | confidence | as-written member | corrected member |
|---|---|---|---|---|---|---|
| controllers/invitationController.js:36-41 | `Lease` is used but models/Lease is never required, so the lease check throws a ReferenceError and answers 500 | a landlord invites to their own property with a valid `lease_id` | validate the lease and store the invitation (201) | not executed | Invitations.CreateInvitationAsWritten | Invitations.CreateInvitation |
| controllers/invitationController.js:93-100 | the invitation is saved as accepted before the undefined `Lease` throws, so the lease is never bound and the caller gets 500 | a tenant accepts a pending invitation that names a lease | accept and bind the lease to the tenant (200) | not executed | Invitations.AcceptInvitationAsWritten | Invitations.AcceptInvitation |
| controllers/paymentController.js:48 | `Property` is used but models/Property is never required, so every non-tenant listing answers 500 | a landlord lists payments | list the payments on the landlord's leases | not executed | Payments.GetPaymentsAsWritten | Payments.GetPayments |
| controllers/leaseController.js:99-101 | `tenant_id` is populated, so `lease.tenant_id.toString()` is the string form of a user document and never equals the caller's id | the tenant of a lease fetches that lease | the lease's tenant may read it | not executed | Leases.GetLeaseAsWritten | Leases.GetLease |

The exhibits are `Invitations.CreateAsWrittenRejectsValidLease`,
`Invitations.AcceptAsWrittenStrandsLease`,
`Payments.LandlordPaymentsLostAsWritten` and
`Leases.TenantLockedOutAsWritten`.

`updateLease` checks date order only when both dates are supplied
(controllers/leaseController.js:127). An update that gives only an end date
can therefore put the end before the start
(`Leases.SingleDateUpdateMayInvertDates`). The model keeps that behaviour,
because nothing says the authors meant otherwise.
