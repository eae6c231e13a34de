/**
 * Records and enumerations of the property-management document store
 * (the schemas under models/), the identity the authentication layer hands to every
 * handler, the HTTP outcomes the handlers answer with, and the JavaScript
 * truthiness rules the handlers apply to request fields.
 */
module Models {

  /** A document id (a Mongo ObjectId in its string form). */
  type Id = string

  /** Milliseconds since the epoch, the model of a JavaScript `Date`. */
  type Time = int

  datatype Option<T> = None | Some(value: T) {
    function GetOr(default: T): T {
      match this
      case Some(v) => v
      case None => default
    }
  }

  // ---------------------------------------------------------------------
  // Request fields: `!x` and `x || y` in the handlers treat a supplied
  // but falsy value ("" or 0) exactly like an omitted one.
  // ---------------------------------------------------------------------

  /** A string field counts as given iff it is present and not "". */
  predicate Given(f: Option<string>) {
    f.Some? && f.value != ""
  }

  /** A numeric (or date) field counts as given iff it is present and not 0. */
  predicate GivenNum(f: Option<int>) {
    f.Some? && f.value != 0
  }

  /** `f || current` for a string field. */
  function PickStr(f: Option<string>, current: string): (r: string)
    ensures Given(f) ==> r == f.value
    ensures !Given(f) ==> r == current
  {
    if Given(f) then f.value else current
  }

  /** `f || current` for a numeric field. */
  function PickNum(f: Option<int>, current: int): (r: int)
    ensures GivenNum(f) ==> r == f.value
    ensures !GivenNum(f) ==> r == current
  {
    if GivenNum(f) then f.value else current
  }

  /** `f || current` for an optional stored string (undefined stays undefined). */
  function PickOpt(f: Option<string>, current: Option<string>): (r: Option<string>)
    ensures Given(f) ==> r == f
    ensures !Given(f) ==> r == current
  {
    if Given(f) then f else current
  }

  // ---------------------------------------------------------------------
  // Enumerations (the `enum` lists of the schemas)
  // ---------------------------------------------------------------------

  datatype Role = Tenant | Landlord                          // models/User.js:8
  datatype AuthProvider = Local | Google                     // models/User.js:15
  datatype PropertyType = Apartment | House | Commercial     // models/Property.js:13
  datatype PropertyStatus = Active | Archived | Deleted      // models/Property.js:14
  datatype LeaseStatus = Active | Upcoming | Expired         // models/Lease.js:11
  datatype InvitationStatus = Pending | Accepted | Declined  // models/Invitation.js:8
  datatype PaymentStatus = Pending | Completed | Failed      // models/Payment.js:7
  datatype RequestStatus = Pending | Approved | Rejected     // models/Request.js:6
  datatype MaintenanceStatus = Pending | InProgress | Completed  // models/MaintenanceRequest.js:7

  // ---------------------------------------------------------------------
  // Records
  // ---------------------------------------------------------------------

  datatype User = User(
    name: string,
    email: string,
    password: Option<string>,
    role: Role,
    phone: Option<string>,
    profilePicture: Option<string>,
    occupation: Option<string>,
    nextOfKin: Option<string>,
    emergencyContact: Option<string>,
    emailVerified: bool,
    authProvider: AuthProvider,
    createdAt: Time,
    identityVerified: bool,
    nin: Option<string>)

  datatype Property = Property(
    landlordId: Id,
    title: string,
    description: string,
    address: string,
    utilityBill: string,
    utilityBillDate: Time,
    photos: seq<string>,
    rent: int,
    leaseDuration: int,
    kind: PropertyType,
    status: PropertyStatus,
    createdAt: Time)

  datatype Lease = Lease(
    propertyId: Id,
    tenantId: Id,
    startDate: Time,
    endDate: Time,
    rentAmount: int,
    paymentTerms: string,
    document: Option<string>,
    status: LeaseStatus,
    createdAt: Time)

  datatype Invitation = Invitation(
    landlordId: Id,
    tenantEmail: string,
    propertyId: Id,
    leaseId: Option<Id>,
    status: InvitationStatus,
    createdAt: Time)

  datatype Payment = Payment(
    leaseId: Id,
    tenantId: Id,
    amount: int,
    status: PaymentStatus,
    transactionId: string,
    createdAt: Time)

  datatype Request = Request(
    userId: Id,
    propertyId: Id,
    status: RequestStatus,
    createdAt: Time)

  datatype MaintenanceRequest = MaintenanceRequest(
    propertyId: Id,
    tenantId: Id,
    description: string,
    status: MaintenanceStatus,
    createdAt: Time)

  // ---------------------------------------------------------------------
  // Handler interface
  // ---------------------------------------------------------------------

  /** The `req.user` the authentication layer resolves for each request. */
  datatype Caller = Caller(id: Id, role: Role, email: string)

  /** The HTTP statuses the handlers answer with. */
  datatype Http = Ok | Created | BadRequest | Forbidden | NotFound | ServerError {
    function Code(): int {
      match this
      case Ok => 200
      case Created => 201
      case BadRequest => 400
      case Forbidden => 403
      case NotFound => 404
      case ServerError => 500
    }
  }

  /** The answer of a read-only handler: a 200 with a body, or an error status. */
  datatype Reply<T> = Success(body: T) | Failure(status: Http)
}
