/**
 * The caller's own profile (controllers/profileController.js).
 */
module Profile {
  import opened Models
  import opened Db

  /** The fields a profile update may supply (`profilePicture` is the path of
      an uploaded file, if any). */
  datatype ProfilePatch = ProfilePatch(
    name: Option<string>,
    phone: Option<string>,
    occupation: Option<string>,
    nextOfKin: Option<string>,
    emergencyContact: Option<string>,
    profilePicture: Option<string>)

  /** The profile merge: each of the six editable fields is overwritten only
      by a given value; identity, credentials, role and verification state
      are never touched. */
  function MergeProfile(u: User, p: ProfilePatch): (r: User)
    ensures r.email == u.email && r.role == u.role && r.password == u.password
    ensures r.emailVerified == u.emailVerified && r.identityVerified == u.identityVerified
    ensures r.nin == u.nin && r.authProvider == u.authProvider && r.createdAt == u.createdAt
    ensures Given(p.name) ==> r.name == p.name.value
    ensures !Given(p.name) ==> r.name == u.name
    ensures Given(p.phone) ==> r.phone == p.phone
    ensures !Given(p.phone) ==> r.phone == u.phone
    ensures Given(p.occupation) ==> r.occupation == p.occupation
    ensures !Given(p.occupation) ==> r.occupation == u.occupation
    ensures Given(p.nextOfKin) ==> r.nextOfKin == p.nextOfKin
    ensures !Given(p.nextOfKin) ==> r.nextOfKin == u.nextOfKin
    ensures Given(p.emergencyContact) ==> r.emergencyContact == p.emergencyContact
    ensures !Given(p.emergencyContact) ==> r.emergencyContact == u.emergencyContact
    ensures Given(p.profilePicture) ==> r.profilePicture == p.profilePicture
    ensures !Given(p.profilePicture) ==> r.profilePicture == u.profilePicture
    ensures (!Given(p.name) && !Given(p.phone) && !Given(p.occupation) && !Given(p.nextOfKin) &&
             !Given(p.emergencyContact) && !Given(p.profilePicture)) ==> r == u
  {
    u.(
      name := PickStr(p.name, u.name),
      phone := PickOpt(p.phone, u.phone),
      occupation := PickOpt(p.occupation, u.occupation),
      nextOfKin := PickOpt(p.nextOfKin, u.nextOfKin),
      emergencyContact := PickOpt(p.emergencyContact, u.emergencyContact),
      profilePicture := PickOpt(p.profilePicture, u.profilePicture))
  }

  /** Applying the same update twice is the same as applying it once. */
  lemma MergeProfileIdempotent(u: User, p: ProfilePatch)
    ensures MergeProfile(MergeProfile(u, p), p) == MergeProfile(u, p)
  {
  }

  /** Update profile: any signed-in caller edits their own user record. */
  method UpdateProfile(db: Store, caller: Caller, patch: ProfilePatch) returns (status: Http)
    requires db.Valid()
    modifies db`users
    ensures db.Valid()
    ensures status == (if caller.id in old(db.users) then Ok else NotFound)
    ensures status == Ok ==> db.users == old(db.users)[caller.id := MergeProfile(old(db.users)[caller.id], patch)]
    ensures status != Ok ==> db.users == old(db.users)
  {
    if caller.id !in db.users {
      return NotFound;
    }
    db.users := db.users[caller.id := MergeProfile(db.users[caller.id], patch)];
    status := Ok;
  }

  /** A user record as returned to its owner: every field but the password. */
  datatype PublicUser = PublicUser(
    name: string,
    email: string,
    role: Role,
    phone: Option<string>,
    profilePicture: Option<string>,
    occupation: Option<string>,
    nextOfKin: Option<string>,
    emergencyContact: Option<string>,
    emailVerified: bool,
    authProvider: AuthProvider,
    createdAt: Time,
    identityVerified: bool,
    nin: Option<string>)

  /** `select('-password')`. */
  function WithoutPassword(u: User): PublicUser {
    PublicUser(u.name, u.email, u.role, u.phone, u.profilePicture, u.occupation, u.nextOfKin,
               u.emergencyContact, u.emailVerified, u.authProvider, u.createdAt, u.identityVerified, u.nin)
  }

  /** The user record rebuilt from its public part and a password. */
  function WithPassword(p: PublicUser, password: Option<string>): User {
    User(p.name, p.email, password, p.role, p.phone, p.profilePicture, p.occupation, p.nextOfKin,
         p.emergencyContact, p.emailVerified, p.authProvider, p.createdAt, p.identityVerified, p.nin)
  }

  /** The projection drops exactly the password: it does not depend on the
      password, and the password is all that is needed to rebuild the user. */
  lemma WithoutPasswordDropsOnlyPassword(u: User, other: Option<string>)
    ensures WithoutPassword(u.(password := other)) == WithoutPassword(u)
    ensures WithPassword(WithoutPassword(u), u.password) == u
  {
  }

  /** Get profile. */
  function GetProfile(users: map<Id, User>, caller: Caller): (r: Reply<PublicUser>)
    ensures r.Failure? <==> caller.id !in users
    ensures r.Failure? ==> r.status == NotFound
    ensures r.Success? ==> WithPassword(r.body, users[caller.id].password) == users[caller.id]
  {
    if caller.id !in users then Failure(NotFound) else Success(WithoutPassword(users[caller.id]))
  }
}
