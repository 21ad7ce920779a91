/**
 * UserController: reading the authenticated user and the partial profile update, where a null
 * field of the request means "keep the stored value".
 */
module UserController {
  import opened Wrappers
  import opened Entities

  /** `UpdateProfileRequest`: the same nine optional fields as the profile; None is a null in the JSON body. */
  type ProfileRequest = Profile

  /** One conditional setter: the request's value when it is non-null, else the stored one. */
  function Keep(stored: Option<string>, requested: Option<string>): (v: Option<string>)
    ensures requested.Some? ==> v == requested
    ensures requested.None? ==> v == stored
  {
    if requested.Some? then requested else stored
  }

  /** The profile the nine conditional setters of `updateProfile` leave: field by field, the request's value when it is non-null, else the stored one. */
  function MergeProfile(p: Profile, req: ProfileRequest): Profile {
    Profile(
      Keep(p.firstName, req.firstName), Keep(p.lastName, req.lastName), Keep(p.phoneNumber, req.phoneNumber),
      Keep(p.addressLine1, req.addressLine1), Keep(p.addressLine2, req.addressLine2), Keep(p.city, req.city),
      Keep(p.state, req.state), Keep(p.zipCode, req.zipCode), Keep(p.country, req.country))
  }

  /** The request with every field null. */
  const EmptyRequest := Profile(None, None, None, None, None, None, None, None, None)

  /** An all-null request leaves the profile as it was. */
  lemma EmptyRequestKeepsProfile(p: Profile)
    ensures MergeProfile(p, EmptyRequest) == p
  {
  }

  /** Sending the same request twice is the same as sending it once. */
  lemma MergeIdempotent(p: Profile, req: ProfileRequest)
    ensures MergeProfile(MergeProfile(p, req), req) == MergeProfile(p, req)
  {
  }

  /** A request that sets every field replaces the profile with the request. */
  lemma FullRequestReplaces(p: Profile, req: ProfileRequest)
    requires req.firstName.Some? && req.lastName.Some? && req.phoneNumber.Some?
    requires req.addressLine1.Some? && req.addressLine2.Some? && req.city.Some?
    requires req.state.Some? && req.zipCode.Some? && req.country.Some?
    ensures MergeProfile(p, req) == req
  {
  }

  /** `getCurrentUser`: the user whose username is the authenticated name. */
  function GetCurrentUser(users: map<int, User>, currentUsername: string): (r: Result<User>)
    requires UsersUnique(users)
    ensures r.Ok? <==> exists u :: u in users && users[u].username == currentUsername
    ensures r.Ok? ==> r.value.username == currentUsername && exists u :: u in users && users[u] == r.value
    ensures r.Err? ==> r.error == NotFound("User not found")
  {
    match FindByUsername(users, currentUsername)
    case None => Err(NotFound("User not found"))
    case Some(u) => Ok(users[u])
  }

  /** Changing only a user's profile keeps the database consistent. */
  lemma StoreProfile(d: Db, u: int, p: Profile)
    requires Consistent(d) && u in d.users
    ensures Consistent(d.(users := d.users[u := d.users[u].(profile := p)]))
  {
    var after := d.users[u := d.users[u].(profile := p)];
    forall a | a in after ensures after[a].username == d.users[a].username && after[a].email == d.users[a].email {
    }
  }

  /**
   * `updateProfile`. An unknown authenticated name fails and changes nothing. Otherwise only the
   * user's profile changes, to `MergeProfile` of the stored profile and the request; username,
   * email, password and roles stay as they were, and so does every other user.
   */
  method UpdateProfile(st: Store, currentUsername: string, req: ProfileRequest) returns (r: Result<User>)
    requires st.Valid()
    modifies st
    ensures st.Valid()
    ensures r.Err? <==> FindByUsername(old(st.users), currentUsername).None?
    ensures r.Err? ==> r.error == NotFound("User not found") && st.Snapshot() == old(st.Snapshot())
    ensures r.Ok? ==> FindByUsername(old(st.users), currentUsername).Some?
    ensures r.Ok? ==>
      var u := FindByUsername(old(st.users), currentUsername).value;
      var before := old(st.users)[u];
      && r.value == before.(profile := MergeProfile(before.profile, req))
      && st.Snapshot() == old(st.Snapshot()).(users := old(st.users)[u := r.value])
  {
    var found := FindByUsername(st.users, currentUsername);
    if found.None? {
      return Err(NotFound("User not found"));
    }
    var u := found.value;
    var user := st.users[u];
    var p := ApplyRequest(user.profile, req);
    user := user.(profile := p);
    StoreProfile(st.Snapshot(), u, p);
    st.users := st.users[u := user];
    r := Ok(user);
  }

  /** The nine conditional setters of `updateProfile`, in their order, on the stored profile. */
  method ApplyRequest(stored: Profile, req: ProfileRequest) returns (p: Profile)
    ensures p == MergeProfile(stored, req)
  {
    p := stored;
    if req.firstName.Some? { p := p.(firstName := req.firstName); }
    if req.lastName.Some? { p := p.(lastName := req.lastName); }
    if req.phoneNumber.Some? { p := p.(phoneNumber := req.phoneNumber); }
    if req.addressLine1.Some? { p := p.(addressLine1 := req.addressLine1); }
    if req.addressLine2.Some? { p := p.(addressLine2 := req.addressLine2); }
    if req.city.Some? { p := p.(city := req.city); }
    if req.state.Some? { p := p.(state := req.state); }
    if req.zipCode.Some? { p := p.(zipCode := req.zipCode); }
    if req.country.Some? { p := p.(country := req.country); }
  }
}
