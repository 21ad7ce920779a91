/**
 * AuthService: registration, which keeps emails and usernames unique and gives every new user
 * the ROLE_CUSTOMER role, and login, which finds the user by email or else by username. The
 * password encoder and the token generator are parameters: the model does not look inside them.
 */
module AuthService {
  import opened Wrappers
  import opened Entities
  import opened Strings

  const CustomerRole := "ROLE_CUSTOMER"

  /** `RegisterRequest`'s `@NotBlank` and `@Size` constraints: a non-blank email, a non-blank
      username of 3 to 50 UTF-16 units and a non-blank password of 6 to 100. */
  predicate ValidRequest(email: string, username: string, password: string) {
    && NotBlank(email)
    && NotBlank(username) && 3 <= Utf16Length(username) <= 50
    && NotBlank(password) && 6 <= Utf16Length(password) <= 100
  }

  predicate EmailTaken(users: map<int, User>, email: string) {
    exists u :: u in users && users[u].email == email
  }

  predicate UsernameTaken(users: map<int, User>, username: string) {
    exists u :: u in users && users[u].username == username
  }

  /** Why `register` throws, if it does: the email is checked before the username. */
  function RegisterRefusal(users: map<int, User>, email: string, username: string): Option<Error> {
    if EmailTaken(users, email) then Some(IllegalArgument("Email is already in use"))
    else if UsernameTaken(users, username) then Some(IllegalArgument("Username is already in use"))
    else None
  }

  predicate HasRoleNamed(roles: map<int, string>, name: string) {
    exists k :: k in roles && roles[k] == name
  }

  /** A user whose email and username no other user has keeps the users unique. */
  lemma StoreKeepsUsersUnique(users: map<int, User>, id: int, user: User)
    requires UsersUnique(users) && id !in users
    requires !EmailTaken(users, user.email) && !UsernameTaken(users, user.username)
    ensures UsersUnique(users[id := user])
  {
  }

  /**
   * `register`. A taken email or username fails and changes nothing. Otherwise the role named
   * ROLE_CUSTOMER is looked up, and created when there is none; the new user is stored with the
   * encoder's output as its password, the request's profile, and that role as its only role.
   */
  method Register(st: Store, email: string, username: string, password: string, profile: Profile,
                  encode: string -> string) returns (r: Result<int>)
    requires st.Valid() && ValidRequest(email, username, password)
    modifies st
    ensures st.Valid()
    ensures r.Err? <==> RegisterRefusal(old(st.users), email, username).Some?
    ensures r.Err? ==> r.error == RegisterRefusal(old(st.users), email, username).value && st.Snapshot() == old(st.Snapshot())
    ensures r.Ok? ==> r.value in st.users && r.value !in old(st.users)
    ensures r.Ok? ==>
      var user := st.users[r.value];
      && user == User(username, email, encode(password), profile, user.roles)
      && |user.roles| == 1 && (forall k :: k in user.roles ==> k in st.roles && st.roles[k] == CustomerRole)
    ensures r.Ok? ==> st.users == old(st.users)[r.value := st.users[r.value]]
    ensures r.Ok? ==> HasRoleNamed(old(st.roles), CustomerRole) ==> st.roles == old(st.roles)
    ensures r.Ok? ==> !HasRoleNamed(old(st.roles), CustomerRole) ==>
      exists k :: k !in old(st.roles) && st.roles == old(st.roles)[k := CustomerRole]
    ensures r.Ok? ==> st.Snapshot() == old(st.Snapshot()).(users := st.users, roles := st.roles, nextId := st.nextId)
  {
    if EmailTaken(st.users, email) {
      return Err(IllegalArgument("Email is already in use"));
    }
    if UsernameTaken(st.users, username) {
      return Err(IllegalArgument("Username is already in use"));
    }
    var id := SaveNewUser(st, email, username, password, profile, encode);
    r := Ok(id);
  }

  /** The part of `register` after both checks: the customer role, then the new user. */
  method SaveNewUser(st: Store, email: string, username: string, password: string, profile: Profile,
                     encode: string -> string) returns (id: int)
    requires st.Valid() && !EmailTaken(st.users, email) && !UsernameTaken(st.users, username)
    modifies st
    ensures st.Valid()
    ensures id in st.users && id !in old(st.users)
    ensures
      var user := st.users[id];
      && user == User(username, email, encode(password), profile, user.roles)
      && |user.roles| == 1 && (forall k :: k in user.roles ==> k in st.roles && st.roles[k] == CustomerRole)
    ensures st.users == old(st.users)[id := st.users[id]]
    ensures HasRoleNamed(old(st.roles), CustomerRole) ==> st.roles == old(st.roles)
    ensures !HasRoleNamed(old(st.roles), CustomerRole) ==>
      exists k :: k !in old(st.roles) && st.roles == old(st.roles)[k := CustomerRole]
    ensures st.Snapshot() == old(st.Snapshot()).(users := st.users, roles := st.roles, nextId := st.nextId)
  {
    ghost var roles0 := st.roles;
    var roleId := CustomerRoleId(st);
    assert !HasRoleNamed(roles0, CustomerRole) ==> roleId !in roles0 && st.roles == roles0[roleId := CustomerRole];
    var user := User(username, email, encode(password), profile, {roleId});
    id := st.NewId();
    StoreUser(st.Snapshot(), id, user);
    st.users := st.users[id := user];
  }

  /** Storing a user under a fresh id, with an email and a username no one has, keeps the database consistent. */
  lemma StoreUser(d: Db, id: int, user: User)
    requires Consistent(d) && 1 <= id < d.nextId && id !in d.users
    requires !EmailTaken(d.users, user.email) && !UsernameTaken(d.users, user.username)
    ensures Consistent(d.(users := d.users[id := user]))
  {
    StoreKeepsUsersUnique(d.users, id, user);
  }

  /**
   * `roleRepository.findByName("ROLE_CUSTOMER").orElseGet(...)`: the id of the role with that
   * name, saving a new role when there is none. Nothing else changes.
   */
  method CustomerRoleId(st: Store) returns (roleId: int)
    requires st.Valid()
    modifies st
    ensures st.Valid()
    ensures roleId in st.roles && st.roles[roleId] == CustomerRole
    ensures HasRoleNamed(old(st.roles), CustomerRole) ==> st.Snapshot() == old(st.Snapshot())
    ensures !HasRoleNamed(old(st.roles), CustomerRole) ==>
      && roleId !in old(st.roles)
      && st.Snapshot() == old(st.Snapshot()).(roles := old(st.roles)[roleId := CustomerRole], nextId := roleId + 1)
  {
    if exists k :: k in st.roles && st.roles[k] == CustomerRole {
      roleId :| roleId in st.roles && st.roles[roleId] == CustomerRole;
    } else {
      roleId := st.NewId();
      st.roles := st.roles[roleId := CustomerRole];
    }
  }

  /** `AuthResponse`: the access token and the token type, always "Bearer". */
  datatype AuthResponse = AuthResponse(accessToken: string, tokenType: string)

  /** `findByEmail(...).or(() -> findByUsername(...))`. */
  function FindForLogin(users: map<int, User>, usernameOrEmail: string): (r: Option<int>)
    requires UsersUnique(users)
    ensures r.None? <==> !EmailTaken(users, usernameOrEmail) && !UsernameTaken(users, usernameOrEmail)
    ensures r.Some? ==> r.value in users
    ensures EmailTaken(users, usernameOrEmail) ==> r.Some? && users[r.value].email == usernameOrEmail
    ensures !EmailTaken(users, usernameOrEmail) && r.Some? ==> users[r.value].username == usernameOrEmail
  {
    match FindByEmail(users, usernameOrEmail)
    case Some(u) => Some(u)
    case None => FindByUsername(users, usernameOrEmail)
  }

  /**
   * `login`. No matching user and a wrong password both fail with "Invalid credentials"; otherwise
   * the token is generated for the user's username.
   */
  function Login(users: map<int, User>, usernameOrEmail: string, password: string,
                 matches: (string, string) -> bool, generateToken: string -> string): (r: Result<AuthResponse>)
    requires UsersUnique(users)
    ensures r.Err? ==> r.error == IllegalArgument("Invalid credentials")
    ensures r.Ok? <==>
      && FindForLogin(users, usernameOrEmail).Some?
      && matches(password, users[FindForLogin(users, usernameOrEmail).value].password)
    ensures r.Ok? ==> r.value == AuthResponse(generateToken(users[FindForLogin(users, usernameOrEmail).value].username), "Bearer")
  {
    match FindForLogin(users, usernameOrEmail)
    case None => Err(IllegalArgument("Invalid credentials"))
    case Some(u) =>
      if !matches(password, users[u].password) then Err(IllegalArgument("Invalid credentials"))
      else Ok(AuthResponse(generateToken(users[u].username), "Bearer"))
  }

  /** A user whose email is the identifier wins over a different user whose username is the same string. */
  lemma LoginPrefersEmail(users: map<int, User>, usernameOrEmail: string, a: int, b: int)
    requires UsersUnique(users)
    requires a in users && users[a].email == usernameOrEmail
    requires b in users && users[b].username == usernameOrEmail
    ensures FindForLogin(users, usernameOrEmail) == Some(a)
  {
  }

  /**
   * Registering and then logging in with the new email and the raw password gives a token for the
   * new username, given an encoder whose output the matcher accepts for its input.
   */
  lemma RegisteredUserCanLogIn(users: map<int, User>, id: int, user: User, password: string,
                               encode: string -> string, matches: (string, string) -> bool, generateToken: string -> string)
    requires UsersUnique(users) && id !in users
    requires !EmailTaken(users, user.email) && !UsernameTaken(users, user.username)
    requires user.password == encode(password) && matches(password, encode(password))
    ensures UsersUnique(users[id := user])
    ensures Login(users[id := user], user.email, password, matches, generateToken) == Ok(AuthResponse(generateToken(user.username), "Bearer"))
  {
    var after := users[id := user];
    StoreKeepsUsersUnique(users, id, user);
    assert after[id].email == user.email;
  }
}
