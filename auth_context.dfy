/**
 * The frontend session store (`AuthProvider`): the signed-in flag, the user and the loading flag,
 * kept in step with the "token" and "user" localStorage keys. On mount it rehydrates itself from
 * storage; `login` and `logout` write storage and state together.
 */
module AuthContext {
  import opened Wrappers
  import opened Browser

  /** The `User` interface: the fields the session keeps about the signed-in user. */
  datatype User = User(username: string, email: string)

  /** The session as a value: the browser tab and the three state variables. */
  datatype Session = Session(tab: Tab, user: Option<User>, isLoggedIn: bool, isLoading: bool)

  /** What the mount check accepts: truthy, and neither of the strings that storing an undefined or
      null value leaves behind. */
  predicate Usable(v: Option<string>) {
    Truthy(v) && v.value != "undefined" && v.value != "null"
  }

  /** A freshly mounted provider over the given tab: no user, signed out, loading. */
  function Fresh(t: Tab): Session {
    Session(t, None, false, true)
  }

  /** The mount effect. `parse` stands for `JSON.parse` followed by the cast to `User`; None is a
      parse failure. */
  function Rehydrate(s: Session, parse: string -> Option<User>): (r: Session)
    ensures !r.isLoading && r.tab.pathname == s.tab.pathname && r.tab.visited == s.tab.visited
    ensures r.isLoggedIn <==> Usable(Item(s.tab, TokenKey)) || s.isLoggedIn
    ensures !Usable(Item(s.tab, TokenKey)) ==>
      r.tab.storage == s.tab.storage - {TokenKey, UserKey} && r.user == s.user
    ensures Usable(Item(s.tab, TokenKey)) ==> Item(r.tab, TokenKey) == Item(s.tab, TokenKey)
    ensures r.user != s.user ==>
      Usable(Item(s.tab, TokenKey)) && Usable(Item(s.tab, UserKey)) && r.user == parse(s.tab.storage[UserKey])
    ensures Usable(Item(s.tab, TokenKey)) && Usable(Item(s.tab, UserKey)) ==>
      var parsed := parse(s.tab.storage[UserKey]);
      (parsed.Some? ==> r.user == parsed && r.tab.storage == s.tab.storage) &&
      (parsed.None? ==> r.user == s.user && r.tab.storage == s.tab.storage - {UserKey})
    ensures Usable(Item(s.tab, TokenKey)) && !Usable(Item(s.tab, UserKey)) ==>
      r.user == s.user && r.tab.storage == s.tab.storage
  {
    if Usable(Item(s.tab, TokenKey)) then
      var saved := Item(s.tab, UserKey);
      if Usable(saved) then
        match parse(saved.value)
        case Some(u) => s.(isLoggedIn := true, user := Some(u), isLoading := false)
        case None => s.(isLoggedIn := true, tab := s.tab.(storage := s.tab.storage - {UserKey}), isLoading := false)
      else s.(isLoggedIn := true, isLoading := false)
    else s.(tab := s.tab.(storage := s.tab.storage - {TokenKey, UserKey}), isLoading := false)
  }

  /** `login(token, userData)`. `stringify` stands for `JSON.stringify`. */
  function LoggedIn(s: Session, token: string, userData: Option<User>, stringify: User -> string): (r: Session)
    ensures r.isLoggedIn && r.isLoading == s.isLoading
    ensures r.tab.pathname == s.tab.pathname && r.tab.visited == s.tab.visited
    ensures Item(r.tab, TokenKey) == Some(token)
    ensures userData.None? ==> r.user == s.user && r.tab.storage == s.tab.storage[TokenKey := token]
    ensures userData.Some? ==>
      r.user == userData && r.tab.storage == s.tab.storage[TokenKey := token][UserKey := stringify(userData.value)]
  {
    var stored := s.tab.storage[TokenKey := token];
    if userData.Some? then
      s.(tab := s.tab.(storage := stored[UserKey := stringify(userData.value)]), isLoggedIn := true, user := userData)
    else s.(tab := s.tab.(storage := stored), isLoggedIn := true)
  }

  /** `logout()`. */
  function LoggedOut(s: Session): (r: Session)
    ensures TokenKey !in r.tab.storage && UserKey !in r.tab.storage
    ensures r.tab.storage == s.tab.storage - {TokenKey, UserKey}
    ensures !r.isLoggedIn && r.user.None? && r.isLoading == s.isLoading
    ensures r.tab.pathname == LoginPath && r.tab.visited == s.tab.visited + [LoginPath]
  {
    var cleared := s.tab.(storage := s.tab.storage - {TokenKey, UserKey});
    Session(NavigatedTo(cleared, LoginPath), None, false, s.isLoading)
  }

  /** The state says signed in exactly when storage holds a token the mount check accepts. */
  predicate Coherent(s: Session) {
    s.isLoggedIn <==> Usable(Item(s.tab, TokenKey))
  }

  class AuthProvider {
    var user: Option<User>
    var isLoggedIn: bool
    var isLoading: bool
    const window: Window

    ghost function Snapshot(): Session
      reads this, window
    {
      Session(window.Snapshot(), user, isLoggedIn, isLoading)
    }

    /** The provider's first render: no user, signed out, loading. */
    constructor (w: Window)
      ensures window == w
      ensures Snapshot() == Fresh(w.Snapshot())
    {
      window := w;
      user, isLoggedIn, isLoading := None, false, true;
    }

    /** The mount effect: check the stored token, then try to restore the saved user. */
    method Mount(parse: string -> Option<User>)
      modifies this, window
      ensures Snapshot() == Rehydrate(old(Snapshot()), parse)
    {
      var token := window.GetItem(TokenKey);
      if Usable(token) {
        isLoggedIn := true;
        var savedUser := window.GetItem(UserKey);
        if Usable(savedUser) {
          var parsed := parse(savedUser.value);
          if parsed.Some? {
            user := parsed;
          } else {
            window.RemoveItem(UserKey);
          }
        }
      } else {
        window.RemoveItem(TokenKey);
        window.RemoveItem(UserKey);
      }
      isLoading := false;
    }

    method Login(token: string, userData: Option<User>, stringify: User -> string)
      modifies this, window
      ensures Snapshot() == LoggedIn(old(Snapshot()), token, userData, stringify)
    {
      window.SetItem(TokenKey, token);
      isLoggedIn := true;
      if userData.Some? {
        user := userData;
        window.SetItem(UserKey, stringify(userData.value));
      }
    }

    method Logout()
      modifies this, window
      ensures Snapshot() == LoggedOut(old(Snapshot()))
    {
      window.RemoveItem(TokenKey);
      window.RemoveItem(UserKey);
      isLoggedIn := false;
      user := None;
      window.Navigate(LoginPath);
    }
  }

  /** Mounting a fresh provider, or a coherent one, leaves it coherent. */
  lemma MountMakesCoherent(s: Session, parse: string -> Option<User>)
    requires s.isLoggedIn ==> Usable(Item(s.tab, TokenKey))
    ensures Coherent(Rehydrate(s, parse))
  {
  }

  /** Signing in with a token the mount check accepts keeps the session coherent. */
  lemma LoginKeepsCoherent(s: Session, token: string, userData: Option<User>, stringify: User -> string)
    requires Usable(Some(token))
    ensures Coherent(LoggedIn(s, token, userData, stringify))
  {
  }

  lemma LogoutMakesCoherent(s: Session)
    ensures Coherent(LoggedOut(s))
  {
  }

  /** Mounting twice is the same as mounting once. */
  lemma RehydrateIdempotent(s: Session, parse: string -> Option<User>)
    ensures Rehydrate(Rehydrate(s, parse), parse) == Rehydrate(s, parse)
  {
  }

  /** A second logout changes neither storage nor state; it only records another navigation to
      the login page. */
  lemma LogoutTwice(s: Session)
    ensures var once := LoggedOut(s);
      LoggedOut(once) == once.(tab := NavigatedTo(once.tab, LoginPath))
  {
  }

  /** After signing in with user data, a reload restores the same user, provided the stored user
      text reads back as the user it was written from. */
  lemma LoginSurvivesReload(s: Session, token: string, u: User, parse: string -> Option<User>, stringify: User -> string)
    requires Usable(Some(token)) && Usable(Some(stringify(u)))
    requires parse(stringify(u)) == Some(u)
    ensures var after := LoggedIn(s, token, Some(u), stringify);
      var reloaded := Rehydrate(Fresh(after.tab), parse);
      reloaded.isLoggedIn && reloaded.user == Some(u) && reloaded.tab == after.tab
  {
  }

  /** After logging out, a reload comes up signed out with no user. */
  lemma LogoutSurvivesReload(s: Session, parse: string -> Option<User>)
    ensures var after := LoggedOut(s);
      var reloaded := Rehydrate(Fresh(after.tab), parse);
      !reloaded.isLoggedIn && reloaded.user.None? && reloaded.tab == after.tab
  {
  }
}
