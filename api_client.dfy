/**
 * The frontend's HTTP client (`api`, an axios instance on `http://localhost:8080/api`) and its two
 * interceptors: every request carries the stored token as a Bearer header, and a 401 response
 * clears the stored session and sends the tab to the login page.
 */
module ApiClient {
  import opened Wrappers
  import opened Strings
  import opened Browser
  import AuthContext

  const ApiBaseUrl := "http://localhost:8080/api"
  const AuthorizationHeader := "Authorization"
  const StatusUnauthorized := 401

  /** An axios error: `error.response?.status`, None when no response arrived. */
  datatype HttpError = HttpError(status: Option<int>)

  /** A settled request: the response passed on, or the error it was rejected with. */
  datatype Outcome<T> = Resolved(value: T) | Rejected(error: HttpError)

  /** One line of the cart body the cart endpoint answers with, as the frontend reads it. Prices are
      integer cents. */
  datatype CartLine = CartLine(id: int, productId: int, productName: string, productPrice: int, quantity: int)

  /** The cart body; `items` may be missing from the JSON. */
  datatype CartBody = CartBody(id: int, items: Option<seq<CartLine>>, totalAmount: int)

  predicate IsUnauthorized<T>(o: Outcome<T>) {
    o.Rejected? && o.error.status == Some(StatusUnauthorized)
  }

  /** The headers after the request interceptor, given the stored token. */
  function WithBearer(headers: map<string, string>, token: Option<string>): (r: map<string, string>)
    ensures Truthy(token) ==> AuthorizationHeader in r && r[AuthorizationHeader] == "Bearer " + token.value
    ensures !Truthy(token) ==> r == headers
    ensures forall k :: k in headers && k != AuthorizationHeader ==> k in r && r[k] == headers[k]
    ensures forall k :: k in r && k != AuthorizationHeader ==> k in headers
  {
    if Truthy(token) then headers[AuthorizationHeader := "Bearer " + token.value] else headers
  }

  /** The request configuration the interceptor edits in place. */
  class RequestConfig {
    var url: string
    var headers: map<string, string>

    constructor (url0: string, headers0: map<string, string>)
      ensures url == url0 && headers == headers0
    {
      url, headers := url0, headers0;
    }
  }

  /** The request interceptor. */
  method InterceptRequest(config: RequestConfig, w: Window)
    modifies config
    ensures config.headers == WithBearer(old(config.headers), Item(w.Snapshot(), TokenKey))
    ensures config.url == old(config.url)
  {
    var token := w.GetItem(TokenKey);
    if Truthy(token) {
      config.headers := config.headers[AuthorizationHeader := "Bearer " + token.value];
    }
  }

  /** Whether the 401 handler leaves the page: only in a browser, and only away from a login path. */
  predicate Redirects(t: Tab, hasWindow: bool) {
    hasWindow && !Contains(t.pathname, LoginPath)
  }

  /** The tab after the 401 handler. */
  function Unauthorized(t: Tab, hasWindow: bool): (r: Tab)
    ensures r.storage == t.storage - {TokenKey, UserKey}
    ensures Redirects(t, hasWindow) ==> r.pathname == LoginPath && r.visited == t.visited + [LoginPath]
    ensures !Redirects(t, hasWindow) ==> r.pathname == t.pathname && r.visited == t.visited
  {
    var cleared := t.(storage := t.storage - {TokenKey, UserKey});
    if Redirects(t, hasWindow) then NavigatedTo(cleared, LoginPath) else cleared
  }

  /** The tab after the response interceptor has seen an outcome. */
  function AfterResponse<T>(t: Tab, hasWindow: bool, o: Outcome<T>): (r: Tab)
    ensures !IsUnauthorized(o) ==> r == t
    ensures IsUnauthorized(o) ==> r == Unauthorized(t, hasWindow)
  {
    if IsUnauthorized(o) then Unauthorized(t, hasWindow) else t
  }

  /**
   * The response interceptor. A success is passed on as it is; an error is handled and then
   * rejected again with the same error. `hasWindow` is `typeof window !== 'undefined'`.
   */
  method InterceptResponse<T>(w: Window, hasWindow: bool, o: Outcome<T>) returns (r: Outcome<T>)
    modifies w
    ensures r == o
    ensures w.Snapshot() == AfterResponse(old(w.Snapshot()), hasWindow, o)
  {
    if o.Rejected? && o.error.status == Some(StatusUnauthorized) {
      w.RemoveItem(TokenKey);
      w.RemoveItem(UserKey);
      if hasWindow && !Contains(w.pathname, LoginPath) {
        w.Navigate(LoginPath);
      }
    }
    r := o;
  }

  /** A second 401 changes nothing more: storage is already clear, and the tab is already on the
      login page or was never going to leave. So the tab is redirected at most once. */
  lemma UnauthorizedIdempotent(t: Tab, hasWindow: bool)
    ensures Unauthorized(Unauthorized(t, hasWindow), hasWindow) == Unauthorized(t, hasWindow)
  {
    if Redirects(t, hasWindow) {
      assert StartsWith(LoginPath, LoginPath);
    }
  }

  /** A stored "undefined" is sent as a Bearer token, although the session's mount check treats it as
      no token at all. */
  lemma SentinelTokenIsSent(headers: map<string, string>)
    ensures !AuthContext.Usable(Some("undefined"))
    ensures WithBearer(headers, Some("undefined"))[AuthorizationHeader] == "Bearer undefined"
  {
  }

  /** A 401 clears the stored token but not the session's signed-in flag, so a signed-in session is no
      longer coherent with storage until it is mounted again. */
  lemma UnauthorizedLeavesSessionSignedIn(s: AuthContext.Session, hasWindow: bool)
    requires s.isLoggedIn
    ensures !AuthContext.Coherent(s.(tab := Unauthorized(s.tab, hasWindow)))
  {
  }
}
