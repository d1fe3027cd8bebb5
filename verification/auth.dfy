/** The OAuth routes: `/auth/login` sends the browser to the provider with
    a fresh state value that it also stores in a cookie, `/auth/callback`
    checks that value, exchanges the code for tokens and starts a
    session, and `/auth/logout` drops both cookies. */
module Auth {
  import opened Common
  import opened Config
  import opened Json
  import Utf8
  import Base64Url
  import opened SpotifyApi
  import opened Sessions

  const StateCookieName: string := "spotify_auth_state"
  const StateCookieMaxAge: int := 600

  const AuthorizationFailedPrefix: string := "Spotify authorization failed: "
  const MissingCodeDetail: string := "Missing authorization code"
  const StateMismatchDetail: string := "State mismatch; possible CSRF attempt"
  const InvalidStateDetail: string := "Invalid state payload"

  // -----------------------------------------------------------------------
  // The state value

  /** What `secrets.token_urlsafe` returns: URL-safe Base64 characters. */
  predicate IsNonce(n: string) {
    forall k | 0 <= k < |n| :: Base64Url.IsAlphabetChar(n[k])
  }

  lemma NonceIsVerbatim(n: string)
    requires IsNonce(n)
    ensures IsVerbatimText(n)
  {
    forall k | 0 <= k < |n|
      ensures IsVerbatim(n[k])
    {
      assert Base64Url.IsAlphabetChar(n[k]);
    }
  }

  /** `_encode_state()` with the random nonce passed in: the compact JSON
      object `{"nonce": nonce}`, as UTF-8, in URL-safe Base64. */
  function EncodeState(nonce: string): (state: string)
    requires IsNonce(nonce)
    ensures |state| >= 4 && Base64Url.IsEncodedText(state)
  {
    NonceIsVerbatim(nonce);
    Base64Url.Encode(Utf8.Encode(DumpsMember("nonce", nonce)))
  }

  /** `_decode_state(state)`: Base64, then UTF-8, then JSON; `None` is the
      400 "Invalid state payload". Any JSON value is accepted. */
  function DecodeState(state: string): (r: Option<Json>)
    ensures r.Some? ==> Base64Url.IsEncodedText(state)
  {
    match Base64Url.Decode(state)
    case None => None
    case Some(raw) =>
      match Utf8.Decode(raw)
      case None => None
      case Some(text) => Loads(text)
  }

  /** Every state the login route issues decodes back to the object that
      holds its nonce. */
  lemma StateRoundTrip(nonce: string)
    requires IsNonce(nonce)
    ensures DecodeState(EncodeState(nonce)) == Some(Obj([("nonce", Str(nonce))]))
  {
    NonceIsVerbatim(nonce);
    var text := DumpsMember("nonce", nonce);
    Base64Url.DecodeEncode(Utf8.Encode(text));
    Utf8.DecodeEncode(text);
    LoadsDumpsMember("nonce", nonce);
  }

  // -----------------------------------------------------------------------
  // Responses

  /** Where a redirect points: the provider's authorization endpoint with
      its query parameters, or a URL. */
  datatype Location = Authorize(endpoint: string, query: seq<(string, string)>) | Url(url: string)

  /** One `Set-Cookie` header of a response: a cookie set with its options,
      or a cookie expired by `delete_cookie`. */
  datatype CookieHeader = Cookie(name: string, value: string, options: CookieOptions) | Expired(name: string)

  /** A `RedirectResponse`: its location and status are fixed when it is
      made, and its cookies are added one by one. */
  class RedirectResponse {
    const location: Location
    const statusCode: int
    var cookies: seq<CookieHeader>

    constructor(location: Location)
      ensures this.location == location && statusCode == 307 && cookies == []
    {
      this.location := location;
      statusCode := 307;
      cookies := [];
    }

    method SetCookie(name: string, value: string, options: CookieOptions)
      modifies this
      ensures cookies == old(cookies) + [Cookie(name, value, options)]
    {
      cookies := cookies + [Cookie(name, value, options)];
    }

    method DeleteCookie(name: string)
      modifies this
      ensures cookies == old(cookies) + [Expired(name)]
    {
      cookies := cookies + [Expired(name)];
    }
  }

  // -----------------------------------------------------------------------
  // Login

  /** `sep.join(parts)`. */
  function Join(parts: seq<string>, sep: string): string {
    if |parts| == 0 then ""
    else if |parts| == 1 then parts[0]
    else parts[0] + sep + Join(parts[1..], sep)
  }

  /** The value of the first parameter named `key`. */
  function Param(params: seq<(string, string)>, key: string): (r: Option<string>)
    ensures r.Some? <==> exists i | 0 <= i < |params| :: params[i].0 == key
  {
    if |params| == 0 then None
    else if params[0].0 == key then Some(params[0].1)
    else Param(params[1..], key)
  }

  predicate DistinctKeys(params: seq<(string, string)>) {
    forall i, j | 0 <= i < j < |params| :: params[i].0 != params[j].0
  }

  /** With distinct names, every parameter is found under its own name. */
  lemma {:induction false} ParamAt(params: seq<(string, string)>, i: nat)
    requires DistinctKeys(params) && i < |params|
    ensures Param(params, params[i].0) == Some(params[i].1)
  {
    if i > 0 {
      assert params[0].0 != params[i].0;
      assert params[1..][i - 1] == params[i];
      ParamAt(params[1..], i - 1);
    }
  }

  /** The query of the authorization redirect. A client id that is not set
      is written as Python writes `None`. */
  function LoginParams(settings: Settings, state: string, forceLogin: bool): (params: seq<(string, string)>)
    ensures DistinctKeys(params)
    ensures Param(params, "response_type") == Some("code")
    ensures Param(params, "client_id") == Some(settings.clientId.GetOr("None"))
    ensures Param(params, "redirect_uri") == Some(settings.redirectUri)
    ensures Param(params, "scope") == Some("user-top-read")
    ensures Param(params, "state") == Some(state)
    ensures Param(params, "show_dialog") == (if forceLogin then Some("true") else None)
    ensures |params| == (if forceLogin then 6 else 5)
  {
    var params := [("response_type", "code"), ("client_id", settings.clientId.GetOr("None")),
                   ("redirect_uri", settings.redirectUri), ("scope", Join(SpotifyScopes, " ")),
                   ("state", state)];
    var all := if forceLogin then params + [("show_dialog", "true")] else params;
    assert Join(SpotifyScopes, " ") == "user-top-read";
    assert all[..5] == params;
    ParamAt(all, 0); ParamAt(all, 1); ParamAt(all, 2); ParamAt(all, 3); ParamAt(all, 4);
    ParamAt(all, |all| - 1);
    all
  }

  function StateCookieOptions(isProd: bool): CookieOptions {
    CookieOptions(StateCookieMaxAge, true, isProd, "lax")
  }

  /** `GET /auth/login?force_login=…` with the nonce of the new state
      passed in; `configError` is the message of the error the
      configuration check raises, if it does. The state in the redirect is
      the state in the cookie. */
  method Login(settings: Settings, configError: Option<string>, forceLogin: bool, nonce: string)
    returns (r: Result<RedirectResponse, HttpError>)
    requires IsNonce(nonce)
    ensures configError.Some? ==> r == Failure(HttpError(500, configError.value))
    ensures configError.None? ==>
              r.Success? && fresh(r.value) && r.value.statusCode == 307
              && r.value.location == Authorize(SpotifyAuthUrl, LoginParams(settings, EncodeState(nonce), forceLogin))
              && r.value.cookies == [Cookie(StateCookieName, EncodeState(nonce), StateCookieOptions(settings.isProd))]
  {
    if configError.Some? {
      return Failure(HttpError(500, configError.value));
    }
    var state := EncodeState(nonce);
    var response := new RedirectResponse(Authorize(SpotifyAuthUrl, LoginParams(settings, state, forceLogin)));
    response.SetCookie(StateCookieName, state, StateCookieOptions(settings.isProd));
    r := Success(response);
  }

  // -----------------------------------------------------------------------
  // Callback

  /** The checks `callback` makes before it contacts the provider, in the
      order it makes them; success yields the code. */
  function CheckCallback(cookies: map<string, string>, code: Option<string>, state: Option<string>,
                         error: Option<string>): (r: Result<string, HttpError>)
    ensures Truthy(error) ==> r == Failure(HttpError(400, AuthorizationFailedPrefix + error.value))
    ensures !Truthy(error) && !Truthy(code) ==> r == Failure(HttpError(400, MissingCodeDetail))
    ensures !Truthy(error) && Truthy(code)
            && (!Truthy(Lookup(cookies, StateCookieName)) || state != Lookup(cookies, StateCookieName)) ==>
              r == Failure(HttpError(400, StateMismatchDetail))
    ensures !Truthy(error) && Truthy(code) && Truthy(state) && Lookup(cookies, StateCookieName) == state
            && DecodeState(state.value).None? ==>
              r == Failure(HttpError(400, InvalidStateDetail))
    ensures r.Failure? ==> r.error.status == 400
    ensures r.Success? <==>
              !Truthy(error) && Truthy(code) && Truthy(state) && Lookup(cookies, StateCookieName) == state
              && DecodeState(state.value).Some?
    ensures r.Success? ==> r.value == code.value
  {
    if Truthy(error) then Failure(HttpError(400, AuthorizationFailedPrefix + error.value))
    else if !Truthy(code) then Failure(HttpError(400, MissingCodeDetail))
    else
      var expected := Lookup(cookies, StateCookieName);
      if !Truthy(expected) || state != expected then Failure(HttpError(400, StateMismatchDetail))
      else if DecodeState(state.value).None? then Failure(HttpError(400, InvalidStateDetail))
      else Success(code.value)
  }

  /** A callback that returns the state the login route issued, next to
      the cookie that route set, passes every check. */
  lemma IssuedStatePasses(nonce: string, cookies: map<string, string>, code: string)
    requires IsNonce(nonce) && code != ""
    requires Lookup(cookies, StateCookieName) == Some(EncodeState(nonce))
    ensures CheckCallback(cookies, Some(code), Some(EncodeState(nonce)), None) == Success(code)
  {
    StateRoundTrip(nonce);
  }

  /** `request.cookies.get(SESSION_COOKIE_NAME) or new_session_id()`: an
      existing session id is reused. */
  function SessionIdFor(cookies: map<string, string>, freshId: string): (id: string)
    ensures Truthy(Lookup(cookies, SessionCookieName)) ==> id == cookies[SessionCookieName]
    ensures !Truthy(Lookup(cookies, SessionCookieName)) ==> id == freshId
    ensures freshId != "" ==> id != ""
  {
    var existing := Lookup(cookies, SessionCookieName);
    if Truthy(existing) then existing.value else freshId
  }

  /** `rstrip("/")`. */
  function StripSlashes(s: string): (r: string)
    ensures |r| <= |s| && r == s[..|r|]
    ensures r == "" || r[|r| - 1] != '/'
    ensures forall k | |r| <= k < |s| :: s[k] == '/'
  {
    if s == "" || s[|s| - 1] != '/' then s else StripSlashes(s[..|s| - 1])
  }

  /** Where the browser goes after login: the frontend base URL without
      trailing slashes (`/` if nothing is left), kept if absolute or
      rooted and made rooted otherwise. */
  function RedirectTarget(frontendBaseUrl: string): (t: string)
    ensures t != "" && (StartsWith(t, "http") || t[0] == '/')
    ensures t == "/" || t[|t| - 1] != '/'
    ensures StripSlashes(frontendBaseUrl) == "" ==> t == "/"
    ensures var stripped := StripSlashes(frontendBaseUrl);
            stripped != "" ==> (t == stripped || t == "/" + stripped)
                               && (t == stripped <==> StartsWith(stripped, "http") || stripped[0] == '/')
  {
    var stripped := StripSlashes(frontendBaseUrl);
    var target := if stripped == "" then "/" else stripped;
    if StartsWith(target, "http") || StartsWith(target, "/") then target else "/" + target
  }

  /** Computing the target from a target changes nothing. */
  lemma RedirectTargetIdempotent(frontendBaseUrl: string)
    ensures RedirectTarget(RedirectTarget(frontendBaseUrl)) == RedirectTarget(frontendBaseUrl)
  {
    var t := RedirectTarget(frontendBaseUrl);
    if t != "/" {
      assert StripSlashes(t) == t;
    } else {
      assert StripSlashes(t) == StripSlashes("") == "";
    }
  }

  /** `GET /auth/callback?code=…&state=…&error=…`. `post` is the transport
      to the token endpoint, `freshId` the id `new_session_id()` would
      draw and `now` the clock. `sent` lists the token requests made: one
      at most, and none unless every check passed. */
  method Callback(store: SessionStore, settings: Settings, request: Request,
                  code: Option<string>, state: Option<string>, error: Option<string>,
                  post: TokenRequest -> Reply<TokenData>, freshId: string, now: int)
    returns (r: Result<RedirectResponse, HttpError>, sent: seq<TokenRequest>)
    modifies store
    ensures var guard := CheckCallback(request.cookies, code, state, error);
            guard.Failure? ==> r == Failure(guard.error) && sent == [] && store.sessions == old(store.sessions)
    ensures var guard := CheckCallback(request.cookies, code, state, error);
            guard.Success? ==>
              var req := TokenRequestFor(settings, guard.value, settings.redirectUri);
              sent == (if req.Success? then [req.value] else [])
    ensures var guard := CheckCallback(request.cookies, code, state, error);
            guard.Success? ==>
              var exchanged := ExchangeCodeForToken(settings, guard.value, settings.redirectUri, post);
              exchanged.Failure? ==>
                r == Failure(HttpError(exchanged.error.statusCode, exchanged.error.message))
                && store.sessions == old(store.sessions)
    ensures var guard := CheckCallback(request.cookies, code, state, error);
            guard.Success? ==>
              var exchanged := ExchangeCodeForToken(settings, guard.value, settings.redirectUri, post);
              var id := SessionIdFor(request.cookies, freshId);
              exchanged.Success? ==>
                store.sessions == old(store.sessions)[id := SessionRecord(exchanged.value, now)]
                && r.Success? && fresh(r.value) && r.value.statusCode == 307
                && r.value.location == Url(RedirectTarget(settings.frontendBaseUrl) + "?login=success")
                && r.value.cookies == [Expired(StateCookieName),
                                       Cookie(SessionCookieName, id, SessionCookieKwargs(settings.isProd, Some(request.scheme)))]
  {
    sent := [];
    var guard := CheckCallback(request.cookies, code, state, error);
    if guard.Failure? {
      return Failure(guard.error), sent;
    }
    var tokenData: TokenData;
    match TokenRequestFor(settings, guard.value, settings.redirectUri)
    case Failure(e) =>
      return Failure(HttpError(e.statusCode, e.message)), sent;
    case Success(req) =>
      sent := [req];
      match TokenOutcome(post(req))
      case Failure(e) =>
        return Failure(HttpError(e.statusCode, e.message)), sent;
      case Success(data) =>
        tokenData := data;
    var id := SessionIdFor(request.cookies, freshId);
    var _ := store.SaveTokens(id, tokenData, now);
    var response := new RedirectResponse(Url(RedirectTarget(settings.frontendBaseUrl) + "?login=success"));
    response.DeleteCookie(StateCookieName);
    response.SetCookie(SessionCookieName, id, SessionCookieKwargs(settings.isProd, Some(request.scheme)));
    r := Success(response);
  }

  // -----------------------------------------------------------------------
  // Logout

  /** `GET /auth/logout`: back to `/`, with the session cookie and then the
      state cookie expired. The stored session itself is kept. */
  method Logout() returns (response: RedirectResponse)
    ensures fresh(response) && response.statusCode == 307 && response.location == Url("/")
    ensures response.cookies == [Expired(SessionCookieName), Expired(StateCookieName)]
  {
    response := new RedirectResponse(Url("/"));
    response.DeleteCookie(SessionCookieName);
    response.DeleteCookie(StateCookieName);
  }
}
