/** The server-side session store: a process-wide dictionary from session
    id to the tokens of one login, and the attributes of the cookie that
    carries the session id. */
module Sessions {
  import opened Common
  import opened SpotifyApi

  const SessionCookieName: string := "spotify_session_id"
  const SessionCookieMaxAge: int := 60 * 60 * 6

  /** One stored login. `expiresAt` is in seconds of the clock passed to
      `SaveTokens`. */
  datatype SessionData = SessionData(accessToken: Option<string>, refreshToken: Option<string>, expiresAt: Option<int>)

  /** The keyword arguments of `set_cookie` other than name and value. */
  datatype CookieOptions = CookieOptions(maxAge: int, httpOnly: bool, secure: bool, sameSite: string)

  /** The record `save_tokens` builds from a token reply at time `now`: the
      two tokens as the reply has them (an earlier refresh token is not
      kept) and an expiry only when the reply's `expires_in` is present and
      non-zero. */
  function SessionRecord(tokenData: TokenData, now: int): (s: SessionData)
    ensures s.accessToken == tokenData.accessToken && s.refreshToken == tokenData.refreshToken
    ensures s.expiresAt.Some? <==> tokenData.expiresIn.Some? && tokenData.expiresIn.value != 0
    ensures s.expiresAt.Some? ==> s.expiresAt.value - now == tokenData.expiresIn.value
  {
    var expiresAt := match tokenData.expiresIn
      case Some(n) => if n != 0 then Some(now + n) else None
      case None => None;
    SessionData(tokenData.accessToken, tokenData.refreshToken, expiresAt)
  }

  /** `session_cookie_kwargs(request)`, where `scheme` is the scheme of the
      request URL, or `None` when no request is given. */
  function SessionCookieKwargs(isProd: bool, scheme: Option<string>): (o: CookieOptions)
    ensures o.maxAge == SessionCookieMaxAge && o.httpOnly && o.sameSite == "lax"
    ensures o.secure <==> isProd || scheme == Some("https")
  {
    var secure := if scheme == Some("https") then true else isProd;
    CookieOptions(SessionCookieMaxAge, true, secure, "lax")
  }

  /** The module-level `_SESSIONS` dictionary and the two functions that
      read and write it. */
  class SessionStore {
    var sessions: map<string, SessionData>

    constructor()
      ensures sessions == map[]
    {
      sessions := map[];
    }

    /** `get_session(session_id)`: nothing for a missing or empty id, the
        stored record otherwise. */
    function GetSession(id: Option<string>): (r: Option<SessionData>)
      reads this
      ensures !Truthy(id) ==> r.None?
      ensures Truthy(id) ==> (r.Some? <==> id.value in sessions)
      ensures r.Some? ==> r.value == sessions[id.value]
    {
      if !Truthy(id) then None
      else if id.value in sessions then Some(sessions[id.value])
      else None
    }

    /** `save_tokens(session_id, token_data)` at time `now`: replaces the
        whole record under `id` and leaves every other id alone. */
    method SaveTokens(id: string, tokenData: TokenData, now: int) returns (s: SessionData)
      modifies this
      ensures s == SessionRecord(tokenData, now)
      ensures sessions == old(sessions)[id := s]
      ensures id != "" ==> GetSession(Some(id)) == Some(s)
      ensures forall other: string | other != id :: GetSession(Some(other)) == old(GetSession(Some(other)))
    {
      s := SessionRecord(tokenData, now);
      sessions := sessions[id := s];
    }
  }
}
