/** The client for the provider's token endpoint and top-tracks endpoint.
    Each call is split into the request it would send (or the error it
    raises before sending anything) and the reading of the reply; the
    transport itself is a function passed in by the caller. */
module SpotifyApi {
  import opened Common
  import opened Config
  import opened Json

  /** `SpotifyAPIError(status_code, message)`. */
  datatype SpotifyAPIError = SpotifyAPIError(statusCode: int, message: string)

  /** The fields of a token endpoint reply that the backend reads; `None`
      is a field that is absent or null. */
  datatype TokenData = TokenData(accessToken: Option<string>, refreshToken: Option<string>, expiresIn: Option<int>)

  /** The `items` field of a top-tracks reply, if present. */
  datatype TracksPage = TracksPage(items: Option<Json>)

  /** What the transport gives back: a request error (no response at all),
      or a response with its status, the error detail its body yields
      (`error_description` or `error.message` of a JSON body, the raw text
      otherwise) and the payload of a successful body. */
  datatype Reply<P> =
    | Unreachable(reason: string)
    | Response(status: int, detail: string, payload: P)

  /** The form POST of the authorization-code exchange, authenticated with
      the client id and secret as HTTP basic credentials. */
  datatype TokenRequest = TokenRequest(
    url: string, form: seq<(string, string)>, clientId: string, clientSecret: string, timeout: int)

  /** The GET of the top-tracks endpoint. */
  datatype TopTracksQuery = TopTracksQuery(
    url: string, limit: int, timeRange: string, authorization: string, timeout: int)

  const RequestTimeout: int := 10
  const CredentialsError: SpotifyAPIError := SpotifyAPIError(500, "Spotify credentials are not configured")
  const MissingTokenError: SpotifyAPIError := SpotifyAPIError(401, "Access token is required")
  const TokenUnreachablePrefix: string := "Spotify token endpoint unreachable: "
  const TokenFailurePrefix: string := "Token exchange failed: "
  const ApiUnreachablePrefix: string := "Spotify API unreachable: "
  const TracksFailurePrefix: string := "Failed to fetch top tracks: "

  /** `_require_credentials()`: `None` when both credentials are set. */
  function RequireCredentials(settings: Settings): (r: Option<SpotifyAPIError>)
    ensures r.None? <==> Truthy(settings.clientId) && Truthy(settings.clientSecret)
    ensures r.Some? ==> r.value == CredentialsError
  {
    if !Truthy(settings.clientId) || !Truthy(settings.clientSecret) then Some(CredentialsError) else None
  }

  /** The first half of `exchange_code_for_token`: the credential check,
      then the request it posts. */
  function TokenRequestFor(settings: Settings, code: string, redirectUri: string): (r: Result<TokenRequest, SpotifyAPIError>)
    ensures r.Failure? <==> RequireCredentials(settings).Some?
    ensures r.Failure? ==> r.error == CredentialsError
    ensures r.Success? ==> r.value.url == SpotifyTokenUrl && r.value.timeout == RequestTimeout
    ensures r.Success? ==> r.value.clientId == settings.clientId.value && r.value.clientSecret == settings.clientSecret.value
  {
    match RequireCredentials(settings)
    case Some(e) => Failure(e)
    case None =>
      Success(TokenRequest(
        SpotifyTokenUrl,
        [("grant_type", "authorization_code"), ("code", code), ("redirect_uri", redirectUri)],
        settings.clientId.value, settings.clientSecret.value, RequestTimeout))
  }

  /** The second half of `exchange_code_for_token`: reading the reply. */
  function TokenOutcome(reply: Reply<TokenData>): (r: Result<TokenData, SpotifyAPIError>)
    ensures r.Success? <==> reply.Response? && reply.status == 200
    ensures r.Success? ==> r.value == reply.payload
    ensures reply.Unreachable? ==> r.error == SpotifyAPIError(502, TokenUnreachablePrefix + reply.reason)
    ensures reply.Response? && reply.status != 200 ==>
              r.error.statusCode == reply.status && r.error.message == TokenFailurePrefix + reply.detail
  {
    match reply
    case Unreachable(reason) => Failure(SpotifyAPIError(502, TokenUnreachablePrefix + reason))
    case Response(status, detail, payload) =>
      if status != 200 then Failure(SpotifyAPIError(status, TokenFailurePrefix + detail)) else Success(payload)
  }

  /** `exchange_code_for_token(code=code, redirect_uri=redirect_uri)` over
      the transport `post`. */
  function ExchangeCodeForToken(settings: Settings, code: string, redirectUri: string,
                                post: TokenRequest -> Reply<TokenData>): (r: Result<TokenData, SpotifyAPIError>)
    ensures RequireCredentials(settings).Some? ==> r == Failure(CredentialsError)
    ensures r.Success? ==> var reply := post(TokenRequestFor(settings, code, redirectUri).value);
                           reply.Response? && reply.status == 200 && r.value == reply.payload
  {
    match TokenRequestFor(settings, code, redirectUri)
    case Failure(e) => Failure(e)
    case Success(request) => TokenOutcome(post(request))
  }

  /** `max(1, min(limit, 50))`. */
  function ClampLimit(limit: int): (r: int)
    ensures 1 <= r <= 50
    ensures 1 <= limit <= 50 ==> r == limit
    ensures limit < 1 ==> r == 1
    ensures limit > 50 ==> r == 50
  {
    var capped := if limit < 50 then limit else 50;
    if 1 < capped then capped else 1
  }

  /** The first half of `get_top_tracks`: the empty-token check, then the
      query it sends. */
  function TopTracksQueryFor(accessToken: string, limit: int, timeRange: string): (r: Result<TopTracksQuery, SpotifyAPIError>)
    ensures r.Failure? <==> accessToken == ""
    ensures r.Failure? ==> r.error == MissingTokenError
    ensures r.Success? ==> r.value.limit == ClampLimit(limit) && r.value.timeRange == timeRange
    ensures r.Success? ==> r.value.authorization == "Bearer " + accessToken
  {
    if accessToken == "" then Failure(MissingTokenError)
    else Success(TopTracksQuery(SpotifyApiBaseUrl + "/me/top/tracks", ClampLimit(limit), timeRange,
                                "Bearer " + accessToken, RequestTimeout))
  }

  /** The second half of `get_top_tracks`: reading the reply. */
  function TopTracksOutcome(reply: Reply<TracksPage>): (r: Result<Json, SpotifyAPIError>)
    ensures r.Success? <==> reply.Response? && reply.status == 200
    ensures r.Success? ==> r.value == reply.payload.items.GetOr(Arr([]))
    ensures reply.Unreachable? ==> r.error == SpotifyAPIError(502, ApiUnreachablePrefix + reply.reason)
    ensures reply.Response? && reply.status != 200 ==>
              r.error.statusCode == reply.status && r.error.message == TracksFailurePrefix + reply.detail
  {
    match reply
    case Unreachable(reason) => Failure(SpotifyAPIError(502, ApiUnreachablePrefix + reason))
    case Response(status, detail, page) =>
      if status != 200 then Failure(SpotifyAPIError(status, TracksFailurePrefix + detail))
      else Success(page.items.GetOr(Arr([])))
  }

  /** `get_top_tracks(access_token=..., limit=..., time_range=...)` over the
      transport `get`. */
  function GetTopTracks(accessToken: string, limit: int, timeRange: string,
                        get: TopTracksQuery -> Reply<TracksPage>): (r: Result<Json, SpotifyAPIError>)
    ensures accessToken == "" ==> r == Failure(MissingTokenError)
    ensures r.Success? ==> var reply := get(TopTracksQueryFor(accessToken, limit, timeRange).value);
                           reply.Response? && reply.status == 200 && r.value == reply.payload.items.GetOr(Arr([]))
  {
    match TopTracksQueryFor(accessToken, limit, timeRange)
    case Failure(e) => Failure(e)
    case Success(query) => TopTracksOutcome(get(query))
  }

  // -----------------------------------------------------------------------
  // Properties

  /** Without both credentials the exchange fails with 500 whatever the
      transport would have answered: no request is made. */
  lemma ExchangeNeedsCredentials(settings: Settings, code: string, redirectUri: string,
                                 post1: TokenRequest -> Reply<TokenData>, post2: TokenRequest -> Reply<TokenData>)
    requires !Truthy(settings.clientId) || !Truthy(settings.clientSecret)
    ensures ExchangeCodeForToken(settings, code, redirectUri, post1) == Failure(CredentialsError)
    ensures ExchangeCodeForToken(settings, code, redirectUri, post1) == ExchangeCodeForToken(settings, code, redirectUri, post2)
  {
  }

  /** The exchange posts exactly three form fields: the grant type
      `authorization_code`, the code and the redirect URI. */
  lemma ExchangeForm(settings: Settings, code: string, redirectUri: string)
    requires Truthy(settings.clientId) && Truthy(settings.clientSecret)
    ensures var form := TokenRequestFor(settings, code, redirectUri).value.form;
            |form| == 3 && form[0] == ("grant_type", "authorization_code")
            && form[1] == ("code", code) && form[2] == ("redirect_uri", redirectUri)
  {
  }

  /** Every failure of the exchange after the request was sent carries the
      upstream status, or 502 when there was no response. */
  lemma ExchangeErrorStatus(settings: Settings, code: string, redirectUri: string,
                            post: TokenRequest -> Reply<TokenData>)
    requires TokenRequestFor(settings, code, redirectUri).Success?
    requires ExchangeCodeForToken(settings, code, redirectUri, post).Failure?
    ensures var reply := post(TokenRequestFor(settings, code, redirectUri).value);
            ExchangeCodeForToken(settings, code, redirectUri, post).error.statusCode
              == (if reply.Unreachable? then 502 else reply.status)
  {
  }

  /** An empty access token fails with 401 whatever the transport would
      have answered: no request is made. */
  lemma EmptyTokenSendsNothing(limit: int, timeRange: string,
                               get1: TopTracksQuery -> Reply<TracksPage>, get2: TopTracksQuery -> Reply<TracksPage>)
    ensures GetTopTracks("", limit, timeRange, get1) == Failure(MissingTokenError)
    ensures GetTopTracks("", limit, timeRange, get1) == GetTopTracks("", limit, timeRange, get2)
  {
  }

  /** Every failure of the top-tracks call after the query was sent
      carries the upstream status, or 502 when there was no response. */
  lemma TopTracksErrorStatus(accessToken: string, limit: int, timeRange: string,
                             get: TopTracksQuery -> Reply<TracksPage>)
    requires accessToken != ""
    requires GetTopTracks(accessToken, limit, timeRange, get).Failure?
    ensures var reply := get(TopTracksQueryFor(accessToken, limit, timeRange).value);
            GetTopTracks(accessToken, limit, timeRange, get).error.statusCode
              == (if reply.Unreachable? then 502 else reply.status)
  {
  }

  /** Clamping is idempotent: a clamped limit is sent as it is. */
  lemma ClampIdempotent(limit: int)
    ensures ClampLimit(ClampLimit(limit)) == ClampLimit(limit)
  {
  }
}
