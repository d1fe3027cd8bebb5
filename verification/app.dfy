/** The `/me/top-tracks` route: it reads the caller's session, asks the
    provider for their top tracks and, when the provider rejects the
    access token, refreshes it once and asks again. */
module App {
  import opened Common
  import opened Json
  import opened SpotifyApi
  import opened Sessions

  const NoSessionDetail: string := "No active Spotify session. Please log in."

  /** A call the route makes to the provider. */
  datatype UpstreamCall = TracksCall(query: TopTracksQuery) | RefreshCall(refreshToken: string)

  /** How the route ends: the JSON body `{"items": items}`, an HTTP error
      it raises itself, or a `SpotifyAPIError` it does not catch (raised by
      the refresh or by the retry). */
  datatype Outcome = Items(body: Json) | Raised(error: HttpError) | Escaped(exception: SpotifyAPIError)

  /** The call `get_top_tracks` makes for `accessToken`, if it makes one. */
  function TracksCalls(accessToken: string, limit: int, timeRange: string): (calls: seq<UpstreamCall>)
    ensures |calls| <= 1
    ensures |calls| == 1 <==> accessToken != ""
    ensures forall i | 0 <= i < |calls| ::
              calls[i].TracksCall? && calls[i].query.limit == ClampLimit(limit)
              && calls[i].query.timeRange == timeRange
              && calls[i].query.authorization == "Bearer " + accessToken
  {
    match TopTracksQueryFor(accessToken, limit, timeRange)
    case Failure(_) => []
    case Success(query) => [TracksCall(query)]
  }

  /** `GET /me/top-tracks?limit=…&time_range=…`. `http` is the transport
      to the top-tracks endpoint, `refresh` stands for
      `refresh_access_token`, and `now` is the clock at which refreshed
      tokens are saved. `calls` lists the calls made to the provider, in
      order. */
  method TopTracks(store: SessionStore, request: Request, limit: int, timeRange: string, now: int,
                   http: TopTracksQuery -> Reply<TracksPage>,
                   refresh: string -> Result<TokenData, SpotifyAPIError>)
    returns (r: Outcome, calls: seq<UpstreamCall>)
    modifies store
    // No usable session: 401, and the provider is not contacted.
    ensures var session := old(store.GetSession(Lookup(request.cookies, SessionCookieName)));
            session.None? || !Truthy(session.value.accessToken) ==>
              r == Raised(HttpError(401, NoSessionDetail)) && calls == [] && store.sessions == old(store.sessions)
    // Otherwise the first call is always the top-tracks query with the stored token.
    ensures var session := old(store.GetSession(Lookup(request.cookies, SessionCookieName)));
            session.Some? && Truthy(session.value.accessToken) ==>
              var token := session.value.accessToken.value;
              var first := GetTopTracks(token, limit, timeRange, http);
              |calls| >= 1 && calls[..1] == TracksCalls(token, limit, timeRange)
              // success on the first try
              && (first.Success? ==>
                    r == Items(Obj([("items", first.value)])) && |calls| == 1
                    && store.sessions == old(store.sessions))
              // a failure other than a 401 with a refresh token at hand is passed on
              && (first.Failure? && !(first.error.statusCode == 401 && Truthy(session.value.refreshToken)) ==>
                    r == Raised(HttpError(first.error.statusCode, first.error.message)) && |calls| == 1
                    && store.sessions == old(store.sessions))
              // a 401 with a refresh token: one refresh, and at most one retry
              && (first.Failure? && first.error.statusCode == 401 && Truthy(session.value.refreshToken) ==>
                    var refreshToken := session.value.refreshToken.value;
                    var refreshed := refresh(refreshToken);
                    |calls| >= 2 && calls[1] == RefreshCall(refreshToken)
                    && (refreshed.Failure? ==>
                          r == Escaped(refreshed.error) && |calls| == 2 && store.sessions == old(store.sessions))
                    && (refreshed.Success? ==>
                          var id := Lookup(request.cookies, SessionCookieName).value;
                          var retryToken := refreshed.value.accessToken.GetOr("");
                          var second := GetTopTracks(retryToken, limit, timeRange, http);
                          store.sessions == old(store.sessions)[id := SessionRecord(refreshed.value, now)]
                          && calls[2..] == TracksCalls(retryToken, limit, timeRange)
                          && r == (if second.Success? then Items(Obj([("items", second.value)]))
                                   else Escaped(second.error))))
    // Every query sent carries the clamped limit and the requested time range.
    ensures |calls| <= 3
    ensures forall i | 0 <= i < |calls| && calls[i].TracksCall? ::
              calls[i].query.limit == ClampLimit(limit) && calls[i].query.timeRange == timeRange
  {
    var sessionId := Lookup(request.cookies, SessionCookieName);
    var session := store.GetSession(sessionId);
    if session.None? || !Truthy(session.value.accessToken) {
      return Raised(HttpError(401, NoSessionDetail)), [];
    }
    var token := session.value.accessToken.value;
    calls := TracksCalls(token, limit, timeRange);
    var first := GetTopTracks(token, limit, timeRange, http);
    if first.Success? {
      return Items(Obj([("items", first.value)])), calls;
    }
    if !(first.error.statusCode == 401 && Truthy(session.value.refreshToken)) {
      return Raised(HttpError(first.error.statusCode, first.error.message)), calls;
    }
    var refreshToken := session.value.refreshToken.value;
    calls := calls + [RefreshCall(refreshToken)];
    var refreshed := refresh(refreshToken);
    if refreshed.Failure? {
      return Escaped(refreshed.error), calls;
    }
    var _ := store.SaveTokens(sessionId.value, refreshed.value, now);
    var retryToken := refreshed.value.accessToken.GetOr("");
    calls := calls + TracksCalls(retryToken, limit, timeRange);
    var second := GetTopTracks(retryToken, limit, timeRange, http);
    r := if second.Success? then Items(Obj([("items", second.value)])) else Escaped(second.error);
  }
}
