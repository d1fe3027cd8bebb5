# Spotify stats backend: the OAuth relay and session logic

The backend lets a browser log in with Spotify through the OAuth 2.0
authorization-code flow (section 4.1 of RFC 6749), keeps the tokens it
obtains in an in-process session store keyed by a cookie, and serves the
user's top tracks, refreshing the access token once when Spotify rejects it.

This project models that logic in Dafny and proves what each step promises.
It does not model the transport or the web framework. The modules follow the
backend's files:

- `Auth` (`auth.dfy`) models `backend/app/auth.py`.
  - Pure parts:
    - the state codec (`EncodeState`, `DecodeState`);
    - the callback guards (`CheckCallback`);
    - the choice of session id;
    - the frontend redirect target.
  - Imperative parts: `Login`, `Callback` and `Logout` build a
    `RedirectResponse` object and add cookies to it one at a time. `Callback`
    also writes the session store.
- `Sessions` (`sessions.dfy`) models `backend/app/sessions.py`.
  - `SessionStore` is a class whose `sessions` map is the module-level
    `_SESSIONS` dictionary.
  - `SaveTokens` changes that map in place.
  - `SessionRecord` and `SessionCookieKwargs` are pure.
- `SpotifyApi` (`spotify_api.dfy`) models `backend/app/spotify_api.py`.
  - Each call is split in two: the request it would send (or the error it
    raises before sending anything), then the reading of the reply.
  - The transport is a function parameter (`post`, `get`).
  - A reply is either `Unreachable` (an `httpx.RequestError`) or a
    `Response` with a status.
- `App` (`app.dfy`) models the `/me/top-tracks` route of `backend/app/main.py`.
  - It is a method over the session store.
  - It returns the list of provider calls it made, so the contract can state
    how many refreshes and retries happen.
- Supporting modules model the library behaviour the state codec relies on:
  - `Utf8`: strict UTF-8.
  - `Base64Url`: URL-safe Base64 with padding, as in section 5 of RFC 4648.
  - `Json`: all of `json.loads`, and `json.dumps` of a one-member object.
  - `Config`: the constants of `backend/app/config.py`.
  - `Common`: `Option`, `Result`, Python truthiness, `dict.get`.

Randomness and the clock are parameters:
- `Login` takes the nonce that `secrets.token_urlsafe(16)` would draw.
- `Callback` takes the id that `new_session_id()` would draw.
- `SaveTokens` takes `now`.
- The route methods take the transports.

`refresh_access_token` is not defined in the backend's client module, so
`TopTracks` takes it as a function parameter `refresh`. The same applies to
`require_config`, `FRONTEND_BASE_URL` and `IS_PROD`, which the routes import
but `backend/app/config.py` does not define:
- `Login` takes the configuration error as an optional message;
- the other two are fields of `Config.Settings`.

Facts about the code that shape the model:
- **Redirect status.** Every redirect is a Starlette `RedirectResponse` with its
  default status, 307.
- **Errors after a refresh.** When the refresh or the retry in `top_tracks`
  fails, its `SpotifyAPIError` is not caught. It leaves the route as an
  exception (`App.Outcome.Escaped`), and its status is not passed on verbatim.
- **The state holds only the nonce.** `_encode_state` writes the object
  `{"nonce": ...}` and nothing else.
- **The latest refresh token is stored.** `save_tokens` stores the refresh
  token of the latest token reply as it is. A refresh reply without one leaves
  the session without a refresh token.

## Model

| member | source | states |
|---|---|---|
| Utf8.EncodeChar | backend/app/auth.py:32 | a character takes 1 to 4 bytes, and exactly 1 iff it is ASCII |
| Utf8.Encode | backend/app/auth.py:32 | a string's UTF-8 encoding has at least one byte per character |
| Utf8.Decode | backend/app/auth.py:38 | strict decoding yields at most one character per byte |
| Utf8.DecodeChar | backend/app/auth.py:38 | a decoded character consumes between 1 and 4 bytes of the input |
| Utf8.DecodeEncodeChar | backend/app/auth.py:32-38 | decoding a character's encoding gives the character back and consumes exactly its bytes, whatever follows |
| Utf8.EncodeDecodeChar | backend/app/auth.py:38 | every byte sequence the decoder accepts at the head is the shortest encoding of the character it yields |
| Utf8.DecodeEncode | backend/app/auth.py:32-38 | decoding the UTF-8 encoding of any string gives the string back |
| Utf8.EncodeDecode | backend/app/auth.py:38 | whatever decodes re-encodes to the same bytes, so the strict decoder is injective |
| Base64Url.ValueOf | backend/app/auth.py:37 | a character has a 6-bit value iff it is in the URL-safe alphabet, and that value's character is the same character |
| Base64Url.Encode | backend/app/auth.py:33 | the output holds only alphabet characters and padding, and non-empty input gives at least one quad |
| Base64Url.EncodeLength | backend/app/auth.py:33 | every three bytes, and a last one or two, take four characters |
| Base64Url.Decode | backend/app/auth.py:37 | text that decodes holds only alphabet characters and padding |
| Base64Url.DecodeLength | backend/app/auth.py:37 | only whole quads decode, each to at most three bytes |
| Base64Url.DecodeEncodeGroup | backend/app/auth.py:33-37 | three bytes survive the trip through four characters |
| Base64Url.DecodeEncodeTail | backend/app/auth.py:33-37 | a last one or two bytes survive the trip through a padded quad |
| Base64Url.DecodeEncode | backend/app/auth.py:33-37 | decoding the encoding of any byte string gives it back |
| Json.SkipWs | backend/app/auth.py:38 | the position returned is the first non-whitespace at or after the start |
| Json.Loads | backend/app/auth.py:38 | text that parses holds a non-whitespace character; `LoadsEmpty`, `LoadsInteger` and `LoadsDumpsMember` state what it accepts |
| Json.ParseNumber | backend/app/auth.py:38 | a number is kept as the text that spelled it, and an integer literal of more than 4300 digits, which `int` refuses, is not read |
| Json.LoadsInteger | backend/app/auth.py:38-40 | all-digit text without a leading zero reads as that integer iff it has at most 4300 digits; longer text fails, so such a state is rejected |
| Json.LoadsEmpty | backend/app/auth.py:38-40 | a blank payload is not JSON, so such a state is rejected |
| Json.DumpsMember | backend/app/auth.py:32 | the compact one-member object is the key and value plus seven delimiter characters |
| Json.LoadsDumpsMember | backend/app/auth.py:32-38 | parsing the compact dump of a one-member object with a plain string value gives that object back |
| Auth.EncodeState | backend/app/auth.py:30-33 | the state is non-empty text over the Base64 alphabet and padding |
| Auth.DecodeState | backend/app/auth.py:35-40 | only text over the URL-safe Base64 alphabet and padding can decode; the `None` it gives for any failed stage is what `CheckCallback` reports as 400 "Invalid state payload" |
| Auth.StateRoundTrip | backend/app/auth.py:30-38 | decoding any state the login route issues yields the object whose only key is `nonce`, bound to the drawn nonce |
| Auth.LoginParams | backend/app/auth.py:49-60 | the parameter names are distinct; they carry `response_type=code`, the client id, the redirect URI, the scope, the given state, and `show_dialog=true` exactly when a forced login is asked for; there are exactly these five or six parameters |
| Auth.Login | backend/app/auth.py:42-70 | a configuration error becomes 500 with its message; otherwise a 307 to the authorize endpoint whose `state` parameter equals the value of the one state cookie set (max age 600, http-only, secure as configured, lax) |
| Auth.RedirectResponse.constructor | backend/app/auth.py:61 | a new redirect has the given location, status 307 and no cookies |
| Auth.RedirectResponse.SetCookie | backend/app/auth.py:62-69 | appends one set-cookie header and changes nothing else |
| Auth.RedirectResponse.DeleteCookie | backend/app/auth.py:105 | appends one expiring header for the name and changes nothing else |
| Auth.CheckCallback | backend/app/auth.py:79-88 | guards in source order: a provider error; then a missing code; then an absent state cookie or a state that differs from it; then an undecodable state, which gives "Invalid state payload". Each gives 400 with its own detail. It succeeds, yielding the code, iff all pass |
| Auth.IssuedStatePasses | backend/app/auth.py:84-88 | a callback returning the issued state, next to the cookie the login route set, with a code and no error, passes every guard |
| Auth.SessionIdFor | backend/app/auth.py:95 | a non-empty session cookie is reused; otherwise the fresh id is used |
| Auth.StripSlashes | backend/app/auth.py:98 | the result is a prefix of the input that does not end in "/", and everything removed is "/" |
| Auth.RedirectTarget | backend/app/auth.py:98-101 | the target is "/" when nothing is left after stripping. Otherwise it is the stripped URL if that starts with "http" or "/", else "/" plus it. It never ends in "/" unless it is "/" |
| Auth.RedirectTargetIdempotent | backend/app/auth.py:98-101 | normalising a normalised target changes nothing |
| Auth.Callback | backend/app/auth.py:72-107 | a guard failure returns its error with no token request and no store change. An exchange failure returns its status and message with the store unchanged. Success saves the tokens under the chosen id only, redirects (307) to the target plus "?login=success", expires the state cookie, then sets that same id as the session cookie |
| Auth.Logout | backend/app/auth.py:110-115 | a 307 to "/" that expires the session cookie, then the state cookie |
| Sessions.SessionRecord | backend/app/sessions.py:26-33 | the record keeps both tokens of the reply and no earlier refresh token; it has an expiry iff `expires_in` is present and non-zero, and then the expiry is `now + expires_in` |
| Sessions.SessionCookieKwargs | backend/app/sessions.py:37-46 | max age 21600, http-only, lax, and secure iff production or an https request |
| Sessions.SessionStore.constructor | backend/app/sessions.py:16 | the store starts empty |
| Sessions.SessionStore.GetSession | backend/app/sessions.py:21-24 | a missing or empty id gives nothing; otherwise the stored record, or nothing for an unknown id |
| Sessions.SessionStore.SaveTokens | backend/app/sessions.py:26-35 | replaces the whole entry under the id with the returned record, after which `GetSession` yields that record. Every other id reads as before |
| SpotifyApi.RequireCredentials | backend/app/spotify_api.py:18-20 | passes iff both client id and secret are non-empty, else 500 "Spotify credentials are not configured" |
| SpotifyApi.TokenRequestFor | backend/app/spotify_api.py:23-39 | fails iff the credentials are missing; otherwise a POST to the token URL with a 10-second timeout, authenticated with the configured id and secret |
| SpotifyApi.TokenOutcome | backend/app/spotify_api.py:40-47 | success iff status 200, yielding the body. No response gives 502 with the "unreachable" prefix. Any other status passes through with the "Token exchange failed: " prefix |
| SpotifyApi.ExchangeCodeForToken | backend/app/spotify_api.py:23-47 | without credentials it fails with 500; success means the posted request got a 200 and yields its body |
| SpotifyApi.ExchangeNeedsCredentials | backend/app/spotify_api.py:18-24 | without credentials the result is 500 whatever the transport would answer, so no request is made |
| SpotifyApi.ExchangeForm | backend/app/spotify_api.py:26-30 | the form has exactly three fields: `grant_type=authorization_code`, the code and the redirect URI |
| SpotifyApi.ExchangeErrorStatus | backend/app/spotify_api.py:40-45 | every exchange failure after sending carries the upstream status, or 502 when there was no response |
| SpotifyApi.ClampLimit | backend/app/spotify_api.py:54 | the limit sent is always in [1, 50], a limit already in range is unchanged, and one outside is moved to the nearer bound |
| SpotifyApi.ClampIdempotent | backend/app/spotify_api.py:54 | clamping a clamped limit changes nothing |
| SpotifyApi.TopTracksQueryFor | backend/app/spotify_api.py:50-64 | fails with 401 iff the token is empty; otherwise the query carries the clamped limit, the time range and a bearer header with the token |
| SpotifyApi.TopTracksOutcome | backend/app/spotify_api.py:65-73 | success iff status 200, yielding `items` or an empty array when absent. No response gives 502. Any other status passes through with the "Failed to fetch top tracks: " prefix |
| SpotifyApi.GetTopTracks | backend/app/spotify_api.py:50-73 | an empty token fails with 401; success means the sent query got a 200 and yields its items |
| SpotifyApi.EmptyTokenSendsNothing | backend/app/spotify_api.py:51-52 | with an empty token the result is 401 whatever the transport would answer, so no request is made |
| SpotifyApi.TopTracksErrorStatus | backend/app/spotify_api.py:65-70 | every top-tracks failure after sending carries the upstream status, or 502 when there was no response |
| App.TracksCalls | backend/app/main.py:20-33 | a top-tracks call is made iff the token is non-empty, and it carries the clamped limit, the time range and the token |
| App.TopTracks | backend/app/main.py:12-37 | no usable session: 401 and no provider call; first call succeeds: `{"items": items}` and no refresh; any other failure, including a 401 without a refresh token: raised with its status and message; a 401 with a refresh token: exactly one refresh, the refreshed tokens saved under the same id, at most one retry with the new token, and a failure of either escapes; never more than three calls, each query with the clamped limit and the requested time range |

## Left out

- HTTP transport, FastAPI routing and cookie parsing:
  - the transports are function parameters;
  - requests are records of their cookies and scheme;
  - responses are records of their location, status and cookie headers.
- Randomness (`secrets.token_urlsafe`) and the clock (`time.time()`) are
  parameters. Times are whole seconds, not floats.
- Auth.Login, Auth.LoginParams: the authorize URL is kept as its endpoint and
  parameter list. Percent-encoding by `urlencode` is not modelled.
- Auth.DecodeState: it uses a strict Base64 decoder.
  - Python's `urlsafe_b64decode` maps `-` and `_` to `+` and `/` and then
    decodes leniently: `+` and `/` are read as 62 and 63 (`"++++"` gives three
    bytes), other characters outside the alphabet are skipped, decoding stops
    at the first complete padding (`"QQ==QUJD"` gives `b"A"`), and padding
    alone (`"===="`) gives no bytes.
  - The model rejects all of these, so it rejects some text that Python
    accepts.
  - The round trip is proved for the states the encoder produces.
- Json.Loads: the recursion limit of `json.loads` is not modelled. Its
  4300-digit limit on integer literals is.
  - It covers the JSON grammar, the constants `NaN`, `Infinity` and
    `-Infinity`, and `\u` escapes.
  - A lone surrogate escape is read as U+FFFD rather than as a lone surrogate
    code point, which Dafny strings cannot hold.
  - Numbers are kept as their text.
- Json.DumpsMember: only a one-member object with a string value is written,
  and only for keys and values that `json.dumps` leaves unescaped. That is all
  the state codec writes, since nonces are URL-safe Base64 text.
- SpotifyApi.TokenOutcome, SpotifyApi.TopTracksOutcome: the error detail
  comes with the reply as text.
  - Reading `error_description` or `error.message` from a JSON error body,
    or the raw text otherwise, is not modelled.
  - A body that fails to parse as JSON is not modelled either.
- SpotifyApi.TokenData: `expiresIn` is an integer. `int(expires_in)` in
  `save_tokens` (`backend/app/sessions.py:28`) truncates a float and raises
  `ValueError` on a non-numeric string; neither is modelled.
- SpotifyApi.TokenData: a token reply without an `access_token` key and one
  whose value is null are both `None`.
  - `top_tracks` indexes `refreshed["access_token"]`, so in Python a missing
    key raises `KeyError`.
  - The model retries with an empty token instead, which fails with 401.
- Cookie attributes other than max age, http-only, secure and same-site are
  not modelled (path, domain, expiry date).
- Concurrent requests sharing `_SESSIONS`.
- Everything outside the OAuth relay:
  - the HTML home page and `/service`;
  - the frontend;
  - loading of the environment in `backend/app/config.py`;
  - the internals of `refresh_access_token`, which the shown client module
    does not define;
  - any reshaping of tracks (the route returns the upstream `items` as they
    are).
