/** The deployment settings the backend reads from its environment, and its
    fixed provider endpoints. */
module Config {
  import opened Common

  const SpotifyAuthUrl: string := "https://accounts.spotify.com/authorize"
  const SpotifyTokenUrl: string := "https://accounts.spotify.com/api/token"
  const SpotifyApiBaseUrl: string := "https://api.spotify.com/v1"
  const SpotifyScopes: seq<string> := ["user-top-read"]

  /** The values taken from the environment. `frontendBaseUrl` and
      `isProd` stand for the `FRONTEND_BASE_URL` and `IS_PROD` settings that
      the routes import. */
  datatype Settings = Settings(
    clientId: Option<string>,
    clientSecret: Option<string>,
    redirectUri: string,
    frontendBaseUrl: string,
    isProd: bool)
}
