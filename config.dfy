/**
 * Configuration constants the core reads.
 *
 * GRAASP_HOST, GRAASP_FILES_HOST, SUPPORTED_FORMATS, PENDING_STATUS and
 * EXPORT_TOPIC carry the values src/config.js gives them. The other names are
 * imported by the core from a configuration module whose values are not part of
 * this model; the strings below stand for them, and no proof depends on them
 * except that the three authentication types are distinct.
 */
module Config {

  const GRAASP_HOST := "https://graasp.eu"
  const GRAASP_FILES_HOST := "http://localhost:3000"
  const SUPPORTED_FORMATS: seq<string> := ["pdf", "png", "epub"]
  const PENDING_STATUS := "pending"
  const EXPORT_TOPIC := "export"

  // values supplied by the deployment's configuration
  const S3_HOST := "https://s3.example"
  const TMP_FOLDER := "./tmp"
  const COVER_PATH := "./tmp/cover.png"
  const COVER_DEFAULT_PATH := "./cover-default.png"
  const DONE_STATUS := "done"
  const DEFAULT_NETWORK_PRESET := "none"
  const AUTH_TYPE_HOST := "https://graasp.eu/login-type"
  const AUTH_TYPE_ANONYMOUS := "anonymous"
  const AUTH_TYPE_USERNAME := "username"
  const AUTH_TYPE_PASSWORD := "password"
  const CORS_HEADERS: map<string, string> := map["Access-Control-Allow-Origin" := "*"]

  /** Waits the scrape and iframe inlining perform, in milliseconds. */
  const SETTLE_AFTER_LOGIN_MS := 5000
  const IFRAME_RELOAD_MS := 4000
}
