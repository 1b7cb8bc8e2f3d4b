/**
 * The client's server addresses (client/src/config/api.js). The build-time
 * environment `import.meta.env` and `window.location.origin` are parameters;
 * an environment variable that is missing or empty is falsy in JavaScript
 * and is skipped.
 */
module ApiConfig {
  import opened Common
  import opened JsString

  /** The parts of `import.meta.env` the two functions read. */
  datatype Env = Env(viteApiUrl: Option<string>, viteWsUrl: Option<string>, mode: string, dev: bool)

  const DevApiUrl: string := "http://localhost:3001"
  const DevWsUrl: string := "ws://localhost:3001"

  /** `import.meta.env.MODE === 'development' || import.meta.env.DEV` */
  predicate Development(env: Env)
    ensures env.mode == "development" ==> Development(env)
    ensures env.dev ==> Development(env)
    ensures Development(env) ==> env.mode == "development" || env.dev
  {
    env.mode == "development" || env.dev
  }

  /** `getApiUrl()` */
  function GetApiUrl(env: Env, origin: string): (r: string)
    ensures Truthy(env.viteApiUrl) ==> r == env.viteApiUrl.value
    ensures !Truthy(env.viteApiUrl) && Development(env) ==> r == DevApiUrl
    ensures !Truthy(env.viteApiUrl) && !Development(env) ==> r == origin
  {
    if Truthy(env.viteApiUrl) then env.viteApiUrl.value
    else if Development(env) then DevApiUrl
    else origin
  }

  /**
   * The production fallback of `getWebSocketUrl()`: the API address with its
   * `https://` or `http://` scheme rewritten to `wss://` or `ws://`, or with
   * `wss://` put in front when it has neither.
   */
  function WebSocketFromApi(apiUrl: string): (r: string)
    ensures StartsWith(apiUrl, "https://") ==> r == "wss://" + apiUrl[8..]
    ensures !StartsWith(apiUrl, "https://") && StartsWith(apiUrl, "http://") ==> r == "ws://" + apiUrl[7..]
    ensures !StartsWith(apiUrl, "https://") && !StartsWith(apiUrl, "http://") ==> r == "wss://" + apiUrl
  {
    if StartsWith(apiUrl, "https://") then ReplaceFirst(apiUrl, "https://", "wss://")
    else if StartsWith(apiUrl, "http://") then ReplaceFirst(apiUrl, "http://", "ws://")
    else "wss://" + apiUrl
  }

  /** `getWebSocketUrl()` */
  function GetWebSocketUrl(env: Env, origin: string): (r: string)
    ensures Truthy(env.viteWsUrl) ==> r == env.viteWsUrl.value
    ensures !Truthy(env.viteWsUrl) && Development(env) ==> r == DevWsUrl
    ensures !Truthy(env.viteWsUrl) && !Development(env) ==> r == WebSocketFromApi(GetApiUrl(env, origin))
  {
    if Truthy(env.viteWsUrl) then env.viteWsUrl.value
    else if Development(env) then DevWsUrl
    else WebSocketFromApi(GetApiUrl(env, origin))
  }

  /** Without `VITE_WS_URL`, the address always has a WebSocket scheme. */
  lemma WebSocketSchemeWithoutOverride(env: Env, origin: string)
    requires !Truthy(env.viteWsUrl)
    ensures var r := GetWebSocketUrl(env, origin);
            StartsWith(r, "ws://") || StartsWith(r, "wss://")
  {
    var r := GetWebSocketUrl(env, origin);
    if !Development(env) {
      var api := GetApiUrl(env, origin);
      if StartsWith(api, "https://") {
        assert r[..6] == "wss://";
      } else if StartsWith(api, "http://") {
        assert r[..5] == "ws://";
      } else {
        assert r[..6] == "wss://";
      }
    }
  }

  /**
   * The rewrite keeps everything after the scheme, so an `http(s)://` API
   * address can be recovered from the WebSocket address derived from it.
   */
  lemma SchemeRewriteInvertible(apiUrl: string)
    requires StartsWith(apiUrl, "http://") || StartsWith(apiUrl, "https://")
    ensures var r := WebSocketFromApi(apiUrl);
            (if StartsWith(r, "wss://") then "https://" + r[6..] else "http://" + r[5..]) == apiUrl
  {
    var r := WebSocketFromApi(apiUrl);
    if StartsWith(apiUrl, "https://") {
      assert r[..6] == "wss://";
      assert apiUrl == apiUrl[..8] + apiUrl[8..];
    } else {
      assert r[..5] == "ws://";
      assert r[2] == ':';
      assert apiUrl == apiUrl[..7] + apiUrl[7..];
    }
  }

  /**
   * In development mode the WebSocket address is the local server whatever
   * `VITE_API_URL` says: only `VITE_WS_URL` overrides it.
   */
  lemma DevelopmentIgnoresApiUrl(env: Env, origin: string, apiUrl: Option<string>)
    requires Development(env) && !Truthy(env.viteWsUrl)
    ensures GetWebSocketUrl(env.(viteApiUrl := apiUrl), origin) == DevWsUrl
  {
  }
}
