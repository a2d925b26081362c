// The IAM server application's configuration defaults (iam/pkg/iamserver/app/app.go,
// resolveConfig): what an empty field becomes before the servers are set up.
module AppConfig {
  import opened Wrappers
  import opened Strings
  import RestServer

  const WebUIFilesDirDefault: string := "resources/iam-webui"
  const EAVResourcesDirDefault: string := "resources/iam-pnv10n-resources"

  datatype WebUIServerConfig = WebUIServerConfig(servePath: string, filesDir: string)

  datatype WebUIURLs = WebUIURLs(signIn: string)

  /** The web UI part of the configuration (iamwebui.ServerConfig). */
  datatype WebUIConfig = WebUIConfig(server: WebUIServerConfig, urls: WebUIURLs)

  /** The fields resolveConfig reads and writes, as one value; None stands for a nil pointer. */
  datatype ConfigValue = ConfigValue(
    httpBasePath: string,
    webUI: Option<WebUIConfig>,
    rest: Option<RestServer.ServerConfig>,
    restCanonicalBaseURL: string,
    eavResourcesDir: string)

  /** The web UI serve path: the configured one, or the HTTP base path when empty, ending in exactly one "/". */
  function WebUIServePath(configured: string, httpBasePath: string): (r: string)
    ensures |r| >= 1 && r[|r| - 1] == '/' && (|r| >= 2 ==> r[|r| - 2] != '/')
  {
    var p := if configured == "" then httpBasePath else configured;
    TrimRight(p, '/') + "/"
  }

  /** The REST serve path when none is configured. */
  function RESTServePathDefault(httpBasePath: string): (r: string)
    ensures HasSuffix(r, "/rest/")
  {
    TrimRight(httpBasePath, '/') + "/rest/"
  }

  /** The web UI part after resolveConfig: created when nil, then its serve path, files directory and sign-in URL. */
  function ResolveWebUI(webUI: Option<WebUIConfig>, httpBasePath: string): (r: WebUIConfig)
  {
    var w := if webUI.Some? then webUI.value else WebUIConfig(WebUIServerConfig("", ""), WebUIURLs(""));
    var servePath := WebUIServePath(w.server.servePath, httpBasePath);
    var filesDir := if w.server.filesDir == "" then WebUIFilesDirDefault else w.server.filesDir;
    var signIn := if w.urls.signIn == "" then servePath + "signin" else w.urls.signIn;
    WebUIConfig(WebUIServerConfig(servePath, filesDir), WebUIURLs(signIn))
  }

  /** The REST part after resolveConfig: created when nil, then its serve path. */
  function ResolveREST(rest: Option<RestServer.ServerConfig>, httpBasePath: string): (r: RestServer.ServerConfig)
  {
    var s := if rest.Some? then rest.value else RestServer.ServerConfig(0, "", "", None);
    s.(servePath := if s.servePath == "" then RESTServePathDefault(httpBasePath) else s.servePath)
  }

  /** What resolveConfig makes of a configuration. */
  function Resolve(c: ConfigValue): (r: ConfigValue)
  {
    var rest := ResolveREST(c.rest, c.httpBasePath);
    ConfigValue(
      c.httpBasePath,
      Some(ResolveWebUI(c.webUI, c.httpBasePath)),
      Some(rest),
      if c.restCanonicalBaseURL == "" then rest.servePath + RestServer.ServerLatestVersionString + "/" else c.restCanonicalBaseURL,
      if c.eavResourcesDir == "" then EAVResourcesDirDefault else c.eavResourcesDir)
  }

  /** The application configuration (Config), which resolveConfig updates in place. */
  class Config {
    var httpBasePath: string
    var webUI: Option<WebUIConfig>
    var rest: Option<RestServer.ServerConfig>
    var restCanonicalBaseURL: string
    var eavResourcesDir: string

    function Value(): ConfigValue
      reads this
    {
      ConfigValue(httpBasePath, webUI, rest, restCanonicalBaseURL, eavResourcesDir)
    }

    constructor(c: ConfigValue)
      ensures Value() == c
    {
      httpBasePath := c.httpBasePath;
      webUI := c.webUI;
      rest := c.rest;
      restCanonicalBaseURL := c.restCanonicalBaseURL;
      eavResourcesDir := c.eavResourcesDir;
    }

    /** resolveConfig: the web UI block, the REST block, then the email verification resources. */
    method ResolveConfig()
      modifies this
      ensures Value() == Resolve(old(Value()))
    {
      ResolveWebUIConfig();
      ResolveRESTConfig();
      if eavResourcesDir == "" {
        eavResourcesDir := EAVResourcesDirDefault;
      }
    }

    /** The web UI block of resolveConfig. */
    method ResolveWebUIConfig()
      modifies this
      ensures webUI == Some(ResolveWebUI(old(webUI), httpBasePath))
      ensures httpBasePath == old(httpBasePath) && rest == old(rest)
      ensures restCanonicalBaseURL == old(restCanonicalBaseURL) && eavResourcesDir == old(eavResourcesDir)
    {
      var w: WebUIConfig;
      if webUI.None? {
        w := WebUIConfig(WebUIServerConfig("", ""), WebUIURLs(""));
      } else {
        w := webUI.value;
      }
      if w.server.servePath == "" {
        w := w.(server := w.server.(servePath := httpBasePath));
      }
      w := w.(server := w.server.(servePath := TrimRight(w.server.servePath, '/') + "/"));
      if w.server.filesDir == "" {
        w := w.(server := w.server.(filesDir := WebUIFilesDirDefault));
      }
      if w.urls.signIn == "" {
        w := w.(urls := WebUIURLs(w.server.servePath + "signin"));
      }
      webUI := Some(w);
    }

    /** The REST block of resolveConfig: the serve path, then the canonical base URL. */
    method ResolveRESTConfig()
      modifies this
      ensures rest == Some(ResolveREST(old(rest), httpBasePath))
      ensures restCanonicalBaseURL ==
        if old(restCanonicalBaseURL) == "" then rest.value.servePath + RestServer.ServerLatestVersionString + "/" else old(restCanonicalBaseURL)
      ensures httpBasePath == old(httpBasePath) && webUI == old(webUI) && eavResourcesDir == old(eavResourcesDir)
    {
      var rs: RestServer.ServerConfig;
      if rest.None? {
        rs := RestServer.ServerConfig(0, "", "", None);
      } else {
        rs := rest.value;
      }
      if rs.servePath == "" {
        rs := rs.(servePath := TrimRight(httpBasePath, '/') + "/rest/");
      }
      rest := Some(rs);
      if restCanonicalBaseURL == "" {
        restCanonicalBaseURL := rs.servePath + RestServer.ServerLatestVersionString + "/";
      }
    }
  }

  /** A configured non-empty field is kept, and every defaulted field is non-empty; only the web UI serve path is rewritten. */
  lemma ResolveKeepsConfigured(c: ConfigValue)
    ensures var r := Resolve(c);
      r.httpBasePath == c.httpBasePath &&
      r.webUI.Some? && r.rest.Some? &&
      r.webUI.value.server.filesDir != "" && r.webUI.value.urls.signIn != "" &&
      r.rest.value.servePath != "" && r.restCanonicalBaseURL != "" && r.eavResourcesDir != "" &&
      (c.webUI.Some? && c.webUI.value.server.filesDir != "" ==> r.webUI.value.server.filesDir == c.webUI.value.server.filesDir) &&
      (c.webUI.Some? && c.webUI.value.urls.signIn != "" ==> r.webUI.value.urls.signIn == c.webUI.value.urls.signIn) &&
      (c.rest.Some? && c.rest.value.servePath != "" ==> r.rest.value == c.rest.value) &&
      (c.rest.Some? ==> r.rest.value.v1 == c.rest.value.v1 && r.rest.value.servePort == c.rest.value.servePort) &&
      (c.restCanonicalBaseURL != "" ==> r.restCanonicalBaseURL == c.restCanonicalBaseURL) &&
      (c.eavResourcesDir != "" ==> r.eavResourcesDir == c.eavResourcesDir)
  {
  }

  /** Trailing slashes of the web UI serve path are replaced by one; one without a trailing slash gains one. */
  lemma WebUIServePathNormalized(configured: string, httpBasePath: string)
    ensures var p := if configured == "" then httpBasePath else configured;
      WebUIServePath(configured, httpBasePath) == TrimRight(p, '/') + "/" &&
      (p == [] || p[|p| - 1] != '/' ==> WebUIServePath(configured, httpBasePath) == p + "/")
  {
  }

  /** A path that already ends in exactly one "/" is its own resolved serve path. */
  lemma {:induction false} WebUIServePathFixed(p: string, httpBasePath: string)
    requires |p| >= 1 && p[|p| - 1] == '/' && (|p| >= 2 ==> p[|p| - 2] != '/')
    ensures WebUIServePath(p, httpBasePath) == p
  {
    var front := p[..|p| - 1];
    assert TrimRight(p, '/') == TrimRight(front, '/');
    assert TrimRight(front, '/') == front;
    assert front + "/" == p;
  }

  /** Resolving twice gives what resolving once gave. */
  lemma ResolveIdempotent(c: ConfigValue)
    ensures Resolve(Resolve(c)) == Resolve(c)
  {
    var r := Resolve(c);
    ResolveKeepsConfigured(c);
    WebUIServePathFixed(r.webUI.value.server.servePath, r.httpBasePath);
  }

  /**
   * With the REST paths left to their defaults, the canonical REST URL is the version 1
   * serve path the REST server derives from the normalized serve path, with a trailing "/".
   */
  lemma CanonicalURLIsV1Path(c: ConfigValue)
    requires c.rest.None? || (c.rest.value.servePath == "" && c.rest.value.v1.None?)
    requires c.restCanonicalBaseURL == ""
    ensures var rest := Resolve(c).rest.value.Normalized();
      Resolve(c).restCanonicalBaseURL == RestServer.V1ServePath(rest, rest.servePath) + "/"
  {
    var p := Resolve(c).rest.value.servePath;
    var n := Resolve(c).rest.value.Normalized().servePath;
    assert n + "/" == p;
    assert p + "v1" + "/" == n + "/" + "v1" + "/";
  }
}
