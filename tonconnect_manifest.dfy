/** The TON Connect manifest route of the web app
    (apps/web/src/app/tonconnect-manifest.json/route.ts): the manifest's
    URLs are built from the host the request was addressed to, over
    `http` only for localhost, and served with permissive CORS headers. */
module TonConnectManifest {
  import opened Wrappers
  import opened JsStrings

  /** What the route reads from the request: three headers and the host of
      the request URL. */
  datatype ManifestRequest = ManifestRequest(
    xForwardedHost: Option<string>,
    host: Option<string>,
    xForwardedProto: Option<string>,
    urlHost: string)

  datatype Manifest = Manifest(url: string, name: string, iconUrl: string, termsOfUseUrl: string, privacyPolicyUrl: string)

  datatype ManifestResponse = ManifestResponse(body: Manifest, headers: seq<(string, string)>)

  const AppName: string := "TMA Boilerplate"

  const CorsHeaders: seq<(string, string)> := [
    ("Access-Control-Allow-Origin", "*"),
    ("Access-Control-Allow-Methods", "GET, POST, PUT, DELETE, OPTIONS"),
    ("Access-Control-Allow-Headers", "Content-Type, Authorization, X-Requested-With")]

  /** The forwarded host, else the Host header, else the URL's host; empty
      headers count as missing. */
  function EffectiveHost(r: ManifestRequest): (h: string)
    ensures Truthy(r.xForwardedHost).Some? ==> h == r.xForwardedHost.value
    ensures Truthy(r.xForwardedHost).None? && Truthy(r.host).Some? ==> h == r.host.value
    ensures Truthy(r.xForwardedHost).None? && Truthy(r.host).None? ==> h == r.urlHost
  {
    OrElse(r.xForwardedHost, OrElse(r.host, r.urlHost))
  }

  /** `http` exactly for hosts mentioning localhost. */
  function Protocol(host: string): (p: string)
    ensures p == "http" <==> Includes(host, "localhost")
    ensures p == "http" || p == "https"
  {
    if Includes(host, "localhost") then "http" else "https"
  }

  /** `protocol://host` */
  function BaseUrl(r: ManifestRequest): string {
    Protocol(EffectiveHost(r)) + "://" + EffectiveHost(r)
  }

  /** `GET(request)` */
  function Get(r: ManifestRequest): (resp: ManifestResponse)
    ensures resp.body.name == AppName
    ensures resp.headers == CorsHeaders
  {
    var base := BaseUrl(r);
    ManifestResponse(Manifest(base, AppName, base + "/next.svg", base + "/terms.txt", base + "/privacy.txt"), CorsHeaders)
  }

  /** Every link of the manifest is the base URL followed by a fixed path,
      and the base URL is the scheme, `://` and the effective host. */
  lemma ManifestLinks(r: ManifestRequest)
    ensures var m := Get(r).body;
            && m.url == Protocol(EffectiveHost(r)) + "://" + EffectiveHost(r)
            && m.iconUrl == m.url + "/next.svg"
            && m.termsOfUseUrl == m.url + "/terms.txt"
            && m.privacyPolicyUrl == m.url + "/privacy.txt"
  {
  }

  /** The host can be read back from the manifest's URL: it is what follows
      the `://` after `http` or `https`. */
  lemma HostRecoverable(r: ManifestRequest)
    ensures var url := Get(r).body.url;
            var p := Protocol(EffectiveHost(r));
            && StartsWith(url, p + "://")
            && url[|p| + 3..] == EffectiveHost(r)
  {
    var url := Get(r).body.url;
    var p := Protocol(EffectiveHost(r));
    assert url == (p + "://") + EffectiveHost(r);
    assert url[..|p| + 3] == p + "://";
  }

  /** `x-forwarded-proto` is read but has no effect on the response. */
  lemma ForwardedProtoIgnored(r: ManifestRequest, proto: Option<string>)
    ensures Get(r) == Get(r.(xForwardedProto := proto))
  {
  }

  /** The forwarded host takes priority over the Host header, which takes
      priority over the URL. */
  lemma ForwardedHostWins(fwd: string, host: Option<string>, proto: Option<string>, urlHost: string)
    requires fwd != ""
    ensures Get(ManifestRequest(Some(fwd), host, proto, urlHost)) ==
            Get(ManifestRequest(Some(fwd), None, None, ""))
  {
  }

  /** A development server on localhost, whatever its port, is described
      over plain HTTP. */
  lemma LocalDevelopmentIsHttp(port: string)
    ensures Get(ManifestRequest(None, Some("localhost" + port), None, "")).body.url == "http://localhost" + port
  {
    var host := "localhost" + port;
    var r := ManifestRequest(None, Some(host), None, "");
    assert |host| >= 9;
    assert EffectiveHost(r) == host;
    IncludesInfix("", "localhost", port);
    assert "" + "localhost" + port == host;
    assert Protocol(host) == "http";
    assert BaseUrl(r) == "http" + "://" + host;
    assert "http" + "://" + host == "http://localhost" + port;
  }

  /** A host without `localhost` is described over HTTPS, whatever the
      forwarded protocol says. */
  lemma OtherHostsAreHttps(r: ManifestRequest)
    requires !Includes(EffectiveHost(r), "localhost")
    ensures StartsWith(Get(r).body.url, "https://")
  {
    HostRecoverable(r);
  }
}
