/** Client construction: the effective proxy, the default headers, the timeout
    and the browser profile whose user agent the client presents.  Both
    clients share these rules.
 */
module Client {
  import opened Outcomes
  import opened Strings
  import opened Utils

  /** The browser families the profiles impersonate. */
  datatype Browser = Chrome | Safari | Edge | Firefox

  /** A browser profile: its family and the version part of its name. */
  datatype Profile = Profile(browser: Browser, version: string)

  function BrowserPrefix(b: Browser): string {
    match b
    case Chrome => "chrome_"
    case Safari => "safari_"
    case Edge => "edge_"
    case Firefox => "firefox_"
  }

  /** The profile's name, as in "chrome_131" or "safari_ios_17.2". */
  function ProfileName(p: Profile): string {
    BrowserPrefix(p.browser) + p.version
  }

  /** The profiles one of which is chosen at random for each client. */
  const Impersonates: seq<Profile> :=
    Family(Chrome, ChromeVersions) + Family(Safari, SafariVersions)
    + Family(Edge, EdgeVersions) + Family(Firefox, FirefoxVersions)

  /** The profiles of one browser family, one per version, in order. */
  function Family(b: Browser, versions: seq<string>): (r: seq<Profile>)
    ensures |r| == |versions|
    ensures forall i :: 0 <= i < |r| ==> r[i] == Profile(b, versions[i])
  {
    if versions == [] then [] else [Profile(b, versions[0])] + Family(b, versions[1..])
  }

  const ChromeVersions: seq<string> := [
    "100", "101", "104", "105", "106", "107", "108", "109", "114", "116", "117", "118",
    "119", "120", "123", "124", "126", "127", "128", "129", "130", "131", "133"]
  const SafariVersions: seq<string> := [
    "ios_16.5", "ios_17.2", "ios_17.4.1", "ios_18.1.1",
    "15.3", "15.5", "15.6.1", "16", "16.5", "17.0", "17.2.1", "17.4.1", "17.5", "18", "18.2",
    "ipad_18"]
  const EdgeVersions: seq<string> := ["101", "122", "127", "131"]
  const FirefoxVersions: seq<string> := ["109", "117", "128", "133", "135"]

  const ChromeAgent: string := "Mozilla/5.0 (Windows NT 10.0; Win64; x64) AppleWebKit/537.36 (KHTML, like Gecko) Chrome/100.0.4896.127 Safari/537.36"
  const SafariAgent: string := "Mozilla/5.0 (Macintosh; Intel Mac OS X 10_15_7) AppleWebKit/605.1.15 (KHTML, like Gecko) Version/15.0 Safari/605.1.15"

  const Referer: string := "https://duckduckgo.com/"
  const DefaultTimeout: int := 10

  /** The longest timeout, in whole seconds, `HttpClient` accepts: its limit
      is 2^31 - 1 milliseconds. */
  const MaxTimeoutSeconds: int := 2147483

  /** The timeout the constructor settles on: the argument, or 10 seconds. */
  function ChosenTimeout(timeout: Option<int>): (r: int)
    ensures timeout.Some? ==> r == timeout.value
    ensures timeout.None? ==> r == DefaultTimeout && TimeoutInRange(r)
  {
    timeout.GetOr(DefaultTimeout)
  }

  /** A timeout `HttpClient` takes: positive and at most 2^31 - 1 milliseconds. */
  predicate TimeoutInRange(seconds: int) {
    0 < seconds && seconds * 1000 <= 0x7FFF_FFFF
  }

  /** The settings a constructed client holds. */
  datatype Config = Config(
    proxy: Option<string>,
    timeout: int,
    verify: bool,
    headers: map<string, string>,
    userAgent: string)

  /** `GetUserAgent`: Safari profiles present the Safari agent, every other
      profile (Chrome, Edge, Firefox) the Chrome agent. */
  function GetUserAgent(profile: string): (r: string)
    ensures r == SafariAgent <==> StartsWith(profile, "safari_")
    ensures r == ChromeAgent <==> !StartsWith(profile, "safari_")
  {
    if StartsWith(profile, "chrome_") then ChromeAgent
    else if StartsWith(profile, "safari_") then SafariAgent
    else ChromeAgent
  }

  /** A profile's name carries the "safari_" prefix exactly when the profile
      is a Safari one. */
  lemma SafariPrefixIff(p: Profile)
    ensures StartsWith(ProfileName(p), "safari_") <==> p.browser == Safari
  {
    var name := ProfileName(p);
    assert name[..|BrowserPrefix(p.browser)|] == BrowserPrefix(p.browser);
    if p.browser != Safari && |name| >= 7 {
      assert name[..7][0] == name[0] == BrowserPrefix(p.browser)[0];
    }
  }

  /** Over the profile catalogue: the 16 Safari profiles present the Safari
      agent and the 23 Chrome, 4 Edge and 5 Firefox profiles the Chrome agent. */
  lemma ProfileAgents()
    ensures |Impersonates| == 48
    ensures forall p :: p in Impersonates ==>
      GetUserAgent(ProfileName(p)) == (if p.browser == Safari then SafariAgent else ChromeAgent)
  {
    forall p | p in Impersonates
      ensures GetUserAgent(ProfileName(p)) == (if p.browser == Safari then SafariAgent else ChromeAgent)
    {
      SafariPrefixIff(p);
    }
  }

  /** The proxy the constructor settles on before validating it: the
      `DDGS_PROXY` environment variable when set, otherwise the `proxy`
      argument with the "tb" alias expanded; the deprecated `proxies`
      argument replaces either when `proxy` is null or empty. */
  function ChosenProxy(env: Option<string>, proxy: Option<string>, proxies: Option<string>): (r: Option<string>)
    ensures IsNullOrEmpty(proxy) && !IsNullOrEmpty(proxies) ==> r == proxies
    ensures !(IsNullOrEmpty(proxy) && !IsNullOrEmpty(proxies)) && env.Some? ==> r == env
    ensures !(IsNullOrEmpty(proxy) && !IsNullOrEmpty(proxies)) && env.None? ==> r == ExpandProxyTbAlias(proxy)
  {
    var first := if env.Some? then env else ExpandProxyTbAlias(proxy);
    if IsNullOrEmpty(proxy) && !IsNullOrEmpty(proxies) then proxies else first
  }

  /** The constructor's proxy rule: the chosen proxy is kept unless it is
      present without a "://" scheme separator, which is an argument error. */
  function EffectiveProxy(env: Option<string>, proxy: Option<string>, proxies: Option<string>): (r: Result<Option<string>>)
    ensures r.Ok? ==> r.value == ChosenProxy(env, proxy, proxies)
    ensures r.Ok? && r.value.Some? ==> Contains(r.value.value, "://")
    ensures r.Fail? <==> ChosenProxy(env, proxy, proxies).Some? && !Contains(ChosenProxy(env, proxy, proxies).value, "://")
    ensures r.Fail? ==> r.error == ArgumentError("proxy")
  {
    var chosen := ChosenProxy(env, proxy, proxies);
    if chosen.Some? && !Contains(chosen.value, "://") then Fail(ArgumentError("proxy")) else Ok(chosen)
  }

  /** The default request headers: the caller's headers, or none, with the
      Referer set to the search site, overriding any Referer given. */
  function DefaultHeaders(headers: Option<map<string, string>>): (r: map<string, string>)
    ensures "Referer" in r && r["Referer"] == Referer
    ensures r.Keys == headers.GetOr(map[]).Keys + {"Referer"}
    ensures forall k :: k in r && k != "Referer" ==> headers.Some? && r[k] == headers.value[k]
  {
    headers.GetOr(map[])["Referer" := Referer]
  }

  /** The constructor.  The catalogue entry it picks at random is the
      parameter `profile`.  The proxy is checked first; assigning the
      timeout to the `HttpClient` then throws when it is out of range. */
  function NewClient(env: Option<string>, headers: Option<map<string, string>>, proxy: Option<string>,
                     proxies: Option<string>, timeout: Option<int>, verify: bool, profile: Profile): (r: Result<Config>)
    ensures r.Fail? <==> EffectiveProxy(env, proxy, proxies).Fail? || !TimeoutInRange(ChosenTimeout(timeout))
    ensures EffectiveProxy(env, proxy, proxies).Fail? ==> r == Fail(ArgumentError("proxy"))
    ensures EffectiveProxy(env, proxy, proxies).Ok? && !TimeoutInRange(ChosenTimeout(timeout)) ==>
              r == Fail(ArgumentError("timeout"))
    ensures r.Ok? ==> r.value.proxy == ChosenProxy(env, proxy, proxies)
    ensures r.Ok? ==> r.value.timeout == (if timeout.Some? then timeout.value else DefaultTimeout)
    ensures r.Ok? ==> 1 <= r.value.timeout <= MaxTimeoutSeconds
    ensures r.Ok? ==> r.value.verify == verify
    ensures r.Ok? ==> r.value.userAgent == (if profile.browser == Safari then SafariAgent else ChromeAgent)
    ensures r.Ok? ==> r.value.headers == DefaultHeaders(headers)
  {
    SafariPrefixIff(profile);
    match EffectiveProxy(env, proxy, proxies)
    case Fail(e) => Fail(e)
    case Ok(p) =>
      var t := ChosenTimeout(timeout);
      if !TimeoutInRange(t) then Fail(ArgumentError("timeout"))
      else Ok(Config(p, t, verify, DefaultHeaders(headers), GetUserAgent(ProfileName(profile))))
  }

  /** The timeout bounds: the default and the largest whole-second timeout
      are taken, a zero, negative or one-second-longer timeout is not. */
  lemma TimeoutBounds()
    ensures TimeoutInRange(ChosenTimeout(None))
    ensures TimeoutInRange(MaxTimeoutSeconds) && !TimeoutInRange(MaxTimeoutSeconds + 1)
    ensures forall t :: t <= 0 ==> !TimeoutInRange(t)
    ensures forall t :: TimeoutInRange(t) <==> 1 <= t <= MaxTimeoutSeconds
  {
  }

  /** The environment variable wins over an explicit proxy. */
  lemma EnvWinsOverProxy(env: string, proxy: string)
    requires proxy != []
    ensures ChosenProxy(Some(env), Some(proxy), None) == Some(env)
  {
  }

  /** The deprecated `proxies` argument wins even over the environment variable. */
  lemma ProxiesWinWhenProxyEmpty(env: Option<string>, proxy: Option<string>, proxies: string)
    requires IsNullOrEmpty(proxy) && proxies != []
    ensures ChosenProxy(env, proxy, Some(proxies)) == Some(proxies)
  {
  }

  /** "tb" selects the local Tor proxy, which passes the scheme check. */
  lemma TorAliasAccepted()
    ensures EffectiveProxy(None, Some("tb"), None) == Ok(Some(TorProxy))
  {
    assert OccursAt(TorProxy, "://", 6);
  }

  /** Without any proxy setting the client goes direct. */
  lemma NoProxyDirect(proxies: Option<string>)
    requires IsNullOrEmpty(proxies)
    ensures EffectiveProxy(None, None, proxies) == Ok(None)
  {
  }

  /** A proxy without a scheme is rejected; so is an empty `proxy` argument,
      which the null-or-empty test lets through to the scheme check. */
  lemma SchemelessRejected(p: string)
    requires !Contains(p, "://") && p != "tb"
    ensures EffectiveProxy(None, Some(p), None) == Fail(ArgumentError("proxy"))
    ensures EffectiveProxy(Some(p), None, None) == Fail(ArgumentError("proxy"))
  {
  }

  lemma EmptyProxyRejected()
    ensures EffectiveProxy(None, Some(""), None) == Fail(ArgumentError("proxy"))
  {
    SchemelessRejected("");
  }
}
