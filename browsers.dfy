/** The pieces of src/core/browser_manager.py that are decided by the program
    rather than by Selenium or the operating system: which browser is
    started, which login page is opened, whether the cookies show a login,
    the proxy-free environment the driver installer runs in, and the table
    of open drivers. */
module Browsers {
  import opened Common
  import opened Text
  import opened LocalProxy

  const SupportedBrowsers: set<string> := {"chrome", "edge", "firefox"}

  /** The browser type `create_browser` uses: `(browser_type or 'chrome')`
      lower-cased, with anything unsupported replaced by `chrome`. */
  function NormalizeBrowserType(browserType: Option<string>): (r: string)
    ensures r in SupportedBrowsers
    ensures NonEmpty(browserType) && Lower(browserType.value) in SupportedBrowsers ==> r == Lower(browserType.value)
    ensures !NonEmpty(browserType) || Lower(browserType.value) !in SupportedBrowsers ==> r == "chrome"
  {
    var t := Lower(if NonEmpty(browserType) then browserType.value else "chrome");
    if t in SupportedBrowsers then t else "chrome"
  }

  /** Normalising is case-blind: two names that differ only in case give the
      same browser. */
  lemma {:induction false} NormalizeIgnoresCase(a: string, b: string)
    requires a != "" && b != "" && Lower(a) == Lower(b)
    ensures NormalizeBrowserType(Some(a)) == NormalizeBrowserType(Some(b))
  {
  }

  /** `open_login_page`: the address navigated to, or `None` for the
      `ValueError` an unknown account type raises. */
  function LoginPage(accountType: string): (r: Option<string>)
    ensures r.Some? <==> accountType == "google" || accountType == "outlook"
    ensures accountType == "google" ==> r == Some("https://accounts.google.com/")
    ensures accountType == "outlook" ==> r == Some("https://login.live.com/")
  {
    if accountType == "google" then Some("https://accounts.google.com/")
    else if accountType == "outlook" then Some("https://login.live.com/")
    else None
  }

  // ---------------------------------------------------------------- auth cookies

  /** A cookie as Selenium reports it; a missing `domain`, `name` or `value`
      reads as the empty string. */
  datatype Cookie = Cookie(domain: string, name: string, value: string)

  /** Some keyword occurs in the lower-cased domain. */
  predicate DomainMatches(domain: string, keywords: seq<string>)
  {
    exists k :: k in keywords && Contains(Lower(domain), k)
  }

  /** The test of `_has_auth_cookies` for one cookie: it has a name and a
      domain, the domain matches a keyword, the name is one of the wanted
      names and the value is not empty. */
  predicate IsAuthCookie(c: Cookie, keywords: seq<string>, names: seq<string>)
  {
    c.name != "" && c.domain != "" && DomainMatches(c.domain, keywords) && c.name in names && c.value != ""
  }

  /** `any(keyword in domain.lower() for keyword in domain_keywords)`. */
  method AnyKeyword(domain: string, keywords: seq<string>) returns (r: bool)
    ensures r <==> DomainMatches(domain, keywords)
  {
    var lowered := Lower(domain);
    var i := 0;
    while i < |keywords|
      invariant 0 <= i <= |keywords|
      invariant forall j :: 0 <= j < i ==> !Contains(lowered, keywords[j])
    {
      if Contains(lowered, keywords[i]) { return true; }
      i := i + 1;
    }
    return false;
  }

  /** `_has_auth_cookies`; `cookies` is `None` when `get_cookies` raises,
      which answers `False`. The loop collects the names of the cookies
      that pass the test. */
  method HasAuthCookies(cookies: Option<seq<Cookie>>, keywords: seq<string>, names: seq<string>) returns (r: bool)
    ensures r <==> cookies.Some? && exists i :: 0 <= i < |cookies.value| && IsAuthCookie(cookies.value[i], keywords, names)
  {
    if cookies.None? { return false; }
    var cs := cookies.value;
    var found: seq<string> := [];
    var i := 0;
    while i < |cs|
      invariant 0 <= i <= |cs|
      invariant found == [] <==> forall j :: 0 <= j < i ==> !IsAuthCookie(cs[j], keywords, names)
    {
      var c := cs[i];
      if c.name != "" && c.domain != "" {
        var domainMatch := AnyKeyword(c.domain, keywords);
        if domainMatch && c.name in names && c.value != "" {
          found := found + [c.name];
        }
      }
      i := i + 1;
    }
    return |found| > 0;
  }

  // ---------------------------------------------------------------- clean environment

  /** The proxy variables hidden from the driver installer. */
  const ProxyKeys: seq<string> := ["HTTP_PROXY", "HTTPS_PROXY", "ALL_PROXY", "NO_PROXY",
                                   "http_proxy", "https_proxy", "all_proxy", "no_proxy"]

  /** The process environment. */
  class Environment {
    var vars: map<string, string>

    constructor (initial: map<string, string>)
      ensures vars == initial
    {
      vars := initial;
    }
  }

  /** `_install_driver_with_clean_env`: every proxy variable is saved and
      deleted, the installer runs, and in the `finally` block each saved
      variable is put back. `outcome` is the path the installer returns,
      `None` when it raises; `during` is the environment the installer
      sees. Whether it succeeds or raises, the environment ends as it
      began. */
  method InstallDriverWithCleanEnv(env: Environment, outcome: Option<string>)
      returns (path: Option<string>, during: map<string, string>)
    modifies env
    ensures forall k :: k in ProxyKeys ==> k !in during
    ensures forall k :: k in env.vars && k !in ProxyKeys ==> k in during && during[k] == env.vars[k]
    ensures forall k :: k in during ==> k in env.vars
    ensures env.vars == old(env.vars)
    ensures path == outcome
  {
    var cleared, original := HideProxyVars(env.vars);
    env.vars := cleared;
    during := env.vars;
    path := outcome;
    env.vars := RestoreVars(env.vars, original);
    assert env.vars == old(env.vars) by {
      assert forall k :: k in env.vars <==> k in old(env.vars);
    }
  }

  /** The first loop: each proxy variable that is set is saved in `original`
      and deleted. */
  method HideProxyVars(vars: map<string, string>) returns (cleared: map<string, string>, original: map<string, string>)
    ensures cleared == vars - set k | k in ProxyKeys
    ensures forall k :: k in original <==> k in ProxyKeys && k in vars
    ensures forall k :: k in original ==> original[k] == vars[k]
  {
    cleared, original := vars, map[];
    var i := 0;
    while i < |ProxyKeys|
      invariant 0 <= i <= |ProxyKeys|
      invariant forall k :: k in original <==> k in ProxyKeys[..i] && k in vars
      invariant forall k :: k in original ==> original[k] == vars[k]
      invariant cleared == vars - set k | k in ProxyKeys[..i]
    {
      var key := ProxyKeys[i];
      assert ProxyKeys[..i + 1] == ProxyKeys[..i] + [key];
      if key in cleared {
        original := original[key := cleared[key]];
        cleared := cleared - {key};
      }
      i := i + 1;
    }
    assert ProxyKeys[..i] == ProxyKeys;
  }

  /** The `finally` loop: each saved variable is put back. */
  method RestoreVars(vars: map<string, string>, original: map<string, string>) returns (restored: map<string, string>)
    ensures forall k :: k in restored <==> k in vars || (k in ProxyKeys && k in original)
    ensures forall k :: k in restored ==> restored[k] == if k in ProxyKeys && k in original then original[k] else vars[k]
  {
    restored := vars;
    var i := 0;
    while i < |ProxyKeys|
      invariant 0 <= i <= |ProxyKeys|
      invariant forall k :: k in restored <==> k in vars || (k in ProxyKeys[..i] && k in original)
      invariant forall k :: k in restored ==> restored[k] == if k in ProxyKeys[..i] && k in original then original[k] else vars[k]
    {
      var key := ProxyKeys[i];
      assert ProxyKeys[..i + 1] == ProxyKeys[..i] + [key];
      if key in original {
        restored := restored[key := original[key]];
      }
      i := i + 1;
    }
    assert ProxyKeys[..i] == ProxyKeys;
  }

  // ---------------------------------------------------------------- open drivers

  /** The `drivers` table of `BrowserManager` and the relays it starts. A
      driver is an opaque handle; `quitted` logs the drivers asked to quit. */
  class BrowserManager {
    var drivers: map<string, nat>
    var quitted: seq<nat>
    var relays: LocalProxyManager

    ghost predicate Valid()
      reads this, relays
    {
      relays.Valid()
    }

    constructor ()
      ensures Valid() && fresh(relays) && drivers == map[] && quitted == []
    {
      drivers, quitted := map[], [];
      relays := new LocalProxyManager();
    }

    /** `close_browser`: quits and forgets the account's driver when there is
        one, and always stops the account's relay. */
    method CloseBrowser(accountId: string)
      requires Valid()
      modifies this, relays
      ensures Valid() && relays == old(relays)
      ensures drivers == old(drivers) - {accountId}
      ensures quitted == old(quitted) + if accountId in old(drivers) then [old(drivers)[accountId]] else []
      ensures accountId !in relays.active
      ensures relays.active == old(relays.active) - {accountId}
    {
      if accountId in drivers {
        quitted := quitted + [drivers[accountId]];
        drivers := drivers - {accountId};
      }
      relays.StopLocalProxy(accountId);
    }

    /** `is_browser_open`; `answers` is whether reading the driver's title
        succeeds. A driver that does not answer is forgotten. */
    method IsBrowserOpen(accountId: string, answers: bool) returns (open: bool)
      modifies this
      ensures open <==> accountId in old(drivers) && answers
      ensures drivers == if accountId in old(drivers) && !answers then old(drivers) - {accountId} else old(drivers)
      ensures quitted == old(quitted) && relays == old(relays)
    {
      if accountId in drivers {
        if answers { return true; }
        drivers := drivers - {accountId};
        return false;
      }
      return false;
    }

    /** `get_driver`. */
    function GetDriver(accountId: string): (r: Option<nat>)
      reads this
      ensures r.Some? <==> accountId in drivers
      ensures r.Some? ==> r.value == drivers[accountId]
    {
      if accountId in drivers then Some(drivers[accountId]) else None
    }
  }
}
