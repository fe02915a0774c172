/** The OAuth2 redirect handler theme script: it remembers a partner-site
    URL found in the query, in localStorage or in the referrer, and once the
    user is logged in (or reaches a profile page) schedules navigation back
    to it.

    Its allowlist is strict: the hostname must equal an entry exactly and
    the protocol must be `https:`. The one exception is the referrer, which
    is accepted on hostname membership alone. */
module AssetRedirect {
  import opened Js
  import opened Urls
  import opened SearchParams
  import opened LocalStorage

  // ---------------------------------------------------------------------------
  // Settings

  /** The theme settings the script reads; None where `settings` or the
      setting itself is undefined. */
  datatype Settings = Settings(
    whitelistedDomains: Option<seq<string>>,
    redirectDelay: Option<int>,
    debugMode: Option<bool>)

  /** The foreign pieces the script consults: the URL parser,
      `decodeURIComponent` and the theme settings. */
  datatype Host = Host(parse: Parser, decode: Decoder, settings: Settings)

  const DefaultAllowedDomains: seq<string> :=
    ["thecosmoslabs.cloudflareaccess.com", "vastdata.thecosmoslabs.com"]

  const DefaultRedirectDelayMs := 1000

  /** `getAllowedDomains()`: the configured list when the setting is present
      (an array is truthy even when empty), otherwise the built-in one. */
  function AllowedDomains(settings: Settings): (r: seq<string>)
    ensures settings.whitelistedDomains.Some? ==> r == settings.whitelistedDomains.value
    ensures settings.whitelistedDomains.None? ==> r == DefaultAllowedDomains
  {
    match settings.whitelistedDomains
    case Some(domains) => domains
    case None => DefaultAllowedDomains
  }

  /** `getRedirectDelay()`: the configured delay when it is truthy (present
      and not 0), otherwise one second. The result is never 0. */
  function RedirectDelay(settings: Settings): (r: int)
    ensures r != 0
    ensures settings.redirectDelay.Some? && settings.redirectDelay.value != 0
            ==> r == settings.redirectDelay.value
    ensures settings.redirectDelay.None? || settings.redirectDelay.value == 0
            ==> r == DefaultRedirectDelayMs
  {
    match settings.redirectDelay
    case Some(delay) => if delay != 0 then delay else DefaultRedirectDelayMs
    case None => DefaultRedirectDelayMs
  }

  /** `isDebugEnabled()`: on only when the setting is true. */
  function DebugEnabled(settings: Settings): (r: bool)
    ensures r <==> settings.debugMode == Some(true)
  {
    match settings.debugMode
    case Some(on) => on
    case None => false
  }

  // ---------------------------------------------------------------------------
  // Validation

  /** `isValidRedirectUrl(url)`: the URL parses, its hostname is exactly one
      of the allowed domains, and its protocol is `https:`. */
  predicate IsValidRedirectUrl(host: Host, url: string)
  {
    match host.parse(url)
    case None => false
    case Some(u) => u.hostname in AllowedDomains(host.settings) && u.protocol == SecureProtocol
  }

  /** The referrer test of `getRedirectUrl`: a non-empty referrer that
      parses and whose hostname is exactly an allowed domain, whatever its
      protocol. */
  predicate ReferrerAccepted(host: Host, referrer: string)
  {
    referrer != "" &&
    match host.parse(referrer)
    case None => false
    case Some(u) => u.hostname in AllowedDomains(host.settings)
  }

  /** A valid URL is a referrer that would be accepted; the converse fails
      for any other protocol. */
  lemma ValidImpliesReferrerAccepted(host: Host, url: string)
    requires url != "" && IsValidRedirectUrl(host, url)
    ensures ReferrerAccepted(host, url)
  {
  }

  /** A URL whose hostname is not exactly one of the allowed domains is
      rejected, whatever its protocol. */
  lemma OffListHostnameRejected(host: Host, url: string)
    requires host.parse(url).Some? && host.parse(url).value.hostname !in AllowedDomains(host.settings)
    ensures !IsValidRedirectUrl(host, url)
  {
  }

  /** A URL whose protocol is not `https:` is rejected, whatever its
      hostname. */
  lemma NonHttpsRejected(host: Host, url: string)
    requires host.parse(url).Some? && host.parse(url).value.protocol != SecureProtocol
    ensures !IsValidRedirectUrl(host, url)
  {
  }

  /** An example of both rules with the built-in list: a hostname that merely
      contains an allowed domain is rejected, and so is a plain-http URL on
      an allowed domain. */
  lemma ExactHttpsMatchOnly(host: Host, url: string)
    requires host.settings.whitelistedDomains.None?
    requires host.parse(url) == Some(Url("https:", "vastdata.thecosmoslabs.com.evil.test"))
          || host.parse(url) == Some(Url("http:", "vastdata.thecosmoslabs.com"))
    ensures !IsValidRedirectUrl(host, url)
  {
  }

  // ---------------------------------------------------------------------------
  // getRedirectUrl

  const StorageKey := "oauth2_redirect_url"

  /** The query parameters consulted, in order. */
  const RedirectParams: seq<string> := ["origin", "oauth2_redirect", "return_to"]

  /** What `getRedirectUrl()` produces: a URL, null, or an exception (a
      malformed escape seen by `decodeURIComponent`, which no `try`
      surrounds). */
  datatype Lookup = Found(url: string) | NotFound | Threw

  /** The loop moves past parameter `name`: it is falsy, or it decodes to a
      URL that is not valid. */
  predicate Skipped(host: Host, query: Query, name: string)
  {
    var v := Get(query, name);
    !Truthy(v) || (host.decode(v.value).Some? && !IsValidRedirectUrl(host, host.decode(v.value).value))
  }

  /** The loop reaches parameter `names[i]` (every earlier one is skipped)
      and finds it truthy, so it decodes it. */
  predicate ReachedAt(host: Host, query: Query, names: seq<string>, i: int)
  {
    && 0 <= i < |names|
    && (forall j :: 0 <= j < i ==> Skipped(host, query, names[j]))
    && Truthy(Get(query, names[i]))
  }

  /** `decodeURIComponent` applied to the value of `names[i]`. */
  function DecodedAt(host: Host, query: Query, names: seq<string>, i: int): Option<string>
    requires ReachedAt(host, query, names, i)
  {
    host.decode(Get(query, names[i]).value)
  }

  /** The loop over the redirect parameters in `names`. */
  function ParamLookup(host: Host, query: Query, names: seq<string>): (r: Lookup)
    ensures r.Found? ==> IsValidRedirectUrl(host, r.url)
    ensures r.Found? ==> exists i :: ReachedAt(host, query, names, i) && DecodedAt(host, query, names, i) == Some(r.url)
    ensures r.Threw? ==> exists i :: ReachedAt(host, query, names, i) && DecodedAt(host, query, names, i).None?
    ensures r.NotFound? <==> forall i :: 0 <= i < |names| ==> Skipped(host, query, names[i])
  {
    if names == [] then NotFound
    else
      var v := Get(query, names[0]);
      var rest := ParamLookup(host, query, names[1..]);
      assert forall i :: 1 <= i < |names| ==> names[i] == names[1..][i - 1];
      if Truthy(v) then
        match host.decode(v.value)
        case None => assert ReachedAt(host, query, names, 0); Threw
        case Some(d) =>
          if IsValidRedirectUrl(host, d) then assert ReachedAt(host, query, names, 0); Found(d)
          else ShiftWitness(host, query, names, rest); rest
      else ShiftWitness(host, query, names, rest); rest
  }

  /** A witness for names[1..] is one for names once names[0] is skipped. */
  lemma ShiftWitness(host: Host, query: Query, names: seq<string>, rest: Lookup)
    requires names != [] && Skipped(host, query, names[0])
    requires rest.Found? ==> exists i :: ReachedAt(host, query, names[1..], i) && DecodedAt(host, query, names[1..], i) == Some(rest.url)
    requires rest.Threw? ==> exists i :: ReachedAt(host, query, names[1..], i) && DecodedAt(host, query, names[1..], i).None?
    ensures rest.Found? ==> exists i :: ReachedAt(host, query, names, i) && DecodedAt(host, query, names, i) == Some(rest.url)
    ensures rest.Threw? ==> exists i :: ReachedAt(host, query, names, i) && DecodedAt(host, query, names, i).None?
  {
    if !rest.NotFound? {
      var i :| ReachedAt(host, query, names[1..], i)
        && (if rest.Found? then DecodedAt(host, query, names[1..], i) == Some(rest.url)
            else DecodedAt(host, query, names[1..], i).None?);
      assert names[i + 1] == names[1..][i];
      forall j | 0 <= j < i + 1 ensures Skipped(host, query, names[j]) {
        if j > 0 {
          assert names[j] == names[1..][j - 1];
        }
      }
      assert ReachedAt(host, query, names, i + 1);
    }
  }

  /** `getRedirectUrl()`: the first redirect parameter whose decoded value is
      valid; failing that the stored URL if it is valid; failing that the
      referrer if its hostname is allowed; otherwise null. */
  function RedirectUrl(host: Host, query: Query, storage: Storage, referrer: string): Lookup
  {
    match ParamLookup(host, query, RedirectParams)
    case Found(u) => Found(u)
    case Threw => Threw
    case NotFound =>
      var stored := GetItem(storage, StorageKey);
      if Truthy(stored) && IsValidRedirectUrl(host, stored.value) then Found(stored.value)
      else if ReferrerAccepted(host, referrer) then Found(referrer)
      else NotFound
  }

  /** Everything `getRedirectUrl` returns is a valid URL, except a referrer,
      which is only known to have an allowed hostname. */
  lemma RedirectUrlIsValidOrReferrer(host: Host, query: Query, storage: Storage, referrer: string)
    requires RedirectUrl(host, query, storage, referrer).Found?
    ensures var u := RedirectUrl(host, query, storage, referrer).url;
      IsValidRedirectUrl(host, u) || (u == referrer && ReferrerAccepted(host, referrer))
  {
  }

  /** A result taken from the parameters is the decoded value of one of
      them, and valid; the stored URL and the referrer are consulted only
      when every parameter is falsy or decodes to something invalid. */
  lemma ParametersComeFirst(host: Host, query: Query, storage: Storage, referrer: string)
    ensures ParamLookup(host, query, RedirectParams).Found? ==>
      RedirectUrl(host, query, storage, referrer) == ParamLookup(host, query, RedirectParams)
      && IsValidRedirectUrl(host, RedirectUrl(host, query, storage, referrer).url)
    ensures RedirectUrl(host, query, storage, referrer).Found?
            && RedirectUrl(host, query, storage, referrer) != ParamLookup(host, query, RedirectParams)
            ==> forall i :: 0 <= i < |RedirectParams| ==> Skipped(host, query, RedirectParams[i])
  {
  }

  /** With no usable parameter, the stored URL is returned exactly when it
      is valid; otherwise the referrer, exactly when it is accepted. */
  lemma StoredThenReferrer(host: Host, query: Query, storage: Storage, referrer: string)
    requires ParamLookup(host, query, RedirectParams).NotFound?
    ensures var stored := GetItem(storage, StorageKey);
      Truthy(stored) && IsValidRedirectUrl(host, stored.value)
      ==> RedirectUrl(host, query, storage, referrer) == Found(stored.value)
    ensures var stored := GetItem(storage, StorageKey);
      !(Truthy(stored) && IsValidRedirectUrl(host, stored.value))
      ==> (RedirectUrl(host, query, storage, referrer).Found? <==> ReferrerAccepted(host, referrer))
  {
  }

  /** A referrer the parser rejects is ignored: it is never the result, and
      with no usable parameter or stored URL the result is null. */
  lemma UnparseableReferrerIgnored(host: Host, query: Query, storage: Storage, referrer: string)
    requires host.parse(referrer).None?
    ensures RedirectUrl(host, query, storage, referrer) != Found(referrer)
    ensures ParamLookup(host, query, RedirectParams).NotFound? && !PendingRedirect(host, storage)
            ==> RedirectUrl(host, query, storage, referrer) == NotFound
  {
  }

  /** The referrer escapes the scheme check: in any state where no parameter
      is usable and no redirect is pending, a referrer on an allowed hostname
      is returned whatever its protocol, even one that is not a valid
      redirect URL. */
  lemma ReferrerReturnedWithoutSchemeCheck(host: Host, query: Query, storage: Storage, referrer: string)
    requires ParamLookup(host, query, RedirectParams).NotFound? && !PendingRedirect(host, storage)
    requires referrer != "" && host.parse(referrer).Some?
    requires host.parse(referrer).value.hostname in AllowedDomains(host.settings)
    ensures RedirectUrl(host, query, storage, referrer) == Found(referrer)
    ensures host.parse(referrer).value.protocol != SecureProtocol ==> !IsValidRedirectUrl(host, referrer)
  {
  }

  /** An example with the built-in list and an empty query and storage: a
      plain-http referrer on an allowed hostname is returned although it is
      not a valid redirect URL. */
  lemma ReferrerSkipsSchemeCheck(host: Host, referrer: string)
    requires host.settings.whitelistedDomains.None?
    requires host.parse(referrer) == Some(Url("http:", "vastdata.thecosmoslabs.com"))
    requires referrer != ""
    ensures RedirectUrl(host, [], map[], referrer) == Found(referrer)
    ensures !IsValidRedirectUrl(host, referrer)
  {
    assert "vastdata.thecosmoslabs.com" in AllowedDomains(host.settings);
    assert ParamLookup(host, [], RedirectParams) == NotFound;
  }

  // ---------------------------------------------------------------------------
  // storeRedirectUrl and the state after initialisation

  /** `storeRedirectUrl(url)`: the key is written only for a truthy, valid
      URL; otherwise storage is left as it is. */
  function StoreResult(host: Host, storage: Storage, url: string): (r: Storage)
    ensures r == storage || (r == storage[StorageKey := url] && IsValidRedirectUrl(host, url))
    ensures url != "" && IsValidRedirectUrl(host, url) ==> StorageKey in r && r[StorageKey] == url
    ensures !(url != "" && IsValidRedirectUrl(host, url)) ==> r == storage
  {
    if url != "" && IsValidRedirectUrl(host, url) then storage[StorageKey := url] else storage
  }

  /** A URL whose protocol is not `https:` is never stored, in particular a
      plain-http referrer that `getRedirectUrl` returned. */
  lemma NonHttpsNeverStored(host: Host, storage: Storage, url: string)
    requires host.parse(url).Some? && host.parse(url).value.protocol != SecureProtocol
    ensures StoreResult(host, storage, url) == storage
  {
  }

  /** The stored value is a pending redirect: present, truthy and valid. */
  predicate PendingRedirect(host: Host, storage: Storage)
  {
    var stored := GetItem(storage, StorageKey);
    Truthy(stored) && IsValidRedirectUrl(host, stored.value)
  }

  /** `window.currentUser`, reduced to its id (None when absent). */
  datatype CurrentUser = CurrentUser(id: Option<int>)

  /** `window.currentUser && window.currentUser.id`: a user whose id is
      present and not 0. */
  predicate LoggedIn(user: Option<CurrentUser>)
  {
    user.Some? && user.value.id.Some? && user.value.id.value != 0
  }

  /** The storage after the first step of initialisation: a found URL is
      offered to storeRedirectUrl. */
  function StorageAfterLookup(host: Host, storage: Storage, lookup: Lookup): (r: Storage)
    ensures lookup.Found? ==> r == StoreResult(host, storage, lookup.url)
    ensures !lookup.Found? ==> r == storage
  {
    if lookup.Found? then StoreResult(host, storage, lookup.url) else storage
  }

  /** Every value the first step writes is valid, so a pending redirect
      after it was either pending before or was just written. */
  lemma LookupStoresOnlyValid(host: Host, storage: Storage, lookup: Lookup)
    ensures var st := StorageAfterLookup(host, storage, lookup);
      st == storage || (lookup.Found? && st == storage[StorageKey := lookup.url] && IsValidRedirectUrl(host, lookup.url))
  {
  }

  /** A redirect the script schedules: navigate to `url` after `delayMs`. */
  datatype Timer = Timer(url: string, delayMs: int)

  /** The browser state the script reads and changes: the location's href
      and query, the referrer, localStorage, the navigations scheduled with
      `setTimeout`, and the last URL assigned to `window.location.href`. */
  class Page {
    var href: string
    var query: Query
    var referrer: string
    var storage: Storage
    var timers: seq<Timer>
    var location: Option<string>

    constructor (href: string, query: Query, referrer: string, storage: Storage)
      ensures this.href == href && this.query == query && this.referrer == referrer
      ensures this.storage == storage && timers == [] && location == None
    {
      this.href := href;
      this.query := query;
      this.referrer := referrer;
      this.storage := storage;
      timers := [];
      location := None;
    }

    /** `getRedirectUrl()`. */
    method GetRedirectUrl(host: Host) returns (r: Lookup)
      ensures r == RedirectUrl(host, query, storage, referrer)
    {
      for i := 0 to |RedirectParams|
        invariant ParamLookup(host, query, RedirectParams) == ParamLookup(host, query, RedirectParams[i..])
      {
        assert RedirectParams[i..][1..] == RedirectParams[i + 1..];
        var value := Get(query, RedirectParams[i]);
        if Truthy(value) {
          var decoded := host.decode(value.value);
          if decoded.None? {
            return Threw;
          }
          if IsValidRedirectUrl(host, decoded.value) {
            return Found(decoded.value);
          }
        }
      }
      var stored := GetItem(storage, StorageKey);
      if Truthy(stored) && IsValidRedirectUrl(host, stored.value) {
        return Found(stored.value);
      }
      if referrer != "" {
        var parsed := host.parse(referrer);
        if parsed.Some? && parsed.value.hostname in AllowedDomains(host.settings) {
          return Found(referrer);
        }
      }
      return NotFound;
    }

    /** `storeRedirectUrl(url)`. */
    method StoreRedirectUrl(host: Host, url: string)
      modifies this
      ensures storage == StoreResult(host, old(storage), url)
      ensures href == old(href) && query == old(query) && referrer == old(referrer)
      ensures timers == old(timers) && location == old(location)
    {
      if url != "" && IsValidRedirectUrl(host, url) {
        storage := storage[StorageKey := url];
      }
    }

    /** `clearRedirectUrl()`: only the redirect key is removed. */
    method ClearRedirectUrl()
      modifies this
      ensures storage == old(storage) - {StorageKey}
      ensures href == old(href) && query == old(query) && referrer == old(referrer)
      ensures timers == old(timers) && location == old(location)
    {
      storage := storage - {StorageKey};
    }

    /** `performRedirect(url)`: clear the stored URL, then schedule the
        navigation to exactly `url` after the configured delay. */
    method PerformRedirect(host: Host, url: string)
      modifies this
      ensures storage == old(storage) - {StorageKey}
      ensures timers == old(timers) + [Timer(url, RedirectDelay(host.settings))]
      ensures href == old(href) && query == old(query) && referrer == old(referrer)
      ensures location == old(location)
    {
      ClearRedirectUrl();
      timers := timers + [Timer(url, RedirectDelay(host.settings))];
    }

    /** The body of a scheduled timeout: `window.location.href = url`. */
    method FireTimer(i: nat)
      requires i < |timers|
      modifies this
      ensures location == Some(old(timers)[i].url)
      ensures timers == old(timers)[..i] + old(timers)[i + 1..]
      ensures href == old(href) && query == old(query) && referrer == old(referrer)
      ensures storage == old(storage)
    {
      location := Some(timers[i].url);
      timers := timers[..i] + timers[i + 1..];
    }

    /** The decision part of `initializeOAuth2Redirect()`. `threw` is set
        when `getRedirectUrl` throws, which ends the initialisation before
        anything changes. Otherwise a found URL is offered to storage; then a
        logged-in user with a pending redirect is redirected, and the run
        ends before any listener is installed; in every other case the
        URL-change watcher is installed with the current href. */
    method Initialize(host: Host, user: Option<CurrentUser>) returns (threw: bool, watcher: Watcher?)
      modifies this
      ensures href == old(href) && query == old(query) && referrer == old(referrer)
      ensures location == old(location)
      ensures var lookup := RedirectUrl(host, old(query), old(storage), old(referrer));
        var st := StorageAfterLookup(host, old(storage), lookup);
        if lookup.Threw? then
          threw && watcher == null && storage == old(storage) && timers == old(timers)
        else if LoggedIn(user) && PendingRedirect(host, st) then
          && !threw && watcher == null
          && storage == st - {StorageKey}
          && timers == old(timers) + [Timer(st[StorageKey], RedirectDelay(host.settings))]
        else
          && !threw && watcher != null && fresh(watcher) && watcher.currentUrl == href
          && storage == st && timers == old(timers)
    {
      var redirectUrl := GetRedirectUrl(host);
      if redirectUrl.Threw? {
        return true, null;
      }
      if redirectUrl.Found? {
        StoreRedirectUrl(host, redirectUrl.url);
      }

      if user.Some? && user.value.id.Some? && user.value.id.value != 0 {
        var storedRedirect := GetItem(storage, StorageKey);
        if Truthy(storedRedirect) && IsValidRedirectUrl(host, storedRedirect.value) {
          PerformRedirect(host, storedRedirect.value);
          return false, null;
        }
      }

      watcher := new Watcher(href);
      threw := false;
    }

    /** The DOMContentLoaded listener: on a login-success indicator (a
        `.login-success` or `[data-login-success]` element, or
        `login_success` in the query string) a pending redirect is
        performed. */
    method OnContentLoaded(host: Host, loginSuccess: bool)
      modifies this
      ensures href == old(href) && query == old(query) && referrer == old(referrer)
      ensures location == old(location)
      ensures if loginSuccess && PendingRedirect(host, old(storage)) then
          storage == old(storage) - {StorageKey}
          && timers == old(timers) + [Timer(old(storage)[StorageKey], RedirectDelay(host.settings))]
        else storage == old(storage) && timers == old(timers)
    {
      if loginSuccess {
        var storedRedirect := GetItem(storage, StorageKey);
        if Truthy(storedRedirect) && IsValidRedirectUrl(host, storedRedirect.value) {
          PerformRedirect(host, storedRedirect.value);
        }
      }
    }
  }

  /** The href looks like a profile page, reached after login or
      registration. */
  predicate OnProfilePage(href: string)
  {
    Includes(href, "/u/") || Includes(href, "/users/")
  }

  /** The polling closure of `initializeOAuth2Redirect`, with the href it
      remembers. */
  class Watcher {
    var currentUrl: string

    constructor (href: string)
      ensures currentUrl == href
    {
      currentUrl := href;
    }

    /** One tick of the interval: act only when the href changed; remember
        the new href, and on a profile page perform a pending redirect. */
    method Poll(host: Host, page: Page)
      modifies this, page
      ensures currentUrl == page.href
      ensures page.href == old(page.href) && page.query == old(page.query)
      ensures page.referrer == old(page.referrer) && page.location == old(page.location)
      ensures if old(currentUrl) != page.href && OnProfilePage(page.href) && PendingRedirect(host, old(page.storage)) then
          page.storage == old(page.storage) - {StorageKey}
          && page.timers == old(page.timers) + [Timer(old(page.storage)[StorageKey], RedirectDelay(host.settings))]
        else page.storage == old(page.storage) && page.timers == old(page.timers)
    {
      if page.href != currentUrl {
        currentUrl := page.href;
        if Includes(currentUrl, "/u/") || Includes(currentUrl, "/users/") {
          var storedRedirect := GetItem(page.storage, StorageKey);
          if Truthy(storedRedirect) && IsValidRedirectUrl(host, storedRedirect.value) {
            page.PerformRedirect(host, storedRedirect.value);
          }
        }
      }
    }
  }

  /** Two ticks with no navigation in between schedule at most one
      redirect: the first remembers the href, so the second does nothing. */
  method PollTwice(host: Host, watcher: Watcher, page: Page)
    modifies watcher, page
    ensures |page.timers| <= |old(page.timers)| + 1
    ensures page.href == old(page.href)
  {
    watcher.Poll(host, page);
    watcher.Poll(host, page);
  }
}
