/** The community signup redirect handler: a Discourse initializer that,
    once a user has finished creating their community account, sends them
    back to the partner site they came from.

    Candidate destinations come from four query parameters and one stored
    value, in a fixed priority order; each is checked against a domain
    allowlist that matches by hostname substring and ignores the scheme.
    Navigation happens only when registration looks complete, and the
    consumed parameters (or the stored value) are removed first. */
module SignupRedirect {
  import opened Js
  import opened Urls
  import opened SearchParams
  import opened LocalStorage

  // ---------------------------------------------------------------------------
  // Settings and the allowlist

  /** The theme settings the handler reads; None where `settings` or the
      setting itself is undefined. */
  datatype Settings = Settings(whitelistedDomains: Option<seq<string>>)

  /** The foreign pieces the handler consults: the URL parser and the theme
      settings. */
  datatype Host = Host(parse: Parser, settings: Settings)

  const DefaultAllowedDomains: seq<string> :=
    ["vastdatacustomers.mindtickle.com", "mindtickle.com", "vastdata.com"]

  /** `getAllowedDomains()`: the configured list when the setting is present
      (an array is truthy even when empty), otherwise the built-in one. */
  function AllowedDomains(settings: Settings): (r: seq<string>)
    ensures settings.whitelistedDomains.Some? ==> r == settings.whitelistedDomains.value
    ensures settings.whitelistedDomains.None? ==> r == DefaultAllowedDomains
  {
    match settings.whitelistedDomains
    case Some(domains) => domains
    case None => DefaultAllowedDomains
  }

  /** `domains.some(domain => hostname.includes(domain))`. */
  predicate SomeIncluded(hostname: string, domains: seq<string>)
    decreases |domains|
  {
    |domains| > 0 && (Includes(hostname, domains[0]) || SomeIncluded(hostname, domains[1..]))
  }

  /** `some` holds exactly when one of the entries occurs in the hostname. */
  lemma {:induction false} SomeIncludedIff(hostname: string, domains: seq<string>)
    ensures SomeIncluded(hostname, domains) <==> exists d :: d in domains && Includes(hostname, d)
    decreases |domains|
  {
    if domains != [] {
      SomeIncludedIff(hostname, domains[1..]);
      if SomeIncluded(hostname, domains) {
        if Includes(hostname, domains[0]) {
          assert domains[0] in domains;
        } else {
          var d :| d in domains[1..] && Includes(hostname, d);
          assert d in domains;
        }
      }
      if exists d :: d in domains && Includes(hostname, d) {
        var d :| d in domains && Includes(hostname, d);
        var i :| 0 <= i < |domains| && domains[i] == d;
        if i > 0 {
          assert domains[1..][i - 1] == d;
        }
      }
    }
  }

  /** `isAllowedDomain(url)`: the URL parses and some allowlist entry occurs
      somewhere in its hostname. The protocol is never looked at. */
  predicate IsAllowedDomain(host: Host, url: string)
  {
    match host.parse(url)
    case None => false
    case Some(u) => SomeIncluded(u.hostname, AllowedDomains(host.settings))
  }

  /** A URL is allowed exactly when it parses and some allowlist entry
      occurs somewhere in its hostname. */
  lemma AllowedDomainIff(host: Host, url: string)
    ensures IsAllowedDomain(host, url) <==>
      host.parse(url).Some? && exists d :: d in AllowedDomains(host.settings) && Includes(host.parse(url).value.hostname, d)
  {
    if host.parse(url).Some? {
      SomeIncludedIff(host.parse(url).value.hostname, AllowedDomains(host.settings));
    }
  }

  /** A string the parser rejects is never allowed. */
  lemma UnparseableNotAllowed(host: Host, url: string)
    requires host.parse(url).None?
    ensures !IsAllowedDomain(host, url)
  {
  }

  /** The verdict depends on the hostname alone: two URLs with the same
      hostname get the same answer whatever their protocols. */
  lemma AllowlistIgnoresScheme(host: Host, url1: string, url2: string)
    requires host.parse(url1).Some? && host.parse(url2).Some?
    requires host.parse(url1).value.hostname == host.parse(url2).value.hostname
    ensures IsAllowedDomain(host, url1) == IsAllowedDomain(host, url2)
  {
  }

  /** An entry admits every hostname that merely contains it: with the
      built-in list, a plain-http URL on `mindtickle.com.evil.test` or on
      `evilmindtickle.com` is allowed. */
  lemma SubstringMatchAdmitsLookalikes(host: Host, url: string, prefix: string, suffix: string)
    requires host.settings.whitelistedDomains.None?
    requires host.parse(url) == Some(Url("http:", prefix + "mindtickle.com" + suffix))
    ensures IsAllowedDomain(host, url)
  {
    IncludesPrefix("mindtickle.com", "mindtickle.com");
    IncludesExtend("mindtickle.com", "mindtickle.com", suffix);
    IncludesPrepend(prefix, "mindtickle.com" + suffix, "mindtickle.com");
    assert prefix + "mindtickle.com" + suffix == prefix + ("mindtickle.com" + suffix);
    assert AllowedDomains(host.settings)[1] == "mindtickle.com";
  }

  // ---------------------------------------------------------------------------
  // The user snapshot and the page

  /** The fields of `api.getCurrentUser()` the handler reads. `createdAtMs`
      is `new Date(created_at).getTime()`: None when that is NaN (missing or
      unparseable date). */
  datatype User = User(username: Option<string>, name: Option<string>, createdAtMs: Option<int>)

  /** What the DOM queries report:
      - signupFormElement: some `.signup-form, .registration-form,
        .create-account-form` element exists;
      - signupButton: some `button[title="Create Account"], .btn-signup,
        .btn-register` element exists;
      - signupFormCount: the number of elements matching those three form
        classes or `form[action*="signup"]`, `form[action*="register"]`. */
  datatype Dom = Dom(signupFormElement: bool, signupButton: bool, signupFormCount: nat)

  /** A snapshot a real page can produce: the form-class selector is part of
      the counted selector list, so a matched form element is counted. */
  predicate Consistent(dom: Dom)
  {
    dom.signupFormElement ==> dom.signupFormCount > 0
  }

  /** The path contains one of the three signup substrings. */
  predicate OnSignupPath(path: string)
  {
    Includes(path, "/signup") || Includes(path, "/register") || Includes(path, "/create-account")
  }

  /** `isOnRegistrationPage()`. */
  predicate IsOnRegistrationPage(path: string, dom: Dom)
  {
    OnSignupPath(path) || dom.signupFormElement || dom.signupButton
  }

  /** JavaScript `x < bound` where None stands for NaN: NaN is below nothing. */
  predicate Below(x: Option<int>, bound: int)
  {
    x.Some? && x.value < bound
  }

  /** `now - new Date(created_at).getTime()`, None when that is NaN. */
  function AccountAge(user: User, now: int): (r: Option<int>)
    ensures r.Some? <==> user.createdAtMs.Some?
    ensures r.Some? ==> user.createdAtMs.value + r.value == now
  {
    match user.createdAtMs
    case Some(created) => Some(now - created)
    case None => None
  }

  /** Fifteen minutes: the account age below which registration is assumed
      to be still in progress. */
  const MinAccountAgeMs := 900000

  /** `hasCompletedRegistration(currentUser)`, the checks in source order,
      with `now` the clock reading it takes. */
  predicate HasCompletedRegistration(user: Option<User>, path: string, dom: Dom, now: int)
  {
    if user.None? then false
    else if !Truthy(user.value.username) then false
    else if IsOnRegistrationPage(path, dom) then false
    else if Below(AccountAge(user.value, now), MinAccountAgeMs) then false
    else if !Truthy(user.value.name) || Trim(user.value.name.value) == "" then false
    else if OnSignupPath(path) then false
    else if dom.signupFormCount > 0 then false
    else true
  }

  /** Registration counts as complete exactly when there is a user with a
      non-empty username and a name that is not all whitespace, the path has
      none of the signup substrings, no signup form or button is on the page,
      and the account is not known to be younger than fifteen minutes. */
  lemma CompletedRegistrationIff(user: Option<User>, path: string, dom: Dom, now: int)
    ensures HasCompletedRegistration(user, path, dom, now) <==>
      && user.Some?
      && Truthy(user.value.username)
      && Truthy(user.value.name) && !Blank(user.value.name.value)
      && !OnSignupPath(path)
      && !dom.signupFormElement && !dom.signupButton && dom.signupFormCount == 0
      && (user.value.createdAtMs.None? || now - user.value.createdAtMs.value >= MinAccountAgeMs)
  {
    if user.Some? && user.value.name.Some? {
      TrimEmptyIffBlank(user.value.name.value);
    }
  }

  /** A missing or unparseable creation date never blocks: `NaN < 900000`
      is false. */
  lemma UnknownCreationTimeIsLenient(user: User, path: string, dom: Dom, now: int, now': int)
    requires user.createdAtMs.None?
    ensures HasCompletedRegistration(Some(user), path, dom, now)
        == HasCompletedRegistration(Some(user), path, dom, now')
  {
  }

  /** A completed registration has an account at least fifteen minutes old,
      or one of unknown age. */
  lemma CompletedAccountIsMature(user: Option<User>, path: string, dom: Dom, now: int)
    requires HasCompletedRegistration(user, path, dom, now)
    ensures user.Some? && !Below(AccountAge(user.value, now), MinAccountAgeMs)
  {
  }

  // ---------------------------------------------------------------------------
  // The redirect sources and their priority

  const StorageKey := "auth0_original_redirect_url"

  /** The parameters priorities 1 to 3 strip before navigating. */
  const DirectSignupParams: seq<string> := ["return_url", "oauth2_redirect", "origin"]

  /** The parameters priority 4 strips before navigating. */
  const LegacyParams: seq<string> := ["original_redirect", "redirect_count"]

  /** A redirect source: a query parameter together with the parameters
      stripped when it is acted on, or a key of localStorage. */
  datatype Source = Param(name: string, consumes: seq<string>) | Stored(key: string)

  /** Priorities 1 to 5 of `handleRedirect`. */
  const Priorities: seq<Source> := [
    Param("return_url", DirectSignupParams),
    Param("oauth2_redirect", DirectSignupParams),
    Param("origin", DirectSignupParams),
    Param("original_redirect", LegacyParams),
    Stored(StorageKey)
  ]

  /** The value a source offers. */
  function CandidateOf(src: Source, query: Query, storage: Storage): Option<string>
  {
    match src
    case Param(name, _) => Get(query, name)
    case Stored(key) => GetItem(storage, key)
  }

  /** A source is acted on when its value is truthy and allowed. */
  predicate Actionable(host: Host, src: Source, query: Query, storage: Storage)
  {
    var c := CandidateOf(src, query, storage);
    Truthy(c) && IsAllowedDomain(host, c.value)
  }

  /** The first actionable source among srcs[k..]. */
  function FirstActionable(host: Host, srcs: seq<Source>, query: Query, storage: Storage, k: nat): (r: Option<nat>)
    requires k <= |srcs|
    ensures r.Some? ==> k <= r.value < |srcs| && Actionable(host, srcs[r.value], query, storage)
    ensures r.Some? ==> forall j :: k <= j < r.value ==> !Actionable(host, srcs[j], query, storage)
    ensures r.None? ==> forall j :: k <= j < |srcs| ==> !Actionable(host, srcs[j], query, storage)
    decreases |srcs| - k
  {
    if k == |srcs| then None
    else if Actionable(host, srcs[k], query, storage) then Some(k)
    else FirstActionable(host, srcs, query, storage, k + 1)
  }

  /** The query and storage once a source's consumed state is stripped. */
  function Consume(src: Source, query: Query, storage: Storage): (Query, Storage)
  {
    match src
    case Param(_, names) => (DeleteEach(query, names), storage)
    case Stored(key) => (query, storage - {key})
  }

  // ---------------------------------------------------------------------------
  // The decision of handleRedirect

  /** The outcome of one run: nothing happens, or the query and storage are
      replaced and the browser is sent to `url`. */
  datatype Action = Stay | Navigate(url: string, query: Query, storage: Storage)

  const FallbackUrl := "https://vastdatacustomers.mindtickle.com"

  /** Ten minutes: the age below which the fallback redirect would fire. */
  const FallbackWindowMs := 10 * 60 * 1000

  /** What `handleRedirect()` does. `now` is the clock reading taken inside
      `hasCompletedRegistration`, `later` the one the fallback check takes
      afterwards. */
  function Decide(host: Host, path: string, query: Query, storage: Storage,
                  user: Option<User>, dom: Dom, now: int, later: int): Action
  {
    if OnSignupPath(path) || dom.signupFormCount > 0 || user.None? then Stay
    else match FirstActionable(host, Priorities, query, storage, 0)
      case Some(i) =>
        if HasCompletedRegistration(user, path, dom, now) then
          var (q', st') := Consume(Priorities[i], query, storage);
          Navigate(CandidateOf(Priorities[i], query, storage).value, q', st')
        else Stay
      case None =>
        if HasCompletedRegistration(user, path, dom, now)
           && Below(AccountAge(user.value, later), FallbackWindowMs)
        then Navigate(FallbackUrl, query, storage)
        else Stay
  }

  /** On a signup path, with a signup form on the page, or without a user,
      the handler does nothing at all. */
  lemma GuardsPreventAnyAction(host: Host, path: string, query: Query, storage: Storage,
                               user: Option<User>, dom: Dom, now: int, later: int)
    requires OnSignupPath(path) || dom.signupFormCount > 0 || user.None?
    ensures Decide(host, path, query, storage, user, dom, now, later) == Stay
  {
  }

  /** On a consistent page, a signup form element alone keeps the handler
      from doing anything, whatever the sources and the user hold. */
  lemma SignupFormPreventsAnyAction(host: Host, path: string, query: Query, storage: Storage,
                                    user: Option<User>, dom: Dom, now: int, later: int)
    requires Consistent(dom) && dom.signupFormElement
    ensures Decide(host, path, query, storage, user, dom, now, later) == Stay
  {
  }

  /** When the first actionable source is found but registration is not
      complete, the handler waits: later sources are not consulted. */
  lemma IncompleteRegistrationWaits(host: Host, path: string, query: Query, storage: Storage,
                                    user: Option<User>, dom: Dom, now: int, later: int)
    requires FirstActionable(host, Priorities, query, storage, 0).Some?
    requires !HasCompletedRegistration(user, path, dom, now)
    ensures Decide(host, path, query, storage, user, dom, now, later) == Stay
  {
  }

  /** The fallback redirect to the fixed URL can never fire while the clock
      does not run backwards: it needs an account younger than ten minutes,
      and a completed registration needs one at least fifteen minutes old
      (or of unknown age, for which the ten-minute test is false as well). */
  lemma FallbackNeverFires(host: Host, path: string, query: Query, storage: Storage,
                           user: Option<User>, dom: Dom, now: int, later: int)
    requires now <= later
    requires FirstActionable(host, Priorities, query, storage, 0).None?
    ensures Decide(host, path, query, storage, user, dom, now, later) == Stay
  {
    if HasCompletedRegistration(user, path, dom, now) {
      CompletedAccountIsMature(user, path, dom, now);
    }
  }

  /** Once the guards pass and source `i` is the first actionable one, the
      handler navigates to its value, stripped of its consumed state, if and
      only if registration is complete. */
  lemma DecideAt(host: Host, path: string, query: Query, storage: Storage,
                 user: Option<User>, dom: Dom, now: int, later: int, i: nat)
    requires !OnSignupPath(path) && dom.signupFormCount == 0 && user.Some?
    requires i < |Priorities| && Actionable(host, Priorities[i], query, storage)
    requires forall j :: 0 <= j < i ==> !Actionable(host, Priorities[j], query, storage)
    ensures Decide(host, path, query, storage, user, dom, now, later)
         == if HasCompletedRegistration(user, path, dom, now)
            then Navigate(CandidateOf(Priorities[i], query, storage).value,
                          Consume(Priorities[i], query, storage).0, Consume(Priorities[i], query, storage).1)
            else Stay
  {
    FirstActionableIs(host, Priorities, query, storage, 0, i);
  }

  /** The first actionable index is the one with no actionable index before
      it. */
  lemma {:induction false} FirstActionableIs(host: Host, srcs: seq<Source>, query: Query, storage: Storage, k: nat, i: nat)
    requires k <= i < |srcs| && Actionable(host, srcs[i], query, storage)
    requires forall j :: k <= j < i ==> !Actionable(host, srcs[j], query, storage)
    ensures FirstActionable(host, srcs, query, storage, k) == Some(i)
    decreases i - k
  {
    if k < i {
      FirstActionableIs(host, srcs, query, storage, k + 1, i);
    }
  }

  /** Once the guards pass and no source is actionable, only the fallback
      can navigate, to the fixed URL with query and storage untouched. */
  lemma DecideFallback(host: Host, path: string, query: Query, storage: Storage,
                       user: Option<User>, dom: Dom, now: int, later: int)
    requires !OnSignupPath(path) && dom.signupFormCount == 0 && user.Some?
    requires forall k :: 0 <= k < |Priorities| ==> !Actionable(host, Priorities[k], query, storage)
    ensures Decide(host, path, query, storage, user, dom, now, later)
         == if HasCompletedRegistration(user, path, dom, now) && Below(AccountAge(user.value, later), FallbackWindowMs)
            then Navigate(FallbackUrl, query, storage)
            else Stay
  {
    assert FirstActionable(host, Priorities, query, storage, 0) == None;
  }

  /** The handler navigates exactly when no guard blocks, some source is
      actionable and registration is complete. */
  lemma NavigatesIff(host: Host, path: string, query: Query, storage: Storage,
                     user: Option<User>, dom: Dom, now: int, later: int)
    requires now <= later
    ensures Decide(host, path, query, storage, user, dom, now, later).Navigate? <==>
      && !OnSignupPath(path) && dom.signupFormCount == 0 && user.Some?
      && FirstActionable(host, Priorities, query, storage, 0).Some?
      && HasCompletedRegistration(user, path, dom, now)
  {
    if FirstActionable(host, Priorities, query, storage, 0).None? {
      FallbackNeverFires(host, path, query, storage, user, dom, now, later);
    }
  }

  /** The navigation target is the value of the first actionable source:
      truthy and allowed. Priorities 1 to 4 strip their parameters and leave
      storage alone; priority 5 removes only the stored key and leaves the
      query alone. */
  lemma NavigationFollowsPriority(host: Host, path: string, query: Query, storage: Storage,
                                  user: Option<User>, dom: Dom, now: int, later: int)
    requires now <= later
    requires Decide(host, path, query, storage, user, dom, now, later).Navigate?
    ensures var d := Decide(host, path, query, storage, user, dom, now, later);
      var i := FirstActionable(host, Priorities, query, storage, 0).value;
      && d.url != ""
      && IsAllowedDomain(host, d.url)
      && d.url == CandidateOf(Priorities[i], query, storage).value
      && (i < 3 ==> d.query == DeleteEach(query, DirectSignupParams) && d.storage == storage)
      && (i == 3 ==> d.query == DeleteEach(query, LegacyParams) && d.storage == storage)
      && (i == 4 ==> d.query == query && d.storage == storage - {StorageKey})
  {
    NavigatesIff(host, path, query, storage, user, dom, now, later);
    var i := FirstActionable(host, Priorities, query, storage, 0).value;
    DecideAt(host, path, query, storage, user, dom, now, later, i);
    assert Actionable(host, Priorities[i], query, storage);
  }

  /** Stripping before navigation removes the consumed parameters and keeps
      every other parameter, in order, with its values. */
  lemma StrippingKeepsOtherParams(host: Host, path: string, query: Query, storage: Storage,
                                  user: Option<User>, dom: Dom, now: int, later: int)
    requires now <= later
    requires Decide(host, path, query, storage, user, dom, now, later).Navigate?
    ensures var d := Decide(host, path, query, storage, user, dom, now, later);
      var i := FirstActionable(host, Priorities, query, storage, 0).value;
      var stripped := if i < 3 then DirectSignupParams else if i == 3 then LegacyParams else [];
      && IsSubsequence(d.query, query)
      && (forall n :: n in stripped ==> Get(d.query, n).None?)
      && (forall m :: m !in stripped ==> GetAll(d.query, m) == GetAll(query, m))
  {
    NavigationFollowsPriority(host, path, query, storage, user, dom, now, later);
    var i := FirstActionable(host, Priorities, query, storage, 0).value;
    var stripped := if i < 3 then DirectSignupParams else if i == 3 then LegacyParams else [];
    DeleteEachKeepsOthers(query, stripped);
  }

  // ---------------------------------------------------------------------------
  // The initial-load store block

  /** The parameters of the `||` chain, in order. */
  const InitialParams: seq<string> :=
    ["return_url", "original_redirect", "original_url", "saml_redirect", "return_to", "returnTo"]

  /** `get(n1) || get(n2) || ...`: the first truthy value, or None where the
      chain's value is falsy. */
  function FirstTruthy(query: Query, names: seq<string>): (r: Option<string>)
    ensures r.Some? ==> Truthy(r)
    ensures r.Some? ==> exists i :: 0 <= i < |names| && Get(query, names[i]) == r
                                    && forall j :: 0 <= j < i ==> !Truthy(Get(query, names[j]))
    ensures r.None? ==> forall i :: 0 <= i < |names| ==> !Truthy(Get(query, names[i]))
  {
    if names == [] then None
    else if Truthy(Get(query, names[0])) then Get(query, names[0])
    else
      var r := FirstTruthy(query, names[1..]);
      if r.Some? then
        var i :| 0 <= i < |names[1..]| && Get(query, names[1..][i]) == r
                 && forall j :: 0 <= j < i ==> !Truthy(Get(query, names[1..][j]));
        assert forall j :: 0 <= j < i + 1 ==> !Truthy(Get(query, names[j])) by {
          forall j | 0 <= j < i + 1 ensures !Truthy(Get(query, names[j])) {
            if j > 0 {
              assert names[j] == names[1..][j - 1];
            }
          }
        }
        assert names[i + 1] == names[1..][i];
        r
      else
        assert forall i :: 1 <= i < |names| ==> names[i] == names[1..][i - 1];
        r
  }

  /** The storage after the initial-load block: the first truthy value of
      the chain is stored when it is allowed; a disallowed first value stores
      nothing even when a later parameter holds an allowed one. */
  function StoreOnLoad(host: Host, query: Query, storage: Storage): (r: Storage)
    ensures forall k :: k != StorageKey ==> (k in r <==> k in storage) && (k in r ==> r[k] == storage[k])
    ensures r != storage ==> StorageKey in r && FirstTruthy(query, InitialParams) == Some(r[StorageKey])
    ensures var first := FirstTruthy(query, InitialParams);
      r != storage <== first.Some? && IsAllowedDomain(host, first.value)
                       && (StorageKey !in storage || storage[StorageKey] != first.value)
    ensures var first := FirstTruthy(query, InitialParams);
      first.Some? && !IsAllowedDomain(host, first.value) ==> r == storage
  {
    var first := FirstTruthy(query, InitialParams);
    if first.Some? && IsAllowedDomain(host, first.value) then storage[StorageKey := first.value]
    else storage
  }

  /** Whatever the initial-load block stores is allowed. */
  lemma StoredOnLoadIsAllowed(host: Host, query: Query, storage: Storage)
    requires StoreOnLoad(host, query, storage) != storage
    ensures IsAllowedDomain(host, StoreOnLoad(host, query, storage)[StorageKey])
  {
  }

  // ---------------------------------------------------------------------------
  // The page the handler runs on

  /** The browser state the handler reads and changes: the location's path
      and query, localStorage, and the last URL assigned to
      `window.location.href` (None while nothing was assigned). */
  class Page {
    const path: string
    var query: Query
    var storage: Storage
    var location: Option<string>

    constructor (path: string, query: Query, storage: Storage)
      ensures this.path == path && this.query == query && this.storage == storage
      ensures location == None
    {
      this.path := path;
      this.query := query;
      this.storage := storage;
      location := None;
    }

    /** `handleRedirect()`: the cascade of early returns. */
    method HandleRedirect(host: Host, user: Option<User>, dom: Dom, now: int, later: int)
      modifies this
      ensures match Decide(host, path, old(query), old(storage), user, dom, now, later)
        case Stay => query == old(query) && storage == old(storage) && location == old(location)
        case Navigate(url, q, st) => query == q && storage == st && location == Some(url)
    {
      // Priority 0: never act on a signup page, with signup forms, or without a user
      if OnSignupPath(path) || dom.signupFormCount > 0 || user.None? {
        GuardsPreventAnyAction(host, path, query, storage, user, dom, now, later);
        return;
      }
      // Priorities 1 to 5
      var handled := TryPriorities(host, user, dom, now);
      if handled {
        return;
      }

      // Priority 6: the fallback for recently registered users
      if HasCompletedRegistration(user, path, dom, now) {
        var age := AccountAge(user.value, later);
        if Below(age, FallbackWindowMs) {
          location := Some(FallbackUrl);
          return;
        }
      }
    }

    /** Priorities 1 to 5 of `handleRedirect`: the run ends (`handled`) at
        the first source whose value is truthy and allowed. */
    method TryPriorities(host: Host, user: Option<User>, dom: Dom, now: int) returns (handled: bool)
      modifies this
      ensures var first := FirstActionable(host, Priorities, old(query), old(storage), 0);
        && handled == first.Some?
        && if handled && HasCompletedRegistration(user, path, dom, now) then
             && (query, storage) == Consume(Priorities[first.value], old(query), old(storage))
             && location == Some(CandidateOf(Priorities[first.value], old(query), old(storage)).value)
           else query == old(query) && storage == old(storage) && location == old(location)
    {
      if Actionable(host, Priorities[0], query, storage) {
        FirstActionableIs(host, Priorities, query, storage, 0, 0);
        FollowSource(host, Priorities[0], user, dom, now);
        return true;
      }
      if Actionable(host, Priorities[1], query, storage) {
        FirstActionableIs(host, Priorities, query, storage, 0, 1);
        FollowSource(host, Priorities[1], user, dom, now);
        return true;
      }
      if Actionable(host, Priorities[2], query, storage) {
        FirstActionableIs(host, Priorities, query, storage, 0, 2);
        FollowSource(host, Priorities[2], user, dom, now);
        return true;
      }
      if Actionable(host, Priorities[3], query, storage) {
        FirstActionableIs(host, Priorities, query, storage, 0, 3);
        FollowSource(host, Priorities[3], user, dom, now);
        return true;
      }
      if Actionable(host, Priorities[4], query, storage) {
        FirstActionableIs(host, Priorities, query, storage, 0, 4);
        FollowSource(host, Priorities[4], user, dom, now);
        return true;
      }
      return false;
    }

    /** The body of one priority once its value is truthy and allowed: wait
        while registration is incomplete; otherwise strip the source's
        consumed state (`searchParams.delete` and `history.replaceState`,
        or `localStorage.removeItem`) and navigate to the value. */
    method FollowSource(host: Host, src: Source, user: Option<User>, dom: Dom, now: int)
      requires Truthy(CandidateOf(src, query, storage))
      modifies this
      ensures if HasCompletedRegistration(user, path, dom, now) then
          && (query, storage) == Consume(src, old(query), old(storage))
          && location == Some(CandidateOf(src, old(query), old(storage)).value)
        else query == old(query) && storage == old(storage) && location == old(location)
    {
      var candidate := CandidateOf(src, query, storage);
      if !HasCompletedRegistration(user, path, dom, now) {
        return;
      }
      match src {
        case Param(_, names) =>
          query := DeleteEach(query, names);
        case Stored(key) =>
          storage := storage - {key};
      }
      location := Some(candidate.value);
    }

    /** The initial-load block: store the first truthy redirect parameter in
        localStorage when it is allowed. */
    method StoreInitialRedirect(host: Host)
      modifies this
      ensures storage == StoreOnLoad(host, old(query), old(storage))
      ensures query == old(query) && location == old(location)
    {
      var originalUrl := FirstTruthy(query, InitialParams);
      if Truthy(originalUrl) && IsAllowedDomain(host, originalUrl.value) {
        storage := storage[StorageKey := originalUrl.value];
      }
    }
  }
}
