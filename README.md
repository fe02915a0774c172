# OAuth2 / community-signup redirect handlers, modelled in Dafny

A Discourse theme sends users back to the partner site they came from once
they finish signing up or logging in. The theme has two independent scripts,
and each one has its own module here:

- **`SignupRedirect`** (`signup_redirect.dfy`) models the Discourse
  initializer `javascripts/discourse/initializers/oauth2-redirect.js`.
  - `handleRedirect` checks three guards: a signup path, signup forms on the
    page, and no current user.
  - It then looks at four query parameters and one localStorage key, in a
    fixed priority order. The first value that is truthy and allowed wins.
  - It navigates to that value only when `hasCompletedRegistration` holds.
    Before navigating it strips the consumed parameters, or removes the
    stored key.
  - A block on initial load stores the first truthy redirect parameter when
    its domain is allowed.
  - The allowlist is a hostname-substring test that never looks at the
    protocol.
- **`AssetRedirect`** (`asset_redirect.dfy`) models the standalone script
  `assets/oauth2-redirect.js`.
  - `getRedirectUrl` tries three query parameters, each passed through
    `decodeURIComponent`, then the stored URL, then the referrer.
  - `storeRedirectUrl`, `clearRedirectUrl` and `performRedirect` change
    localStorage and schedule the navigation.
  - `initializeOAuth2Redirect` redirects a logged-in user with a pending
    URL. Otherwise it installs a watcher that redirects when the href
    changes to a profile page.
  - The allowlist requires an exact hostname and `https:`, except for the
    referrer, which is checked on hostname alone.

Shared modules:

- `Js` (`js.dfy`): optional values, string truthiness, `includes`, and
  `trim` with the ECMAScript whitespace set.
- `Urls` (`urls.dfy`): the parsed URL record and the parser and decoder
  types.
- `SearchParams` (`search_params.dfy`): `URLSearchParams` modelled as an
  ordered list of pairs.
- `LocalStorage` (`local_storage.dfy`): localStorage modelled as a map.

How the browser and the outside world are represented:

- **Parsing and decoding.** `new URL(...)` and `decodeURIComponent` enter as
  function-valued fields of a `Host` record. A result of None means the call
  throws. Every property below therefore holds for any parser and decoder.
- **Clock and user.** The clock readings and the user snapshot are
  parameters.
- **DOM queries.** Their results are plain inputs: `Dom` in one module,
  `loginSuccess` in the other.
- **Browser state.** It lives in `Page` objects whose methods update the
  query, localStorage, the assigned `window.location.href`, and (in the
  asset script) the timeouts scheduled by `performRedirect`.

Three behaviours of the code that a reader may not expect:

- **No scheme check in the initializer.** Its allowlist never checks the
  scheme. Lemmas: `SignupRedirect.AllowlistIgnoresScheme`,
  `SignupRedirect.SubstringMatchAdmitsLookalikes`.
- **A decode failure is fatal.** In the asset script,
  `decodeURIComponent` is called outside any `try`. A malformed escape
  therefore aborts `getRedirectUrl` and the whole initialisation, rather
  than skipping that channel. This is modelled as `Lookup.Threw`.
- **An empty domain list is used as-is.** In both scripts a configured
  `whitelisted_domains` that is an empty array is truthy, so it replaces the
  defaults and then allows nothing.

One consequence of the initializer's constants is proved rather than
assumed: `SignupRedirect.FallbackNeverFires`. The "recent registration"
fallback to `https://vastdatacustomers.mindtickle.com` needs an account
younger than ten minutes. The registration check it sits behind needs an
account at least fifteen minutes old, or of unknown age, for which the
ten-minute test is false too. So the fallback can never fire while the clock
does not run backwards.

## Model

| member | source | states |
|---|---|---|
| Js.Includes | javascripts/discourse/initializers/oauth2-redirect.js:33 | `s.includes(sub)`: `sub` is a prefix of `s` or of one of its suffixes |
| Js.Trim | javascripts/discourse/initializers/oauth2-redirect.js:80 | `s.trim()`: whitespace stripped from both ends |
| Js.IncludesIffOccurs | javascripts/discourse/initializers/oauth2-redirect.js:33 | `includes` as modelled holds exactly when the substring occurs at some index |
| Js.IncludesExtend | javascripts/discourse/initializers/oauth2-redirect.js:33 | a hostname that contains an entry still contains it after any suffix is appended |
| Js.IncludesPrepend | javascripts/discourse/initializers/oauth2-redirect.js:33 | a hostname that contains an entry still contains it after any prefix is prepended |
| Js.TrimStart | javascripts/discourse/initializers/oauth2-redirect.js:80 | the result is a suffix of the input, starts with a non-whitespace character, and only whitespace was removed |
| Js.TrimEnd | javascripts/discourse/initializers/oauth2-redirect.js:80 | the result is a prefix of the input, ends with a non-whitespace character, and only whitespace was removed |
| Js.TrimEmptyIffBlank | javascripts/discourse/initializers/oauth2-redirect.js:80 | `name.trim() === ''` holds exactly when every character of the name is ECMAScript whitespace |
| SearchParams.Get | javascripts/discourse/initializers/oauth2-redirect.js:139 | `params.get(name)`: the value of the first pair with that name, or null |
| SearchParams.GetIsFirst | javascripts/discourse/initializers/oauth2-redirect.js:139 | `get` yields null exactly when the name is absent, and otherwise the value of the first pair with that name |
| SearchParams.Delete | javascripts/discourse/initializers/oauth2-redirect.js:152 | the pairs left are exactly those whose name differs, and none is added |
| SearchParams.DeleteKeepsOthers | javascripts/discourse/initializers/oauth2-redirect.js:152 | deleting a name keeps the other pairs in order, leaves no value for the name, and leaves every other name's values unchanged |
| SearchParams.DeleteAbsent | javascripts/discourse/initializers/oauth2-redirect.js:152 | deleting a name that is absent leaves the query unchanged |
| SearchParams.DeleteEachKeepsOthers | javascripts/discourse/initializers/oauth2-redirect.js:151-155 | after the chain of deletions every deleted name is absent, the other pairs keep their order, and names not deleted keep all their values |
| SearchParams.SubsequenceTransitive | javascripts/discourse/initializers/oauth2-redirect.js:151-155 | keeping pairs in order composes across successive deletions |
| LocalStorage.GetItem | assets/oauth2-redirect.js:67 | null exactly when the key is absent, otherwise the stored value |
| SignupRedirect.AllowedDomains | javascripts/discourse/initializers/oauth2-redirect.js:16-26 | the configured list whenever the setting is present, even when empty; otherwise the three built-in domains |
| SignupRedirect.IsAllowedDomain | javascripts/discourse/initializers/oauth2-redirect.js:29-38 | `isAllowedDomain(url)`: false when the URL does not parse, otherwise whether some allowlist entry occurs in the hostname; the protocol is never read |
| SignupRedirect.SomeIncludedIff | javascripts/discourse/initializers/oauth2-redirect.js:33 | `some(domain => hostname.includes(domain))` holds exactly when some entry of the list occurs in the hostname |
| SignupRedirect.AllowedDomainIff | javascripts/discourse/initializers/oauth2-redirect.js:29-38 | a URL is allowed exactly when it parses and some allowlist entry occurs in its hostname |
| SignupRedirect.UnparseableNotAllowed | javascripts/discourse/initializers/oauth2-redirect.js:29-38 | a string the URL constructor rejects is never allowed |
| SignupRedirect.AllowlistIgnoresScheme | javascripts/discourse/initializers/oauth2-redirect.js:29-38 | two URLs with the same hostname get the same verdict whatever their protocols |
| SignupRedirect.SubstringMatchAdmitsLookalikes | javascripts/discourse/initializers/oauth2-redirect.js:33 | with the built-in list, any plain-http hostname that merely contains `mindtickle.com` is allowed |
| SignupRedirect.IsOnRegistrationPage | javascripts/discourse/initializers/oauth2-redirect.js:41-51 | `isOnRegistrationPage()`: the path contains `/signup`, `/register` or `/create-account`, or a signup form or signup button is on the page |
| SignupRedirect.SignupFormPreventsAnyAction | javascripts/discourse/initializers/oauth2-redirect.js:41-51 | on a page where every matched signup form element is also counted, such an element alone keeps the handler from acting |
| SignupRedirect.HasCompletedRegistration | javascripts/discourse/initializers/oauth2-redirect.js:54-101 | `hasCompletedRegistration(user)`: the seven checks in source order, any of which returns false, with NaN ages passing the age check |
| SignupRedirect.AccountAge | javascripts/discourse/initializers/oauth2-redirect.js:70-72 | the age is known exactly when the creation time is, and creation time plus age equals the current reading |
| SignupRedirect.CompletedRegistrationIff | javascripts/discourse/initializers/oauth2-redirect.js:54-101 | registration counts as complete exactly when there is a user with a username and a non-blank name, no signup path, form or button, and an account not known to be younger than 15 minutes |
| SignupRedirect.UnknownCreationTimeIsLenient | javascripts/discourse/initializers/oauth2-redirect.js:70-77 | with an unparseable creation date, the verdict does not depend on the clock because the NaN comparison is false |
| SignupRedirect.CompletedAccountIsMature | javascripts/discourse/initializers/oauth2-redirect.js:69-77 | a completed registration has a user whose account is not younger than 15 minutes |
| SignupRedirect.FirstActionable | javascripts/discourse/initializers/oauth2-redirect.js:137-255 | the chosen priority is truthy and allowed, every earlier one is not, and None means no priority is |
| SignupRedirect.FirstActionableIs | javascripts/discourse/initializers/oauth2-redirect.js:137-255 | a truthy, allowed source with no truthy, allowed source before it is the one chosen |
| SignupRedirect.Consume | javascripts/discourse/initializers/oauth2-redirect.js:150-155 | the state a priority strips before navigating: its parameters deleted in turn (152-154, 227-228), or the stored key removed (249) |
| SignupRedirect.Decide | javascripts/discourse/initializers/oauth2-redirect.js:104-280 | `handleRedirect()` as a decision: the three guards, then the first truthy and allowed source, navigating only with a completed registration, then the ten-minute fallback |
| SignupRedirect.GuardsPreventAnyAction | javascripts/discourse/initializers/oauth2-redirect.js:107-131 | on a signup path, with signup forms, or without a user, the handler does nothing |
| SignupRedirect.IncompleteRegistrationWaits | javascripts/discourse/initializers/oauth2-redirect.js:144-148 | an actionable source with an incomplete registration ends the run with no change, and later sources are not consulted |
| SignupRedirect.FallbackNeverFires | javascripts/discourse/initializers/oauth2-redirect.js:257-277 | with no actionable source and a clock that does not run backwards, the ten-minute fallback never navigates |
| SignupRedirect.DecideFallback | javascripts/discourse/initializers/oauth2-redirect.js:257-277 | once the guards pass and no source is actionable, only the fallback can navigate, to the fixed URL with query and storage untouched |
| SignupRedirect.DecideAt | javascripts/discourse/initializers/oauth2-redirect.js:137-255 | once the guards pass and source i is the first actionable one, the handler navigates to its value with its state consumed if and only if registration is complete |
| SignupRedirect.NavigatesIff | javascripts/discourse/initializers/oauth2-redirect.js:104-280 | the handler navigates exactly when no guard blocks, some source is actionable, and registration is complete |
| SignupRedirect.NavigationFollowsPriority | javascripts/discourse/initializers/oauth2-redirect.js:137-255 | the target is the non-empty, allowed value of the first actionable source; priorities 1-3 strip return_url/oauth2_redirect/origin, priority 4 strips original_redirect/redirect_count, and priority 5 removes only the stored key |
| SignupRedirect.StrippingKeepsOtherParams | javascripts/discourse/initializers/oauth2-redirect.js:150-155 | the stripped query keeps every other parameter in order with its values, and the stripped names are gone |
| SignupRedirect.FirstTruthy | javascripts/discourse/initializers/oauth2-redirect.js:315-320 | the `\|\|` chain yields the first truthy parameter value in order, or nothing when every one is falsy |
| SignupRedirect.StoreOnLoad | javascripts/discourse/initializers/oauth2-redirect.js:315-325 | only the redirect key can change; it is set to the chain's first truthy value when that value is allowed; a disallowed first value stores nothing |
| SignupRedirect.StoredOnLoadIsAllowed | javascripts/discourse/initializers/oauth2-redirect.js:322-325 | whatever the initial-load block stores passes the allowlist |
| SignupRedirect.Page.HandleRedirect | javascripts/discourse/initializers/oauth2-redirect.js:104-280 | the new query, storage and location are exactly those of the decision; Stay changes nothing |
| SignupRedirect.Page.TryPriorities | javascripts/discourse/initializers/oauth2-redirect.js:137-255 | the run ends exactly when some source is actionable; the page then navigates to the first actionable source's value with its state consumed when registration is complete, and otherwise nothing changes |
| SignupRedirect.Page.FollowSource | javascripts/discourse/initializers/oauth2-redirect.js:144-160 | with registration complete the source's parameters or stored key are removed and the location becomes its value; otherwise nothing changes |
| SignupRedirect.Page.StoreInitialRedirect | javascripts/discourse/initializers/oauth2-redirect.js:307-325 | storage becomes the initial-load result, and nothing else changes |
| AssetRedirect.AllowedDomains | assets/oauth2-redirect.js:8-17 | the configured list whenever the setting is present, otherwise the two built-in domains |
| AssetRedirect.RedirectDelay | assets/oauth2-redirect.js:20-25 | the configured delay when it is present and non-zero, otherwise 1000 ms; never 0 |
| AssetRedirect.DebugEnabled | assets/oauth2-redirect.js:28-33 | on exactly when the setting is true |
| AssetRedirect.IsValidRedirectUrl | assets/oauth2-redirect.js:43-51 | `isValidRedirectUrl(url)`: the URL parses, its hostname is exactly an allowed domain, and its protocol is `https:` |
| AssetRedirect.ReferrerAccepted | assets/oauth2-redirect.js:73-83 | the referrer test: non-empty, parses, and its hostname is exactly an allowed domain, whatever the protocol |
| AssetRedirect.OffListHostnameRejected | assets/oauth2-redirect.js:43-51 | every URL whose hostname is not exactly an allowed domain is rejected, whatever its protocol |
| AssetRedirect.NonHttpsRejected | assets/oauth2-redirect.js:43-51 | every URL whose protocol is not `https:` is rejected, whatever its hostname |
| AssetRedirect.ValidImpliesReferrerAccepted | assets/oauth2-redirect.js:72-83 | a non-empty valid redirect URL also passes the weaker referrer test |
| AssetRedirect.ExactHttpsMatchOnly | assets/oauth2-redirect.js:43-51 | an example with the built-in list: a hostname that merely contains an allowed domain is rejected, and so is plain http on an allowed domain |
| AssetRedirect.ParamLookup | assets/oauth2-redirect.js:57-64 | a found URL is valid and is the decoded value of the first parameter not skipped; a decode failure throws at the first truthy parameter reached; none found exactly when every parameter is falsy or decodes to an invalid URL |
| AssetRedirect.RedirectUrl | assets/oauth2-redirect.js:54-86 | `getRedirectUrl()`: the parameter loop's result when it finds or throws, else a valid stored URL, else an accepted referrer, else null |
| AssetRedirect.RedirectUrlIsValidOrReferrer | assets/oauth2-redirect.js:54-86 | every URL returned is valid, except an accepted referrer |
| AssetRedirect.ParametersComeFirst | assets/oauth2-redirect.js:54-86 | a parameter hit is returned unchanged and is valid; storage and referrer are consulted only when every parameter is skipped |
| AssetRedirect.StoredThenReferrer | assets/oauth2-redirect.js:66-85 | with no parameter hit, a valid stored URL is returned; otherwise a URL is returned exactly when the referrer is accepted |
| AssetRedirect.UnparseableReferrerIgnored | assets/oauth2-redirect.js:73-83 | a referrer the parser rejects is never returned, and with nothing else the result is null |
| AssetRedirect.ReferrerReturnedWithoutSchemeCheck | assets/oauth2-redirect.js:66-83 | in any state with no usable parameter and no pending redirect, a non-empty referrer on an allowed hostname is returned whatever its protocol, and a non-https one is not a valid redirect URL |
| AssetRedirect.ReferrerSkipsSchemeCheck | assets/oauth2-redirect.js:73-83 | an example with the built-in list and an empty query and storage: a plain-http referrer on an allowed hostname is returned although it is not a valid redirect URL |
| AssetRedirect.StoreResult | assets/oauth2-redirect.js:89-94 | storage changes only by setting the key to a truthy, valid URL; it is set whenever the URL is truthy and valid, and an empty or invalid URL leaves storage unchanged |
| AssetRedirect.NonHttpsNeverStored | assets/oauth2-redirect.js:89-94 | a URL that parses with a protocol other than https is never stored |
| AssetRedirect.LoggedIn | assets/oauth2-redirect.js:156 | `window.currentUser && window.currentUser.id`: a user whose id is present and non-zero |
| AssetRedirect.StorageAfterLookup | assets/oauth2-redirect.js:148-153 | a found URL is offered to the store and nothing else changes storage |
| AssetRedirect.LookupStoresOnlyValid | assets/oauth2-redirect.js:148-153 | after the first step storage is unchanged, or holds the found URL, which is valid |
| AssetRedirect.Page.GetRedirectUrl | assets/oauth2-redirect.js:54-86 | the loop and fallbacks return exactly the lookup result defined above |
| AssetRedirect.Page.StoreRedirectUrl | assets/oauth2-redirect.js:89-94 | storage becomes the store result, and nothing else changes |
| AssetRedirect.Page.ClearRedirectUrl | assets/oauth2-redirect.js:97-99 | only the redirect key is removed |
| AssetRedirect.Page.PerformRedirect | assets/oauth2-redirect.js:130-141 | the key is removed and one navigation to exactly the URL is scheduled with the configured delay |
| AssetRedirect.Page.FireTimer | assets/oauth2-redirect.js:138-140 | a scheduled timeout sets the location to its URL and is consumed |
| AssetRedirect.Page.Initialize | assets/oauth2-redirect.js:144-198 | a decode failure aborts with no change; otherwise a found URL is stored if valid, a logged-in user with a pending valid URL gets it scheduled with no watcher installed, and anyone else gets a fresh watcher at the current href |
| AssetRedirect.Page.OnContentLoaded | assets/oauth2-redirect.js:167-180 | on a login-success indicator a pending valid URL is redirected to; otherwise nothing changes |
| AssetRedirect.OnProfilePage | assets/oauth2-redirect.js:189 | the href contains `/u/` or `/users/` |
| AssetRedirect.Watcher.Poll | assets/oauth2-redirect.js:184-197 | the watcher remembers the current href; a pending valid URL is redirected to only when the href changed to one containing `/u/` or `/users/` |
| AssetRedirect.PollTwice | assets/oauth2-redirect.js:184-197 | two ticks with no navigation between them schedule at most one redirect |

## Left out

- Logging: `console.log`, `debugLog` and the messages they print. `DebugEnabled` is modelled but gates only logging.
- `showMessage`: the temporary banner is DOM decoration and has no bearing on the redirect decision.
- When either script's handlers run is left out; each handler is a method the environment calls. In the initializer, `handleRedirect` is scheduled with `setTimeout` after 3 minutes from `api.onPageChange` and the `user:logged-in` event and after 5 minutes on initial load and from the `user:registered` event (javascripts/discourse/initializers/oauth2-redirect.js:283-303). In the asset script, initialisation runs on DOMContentLoaded or at once and again on `load`, the watcher polls every second with `setInterval`, and `performRedirect` navigates after the configured delay with `setTimeout`. None of these delays is modelled.
- The order in which several scheduled timeouts fire is left out: `FireTimer` takes the index of the one that fires.
- `window.history.replaceState` is modelled as replacing the page's query. URL serialisation is not modelled.
- `new URL`, `decodeURIComponent` and `new Date(...).getTime()` are parameters, not implementations. The parser is assumed to lower-case hostnames. Percent-decoding by `URLSearchParams` itself is taken as already done, so query values are decoded strings.
- DOM queries (`querySelector`, `querySelectorAll`, the login-success indicators) enter as booleans and counts.
- Setting types: `whitelisted_domains` is modelled as a list of strings. A string-valued setting is not modelled. In the asset script `allowedDomains.includes(hostname)` would then be a substring test on that string (assets/oauth2-redirect.js:47). In the initializer `.some` does not exist on a string, so the TypeError is caught and every URL is disallowed (javascripts/discourse/initializers/oauth2-redirect.js:33-37).
- AssetRedirect.RedirectDelay: only integer settings. NaN and non-numeric values are not modelled, and a negative delay is passed through as `setTimeout` receives it.
- AssetRedirect.LoggedIn: `window.currentUser.id` truthiness is modelled as present and non-zero. Non-numeric ids are not modelled.
- AssetRedirect.Page.Initialize: the returned watcher stands for both listeners installed at that point, the DOMContentLoaded one (`OnContentLoaded`) and the interval (`Watcher.Poll`). Running the initialisation twice (on DOMContentLoaded and again on `load`) is two calls of the method, not a separate operation.
- The user snapshot keeps only `username`, `name` and `created_at`. `email` is read only for logging.
- No `state` decoding, JSON-blob channel or attempt counter appears in either script.
