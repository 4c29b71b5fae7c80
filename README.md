# FIVEWebFormAuthWithSSO, modelled in Dafny

This project models the authentication plugin `FIVEWebFormAuthWithSSO` of the FIVE app
(`src/plugin.ts`). Its `authenticate()` does the following:

- It validates the profile.
- It chooses the package-server or the data-server base URL from the profile's `server_type`.
- It opens that URL in an in-app browser and waits for one of three browser events:
  - a page load (`loadstop`) whose cookie string carries a cookie named in the `cookienames` setting;
  - a load error (`loaderror`);
  - the user closing the browser (`exit`).
- Once the session has resolved, it runs the internal FIVE login. The whole wait-and-login part runs inside an error boundary:
  - a `FusionError` is logged and re-thrown;
  - any other error is wrapped in a 403 `WebFormAuthError`, logged and swallowed.
- `cleanup()` clears the HTTP cookies.

The modules follow the structure of the code:

- `JsStrings` (`js_strings.dfy`): the ECMAScript string operations the plugin uses:
  - `trim`, with the full WhiteSpace and LineTerminator set;
  - `split` with a one-character separator, and its inverse `join`;
  - `startsWith` and `includes`.
- `Host` (`host.dfy`): what the plugin sees of the FIVE host:
  - `FusionError`, and the values `authenticate()` can throw;
  - the value held by `outputs[0]`;
  - one `Effect` constructor for each host call the model records: opening and closing the browser, removing the `exit` listener, `setCookie`, writing `outputs[0].value`, the internal login, logging an error, and clearing cookies. Host calls that are not recorded are listed under "## Left out".
- `Settings` (`settings.dfy`): the profile fields that are read, and the URL role chosen at line 59.
- `Cookies` (`cookies.dfy`):
  - `getCookieNames`;
  - the expression in `onLoadStop` that picks the matching cookies out of the browser's cookie string.
- `SessionSpec` (`session_spec.dfy`): the promise around the three listeners, as a pure state machine. It states which event settles the session and which host calls that event makes.
- `Lifecycle` (`lifecycle.dfy`): the `try`/`catch` boundary, and `Authentication`, which gives the result, the final output and the host calls of a whole `authenticate()` call.
- `WebFormAuth` (`web_form_auth.dfy`): the imperative part, with two classes:
  - `Plugin`, whose fields are `outputs[0].value` and the log of host calls;
  - `BrowserSession`, whose fields are the promise state and whether the `exit` listener is registered. Its event-handler methods change the state, the plugin's output and the host-call log in place.

  Each method is proved against the matching `SessionSpec` or `Lifecycle` function.
- `Scenarios` (`scenarios.dfy`): end-to-end runs, stated for any name and cookie string and then for the default `SAP_SESSIONID`.

Three behaviours of the code are easy to miss:

- Empty cookie names are kept. `"a,,b"`, a trailing comma and a missing setting all produce `""` among the names. This holds even though `cookienames` is declared required, with the default `SAP_SESSIONID` (src/plugin.ts:35 and :39). When there is a cookie string, the empty name matches its trimmed first segment unless that segment is blank (`Cookies.MatchEmptyName`). So with the setting `"SAP_SESSIONID,"`, any page whose first cookie is non-blank resolves the session.
- When the login request after a resolved session throws something that is not a `FusionError`, `authenticate()` returns the outputs. At that point they still hold the raw cookie string written at line 97 (`Lifecycle.HandshakeFailureKeepsCookieString`).
- Errors raised before the `try` block escape without being wrapped. These are:
  - a failure of `validateAndRequest`;
  - the `TypeError` thrown by `data.server_type.includes` when the profile has no `server_type`.

  So not every error that escapes `authenticate()` is a `FusionError` (`Lifecycle.SetupErrorsEscape`).

## Model

| member | source | states |
|---|---|---|
| JsStrings.Trim | src/plugin.ts:139 | the trim of a string has no white space at either end |
| JsStrings.TrimIsTrimOf | src/plugin.ts:139 | `trim` removes only white space, and only from the two ends |
| JsStrings.TrimAround | src/plugin.ts:139 | white space around a trimmed string is exactly what `trim` removes |
| JsStrings.TrimIsUnique | src/plugin.ts:139 | the trim is the only trimmed string that the input holds between white space |
| JsStrings.TrimKeepsTrimmed | src/plugin.ts:85 | a string with no white space at either end is its own trim |
| JsStrings.TrimIdempotent | src/plugin.ts:85 | trimming twice is trimming once (the `find` test trims, and so does the value it returns) |
| JsStrings.Split | src/plugin.ts:138 | `split` returns at least one piece, and no piece contains the separator |
| JsStrings.SplitCount | src/plugin.ts:138 | `split` returns one piece per separator, plus one |
| JsStrings.JoinSplit | src/plugin.ts:82 | joining the pieces of a split gives back the string |
| JsStrings.SplitSeparatorFree | src/plugin.ts:82 | a separator-free prefix becomes part of the first piece |
| JsStrings.SplitJoin | src/plugin.ts:138 | splitting a join of separator-free pieces gives back the pieces |
| JsStrings.Includes | src/plugin.ts:59 | `includes` holds exactly when the substring starts at some position |
| JsStrings.StartsWith | src/plugin.ts:85 | `startsWith`: the prefix is no longer than the string and equals its first characters; used by `Cookies.FindFirst`, `Cookies.Hits` and `JsStrings.Includes` |
| Settings.BaseUrlRequest | src/plugin.ts:59 | the package-server role is chosen iff the server type is `pkgServer` or contains `package`; `forced` is always true; a missing server type is the TypeError |
| Settings.RoleExamples | src/plugin.ts:59 | `pkgServer` and `packageServer` choose the package server; `dataServer` chooses the data server |
| Settings.GetBaseUrl | src/plugin.ts:59 | the URL the resolver gives for the chosen role; `Lifecycle.PendingIff` shows it is the one URL the browser opens |
| Host.LoadFailure | src/plugin.ts:70 | the `loaderror` rejection: the event's message and code with kind `WebFormAuthenticationError` (the `exit` rejection is the constant `Host.AbortError`, line 74); `Scenarios.LoadErrorScenario` proves it is what `authenticate()` throws |
| Host.Wrapped | src/plugin.ts:128 | the 403 `WebFormAuthError` nesting a value that is not a `FusionError`; `Lifecycle.Catch` proves it is what is logged for such a value |
| Cookies.TrimEach | src/plugin.ts:139 | each name is the trim of the piece in the same position |
| Cookies.ConfiguredNames | src/plugin.ts:137 | the `cookienames` setting, or the empty string when the config or the field is missing or empty; its consequence is `Cookies.CookieNamesUnset` |
| Cookies.CookieNames | src/plugin.ts:136-140 | `getCookieNames` returns at least one name, and every name is trimmed |
| Cookies.CookieNamesCount | src/plugin.ts:136-140 | there is one name per comma in the setting, plus one |
| Cookies.CookieNamesUnset | src/plugin.ts:137 | with no config, no `cookienames` or an empty one, the names are exactly `[""]` |
| Cookies.CookieNamesArePieces | src/plugin.ts:136-140 | for a setting that is the comma-join of comma-free pieces, the names are the trimmed pieces, in order |
| Cookies.Segments | src/plugin.ts:82 | no cookie string gives no segments; otherwise the segments re-join to the string |
| Cookies.FindFirst | src/plugin.ts:85 | `find` returns the first position whose trimmed segment starts with the name, or nothing when no segment does |
| Cookies.Lookup | src/plugin.ts:85 | the `find` over the trimmed segments, returned trimmed; characterized by `Cookies.LookupFirstHit`, `Cookies.LookupMiss` and `Cookies.LookupBlankIff` |
| Cookies.Falsy | src/plugin.ts:86 | `undefined` and `""` are the falsy values of a lookup; `Cookies.KeepTruthyEmptyIff` proves that the filter drops exactly those |
| Cookies.LookupAll | src/plugin.ts:84-85 | `map` looks up each configured name, in order |
| Cookies.KeepTruthy | src/plugin.ts:86 | `filter(!!value)` keeps only non-empty values taken from its input |
| Cookies.Match | src/plugin.ts:81-86 | there are at most as many matched cookies as names, and none is empty |
| Cookies.LookupAllAppend | src/plugin.ts:84 | looking up a concatenation of name lists concatenates the lookups |
| Cookies.KeepTruthyAppend | src/plugin.ts:86 | the filter distributes over concatenation |
| Cookies.MatchAppend | src/plugin.ts:84-86 | each name contributes independently and in order |
| Cookies.MatchSingle | src/plugin.ts:84-86 | one name gives its lookup, or nothing if the lookup is falsy |
| Cookies.LookupFirstHit | src/plugin.ts:85 | the lookup returns the trimmed first segment whose trimmed text starts with the name |
| Cookies.LookupMiss | src/plugin.ts:85 | when no trimmed segment starts with the name, the lookup finds nothing |
| Cookies.MatchFirstHitWins | src/plugin.ts:84-86 | for a non-empty name, the match is the first hitting segment, trimmed |
| Cookies.MatchMiss | src/plugin.ts:84-86 | a name that no segment starts with contributes nothing |
| Cookies.MatchEmptyName | src/plugin.ts:84-86 | the empty name picks the trimmed first segment, unless that segment is blank |
| Cookies.MatchUndefined | src/plugin.ts:82 | with no cookie string nothing matches |
| Cookies.MatchEntriesAreSegments | src/plugin.ts:84-86 | each matched cookie is trimmed, is the trim of a segment, and starts with a configured name |
| Cookies.KeepTruthyEmptyIff | src/plugin.ts:86 | the filter returns nothing iff every value is falsy |
| Cookies.LookupBlankIff | src/plugin.ts:85-86 | a lookup is falsy iff no segment hits, or the name is empty and the first segment is blank |
| Cookies.MatchEmptyIff | src/plugin.ts:84-88 | no cookie matches (so the session keeps waiting) iff every name misses |
| SessionSpec.SettleOn | src/plugin.ts:67-101 | an open session succeeds iff a page load yields cookies, and then on that page's cookie string; it stays open iff a page load yields none; exit aborts; a load error fails |
| SessionSpec.Next | src/plugin.ts:66-107 | one event: an open session moves as `SettleOn` says, and a settled promise stays as it is; `SessionSpec.SettledStays` proves the latter for any number of events |
| SessionSpec.After | src/plugin.ts:66-107 | the events applied one at a time with `Next`; `SessionSpec.AfterIsOutcome` proves this equals `Outcome` |
| SessionSpec.Outcome | src/plugin.ts:66-107 | the settlement is decided by the first settling event, or stays `Open`; `SessionSpec.OutcomeAppend` and `SessionSpec.OpenIff` characterize it |
| SessionSpec.SettledStays | src/plugin.ts:66-107 | once the promise has settled, later events do not change it |
| SessionSpec.AfterIsOutcome | src/plugin.ts:66-107 | delivering events one at a time gives the settlement of the first event that settles |
| SessionSpec.FirstSettledAppend | src/plugin.ts:66-107 | the first settling position of a concatenation is the first one of its left part, or failing that, one of its right part |
| SessionSpec.OutcomeAppend | src/plugin.ts:66-107 | events after the settling one change nothing |
| SessionSpec.TransitionsAppend | src/plugin.ts:66-107 | each event is judged on its own |
| SessionSpec.OpenIff | src/plugin.ts:88-101 | the session is still open iff every event so far was a page load with no matching cookie |
| SessionSpec.SetCookies | src/plugin.ts:91-93 | one `setCookie(url, c)` per matched cookie, in order |
| SessionSpec.LoadStopEffects | src/plugin.ts:91-97 | the calls of a matching page: store each cookie, remove the `exit` listener, close, write the raw string; `SessionSpec.LoadStopEffectsOrder` proves the order and the single close |
| SessionSpec.SettleEffects | src/plugin.ts:67-98 | the calls of one event: none for exit and for a non-matching page; `LoadErrorEffects` (remove the listener, close) for a load error; `LoadStopEffects` for a matching page; `SessionSpec.CloseOnce` and `SessionSpec.WaitingIsSilent` are proved about it |
| SessionSpec.FirstSettlingAppend | src/plugin.ts:66-107 | the first settling event of a concatenation is the left part's, or failing that, the right part's shifted by the left part's length |
| SessionSpec.SettledEffectsAppend | src/plugin.ts:66-107 | once the promise has settled, further events add no host calls to the session |
| SessionSpec.OpenEffectsAppend | src/plugin.ts:88-101 | waiting makes no host calls: the calls are those of the events still to come |
| SessionSpec.SessionEffectsAppend | src/plugin.ts:66-107 | the host calls of a session are those of its first settling event, whatever follows |
| SessionSpec.SingleEvent | src/plugin.ts:66-107 | a session of one event settles on it and makes its calls, or stays open and silent |
| SessionSpec.SessionStep | src/plugin.ts:104-106 | an event delivered to a session that is still open settles it on that event alone |
| SessionSpec.SessionRest | src/plugin.ts:66-107 | after the settling prefix, the remaining events change neither the outcome nor the calls |
| SessionSpec.WaitingIsSilent | src/plugin.ts:99-101 | a page load without a matching cookie makes no host call |
| SessionSpec.LoadStopEffectsOrder | src/plugin.ts:91-98 | the matched cookies are stored in order, then the exit listener is removed, the browser closed once, and the raw string written |
| SessionSpec.CloseOnce | src/plugin.ts:67-71 | success and load error close the browser exactly once; exit and waiting never close it |
| Lifecycle.ResolvesIff | src/plugin.ts:88 | the session resolves on a page iff the match is non-empty |
| Lifecycle.LoadStopStep | src/plugin.ts:77-102 | a page load with no match keeps waiting and makes no calls; with matches it resolves on the raw string and makes the success calls for those cookies |
| Lifecycle.Catch | src/plugin.ts:122-131 | a `FusionError` is re-thrown unchanged and logged; anything else is wrapped (kind `WebFormAuthError`, code 403, the original nested), logged and swallowed, and the outputs returned |
| Lifecycle.Rejection | src/plugin.ts:70-74 | the rejection of a failed session is its `LoadFailure`, and of an aborted one `AbortError`; `Lifecycle.RejectionIsRethrown` proves it is what `authenticate()` throws |
| Lifecycle.Authentication | src/plugin.ts:47-134 | a whole `authenticate()` call: result, final output and host calls; `Lifecycle.PendingIff`, `Lifecycle.SetupErrorsEscape`, `Lifecycle.ThrownAfterSetupIsClassified`, `Lifecycle.RejectionIsRethrown`, `Lifecycle.HandshakeFailureKeepsCookieString` and `Lifecycle.LoginReturnsResponse` are proved about it, and `WebFormAuth.Plugin.Authenticate` is proved to compute it |
| Lifecycle.AfterSession | src/plugin.ts:109-133 | once settled, the call never stays pending, returns what it writes, and only a resolved session with a successful login changes the output |
| Lifecycle.SetupErrorsEscape | src/plugin.ts:56-59 | a validation failure, or a profile without a server type, escapes unwrapped, before any host call |
| Lifecycle.ThrownAfterSetupIsClassified | src/plugin.ts:122-126 | after the browser was opened, anything `authenticate()` throws is a `FusionError` |
| Lifecycle.RejectionIsRethrown | src/plugin.ts:122-126 | a load error or an exit makes `authenticate()` throw that rejection, and the output is not changed |
| Lifecycle.HandshakeFailureKeepsCookieString | src/plugin.ts:126-133 | a plain error from the login after success is swallowed: the call returns the raw cookie string and logs the 403 wrapper last |
| Lifecycle.LoginReturnsResponse | src/plugin.ts:116-121 | a resolved session and a successful login return, and keep, the login response |
| Lifecycle.PendingIff | src/plugin.ts:66-111 | `authenticate()` stays pending iff every event was a page load matching no configured name; it then has only opened the browser |
| WebFormAuth.Plugin.constructor | src/plugin.ts:43-45 | `outputs[0].value` starts as `{}`, and no host call has been made |
| WebFormAuth.Plugin.Authenticate | src/plugin.ts:47-134 | the result, the new output and the appended host calls are those of `Authentication` for the old output |
| WebFormAuth.Plugin.Conclude | src/plugin.ts:109-133 | the result, the output and the calls after `await promise` are those of `AfterSession` |
| WebFormAuth.Plugin.AwaitSession | src/plugin.ts:104-111 | after delivering the events, the session state is their outcome and the calls are the session's calls; the output holds the raw cookie string exactly when the session succeeded |
| WebFormAuth.Plugin.Cleanup | src/plugin.ts:142-148 | clears the cookies and leaves the output unchanged |
| WebFormAuth.BrowserSession.constructor | src/plugin.ts:104-106 | a fresh session is open with the `exit` listener registered |
| WebFormAuth.BrowserSession.OnExit | src/plugin.ts:73-75 | exit aborts an open session and changes nothing once it has settled |
| WebFormAuth.BrowserSession.OnLoadError | src/plugin.ts:67-71 | removes the listener, closes the browser, fails an open session with the event's message and code, and leaves the output alone |
| WebFormAuth.BrowserSession.OnLoadStop | src/plugin.ts:77-102 | moves the state, and appends host calls, as `SettleOn` and `SettleEffects` prescribe; writes the raw string and drops the listener exactly when cookies match |
| WebFormAuth.BrowserSession.Resolve | src/plugin.ts:88-98 | stores the cookies, then removes the listener, closes the browser, writes the raw string, and resolves an open session |
| WebFormAuth.BrowserSession.StoreCookies | src/plugin.ts:91-93 | the loop makes one `setCookie` per cookie, in order |
| WebFormAuth.BrowserSession.Deliver | src/plugin.ts:104-106 | each event reaches its listener: the new state is `Next` and the calls are those of `SettleEffects` |
| Scenarios.SingleName | src/plugin.ts:136-140 | a setting with no comma and no surrounding white space is one name |
| Scenarios.HeadSegment | src/plugin.ts:82 | the first segment is the text up to the first `;` |
| Scenarios.FirstSegmentHit | src/plugin.ts:82-86 | a trimmed first segment that starts with the name is the match, whatever follows |
| Scenarios.OneSegment | src/plugin.ts:82 | a string without `;` is a single segment |
| Scenarios.SingleSegmentMiss | src/plugin.ts:82-86 | a single segment that does not start with the name matches nothing |
| Scenarios.PageMisses | src/plugin.ts:99-101 | a page whose cookie lacks the configured name keeps the session open and makes no call |
| Scenarios.NamesHit | src/plugin.ts:80-86 | with one configured name, a first segment carrying it is the one match |
| Scenarios.OneCookieEffects | src/plugin.ts:91-98 | one matched cookie makes exactly the calls setCookie, remove listener, close, write |
| Scenarios.PageHits | src/plugin.ts:77-98 | a page whose first cookie carries the name resolves the session on the whole string, with exactly those four calls |
| Scenarios.RetryThenSettle | src/plugin.ts:66-107 | after a page that does not settle, the session is decided by the next event alone |
| Scenarios.RetryThenResolveWith | src/plugin.ts:77-101 | a page without the cookie and then one with it: open after the first, resolved on the second string, with store, remove, close, write in that order |
| Scenarios.LoadErrorScenario | src/plugin.ts:67-71 | a load error makes `authenticate()` throw a `FusionError` with the event's code and message, closes the browser exactly once, and leaves the output unchanged |
| Scenarios.ExitScenario | src/plugin.ts:73-75 | closing the browser makes `authenticate()` throw the abort error, without closing the browser or writing an output |
| Scenarios.HandshakeFailureWith | src/plugin.ts:122-133 | a plain error from the login after a resolved page is swallowed: the call returns the raw cookie string and logs the 403 wrapper last |
| Scenarios.SapSessionScenario | src/plugin.ts:39 | with the default `SAP_SESSIONID`, `"SAP_SESSIONID=abc123; other=x"` yields the cookie `"SAP_SESSIONID=abc123"`, and a page reporting only `other=y` keeps the session waiting |
| Scenarios.TimeoutScenario | src/plugin.ts:126-133 | a timed-out login after a resolved `SAP_SESSIONID` page returns the whole cookie string |

## Left out

- The logger calls (`logger.debug`, the prefix of `logger.error`): only the `FusionError` that is logged is recorded, as `LogError`.
- `onRegister` and the translation tables: they only register UI strings.
- `requestModule`, and the inputs and outputs declarations other than `outputs[0].value`: these are host plumbing.
- The inner workings of these host calls, which are not part of this model:
  - `validateAndRequest` becomes a `Validation` value;
  - `setFollowRedirects`, `getGeneralHeader`, `generateAuthData` and `sendDeviceLoginRequestToService` become one `Handshake` value and one `InternalLogin` effect.
- `transform(this.outputs)` is taken as the identity on `outputs[0].value`: `transform` is not part of this model.
- Failures of `iab.open` and `iab.getCookieString` are not modelled. They would reject outside the listeners' promise. `getCookieString`'s answer is the event's `cookieString` parameter.
- `setCookie`, `removeEventListener` and `close` are assumed to succeed, so `BrowserSession.Resolve` and `BrowserSession.OnLoadError` always complete. In the code, a rejected `setCookie` (line 92) ends `onLoadStop` after storing only some cookies: the `exit` listener stays registered, the browser stays open, `outputs[0].value` is not written and the promise is not resolved. A throwing `removeEventListener` or `close` (lines 68-69) means `reject` (line 70) never runs.
- These host calls are made but not recorded as effects: `requestModule` (lines 48-54), `validateAndRequest` (line 56), `getBaseUrl` (line 59), `getCookieString` (line 81), the three `addEventListener` calls (lines 104-106) and every `logger.debug`.
- Asynchrony:
  - events are delivered one at a time, in order;
  - the `await` between two `setCookie` calls is not interleaved with other events;
  - events after the settling one are not delivered at all: `WebFormAuth.Plugin.AwaitSession` stops at the settling event and `Lifecycle.Authentication` ignores later events. In the code the `loadstop` and `loaderror` listeners stay registered, so a later page load would store cookies, close the browser and overwrite `outputs[0].value` again, and a later load error would close the browser again; neither can settle the promise a second time (`SessionSpec.SettledStays`, and `WebFormAuth.BrowserSession.Deliver`, which runs those calls on a settled session);
  - a call whose promise never settles is modelled as the result `Pending`.
- `FusionError`'s own defaults for a missing kind or code are not modelled: they are kept as `None`.
- Strings are sequences of characters: JavaScript's UTF-16 code units and surrogate pairs are not distinguished.
- Build and packaging files (`scripts/build.js`, `scripts/bundle.js`, `webpack.config.js`) and the type declarations in `src/helper.d.ts` are not part of this model.
