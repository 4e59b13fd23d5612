# trackspace-cli core, modelled in Dafny

trackspace-cli is a command-line client for a Jira-like issue tracker reached
through a web login. This project models the core of its session and request
logic and proves properties of it:

- **Request dispatcher** (`src/net.ts`). Every `fetch` takes a ticket from the
  module counters and waits while `ticket - requestsDone >= maxConcurrentCount`.
  It then sends the request in up to four attempts, and increments
  `requestsDone`. Another attempt follows only an error whose
  `message.code` is 'ETIMEDOUT'. The
  counters, the limit and the proxy agent are the fields of
  `Dispatch.Dispatcher`. A call is split at its suspension points: ticket,
  wait-loop guard, retry loop.
- **Cookie jar** (`src/net.ts`). This is what `updateCookies` computes: the
  old `Cookie` header and the `Set-Cookie` values merged into an
  insertion-ordered `Map` keyed by cookie name, then rendered back into a
  header. The three loops are methods proved against specification functions
  (module `CookieUpdate` against module `Cookies`).
- **Session object** (`src/trackspace.ts`). `TrackSpace.TrackSpaceApi` holds
  the session's `cookies`, `cookieMap` and the cookie file. It covers the
  constructor, `readCookies`, `storeCookies`, `apiCall` (option merge and
  detection of an expired session), `testCredentials` and the five-request
  `login` conversation. Module `Requests` holds the request-option objects:
  `apiCall`'s defaults, the `api` option builder and the login steps'
  options.
- **Output window** (`src/limit-output.ts`). `limitArray` consumes the
  `--skip`/`--limit` lists and returns the index checker.
- **Argument rewriting** (`src/main.ts`). This covers the `ordered` default,
  shorthand expansion, taking out the command word, `submit key=value`
  parsing and the `do` command's `doAction`.

JavaScript's strings, `split`/`join`/`trim`, `Map` and object spread are
modelled in `JsStrings`, `JsMaps` and `Http.Spread`.

Several things are parameters of an operation:
- how each `fetch` settled (`Dispatch.FetchResult`);
- what the transport does on each attempt (`Dispatch.Outcome`);
- the prompts' answers (username, password, PIN);
- the contents of the cookie file;
- the form encoder (`encode`).

## Model

| member | source | states |
|---|---|---|
| Dispatch.CallerOptionsWin | src/net.ts:53-74 | the request carries every option of the caller's, an `agent` of theirs included; the proxy agent is added only when they give none |
| Dispatch.StringMessageTimeoutNotRetried | src/net.ts:83-91 | as written, a timeout error whose message is a string is not retried: the call rejects after one attempt |
| Dispatch.IntendedTimeoutRetried | src/net.ts:83-91 | corrected: an error whose own code is 'ETIMEDOUT' is retried |
| Dispatch.EmptyProxyUrlKeepsAgent | src/net.ts:27-30 | as written, `setProxy("")` leaves a proxy set before in place |
| Dispatch.IntendedEmptyProxyUrlDisables | src/net.ts:21-30 | corrected: the empty string removes the proxy; any other URL installs it |
| Dispatch.RetryPolicyFacts | src/net.ts:67-98 | the transport is called 1 to 4 times; every attempt but the last timed out; a response resolves with it, another error rejects, a fourth timeout resolves with no response |
| Dispatch.FourTimeoutsResolveUndefined | src/net.ts:67-98 | four timeouts in a row end the loop after 4 attempts, resolved with no response and no error |
| Dispatch.RetryFromIntendedAgrees | src/net.ts:67-98 | corrected loop: the same attempts and settlement as written, except that four timeouts reject |
| Dispatch.IntendedNeverUndefined | src/net.ts:98 | corrected: `fetch` never resolves without a response |
| Dispatch.RetryLoop | src/net.ts:65-93 | the loop computes `RetryPolicy`, with one 3000 pause per timeout, the last one included |
| Dispatch.Dispatcher.constructor | src/net.ts:13-35 | counters start at 0, the limit at 40, no proxy agent |
| Dispatch.Dispatcher.SetConcurrency | src/net.ts:37-39 | only the limit changes |
| Dispatch.Dispatcher.SetProxy | src/net.ts:27-30 | a non-empty URL installs an agent; the empty string keeps the previous agent |
| Dispatch.Dispatcher.SetProxyIntended | src/net.ts:21-30 | corrected: the empty string removes the agent |
| Dispatch.Dispatcher.Enqueue | src/net.ts:46-57 | the ticket is the old `requestsReceived`, which grows by exactly one; the options capture the current agent |
| Dispatch.Dispatcher.TryAdmit | src/net.ts:60-63 | the ticket goes on exactly when `ticket - done < limit`; otherwise it pauses for `(ticket - done)*5 + 25` |
| Dispatch.Dispatcher.Transmit | src/net.ts:65-98 | the settlement and attempt count are `RetryPolicy`; the caller's options override the agent; one 3000 pause per timeout; `done` grows by one unless the call rejects |
| Dispatch.Dispatcher.TransmitIntended | src/net.ts:65-98 | corrected: `done` grows by one on every path, and the call rejects instead of resolving with no response |
| Dispatch.Dispatcher.Release | src/net.ts:96 | `requestsDone` grows by one and the ticket is finished |
| Dispatch.Dispatcher.MarkFailed | src/net.ts:89-91 | a rethrown ticket leaves the retry loop without a release |
| Dispatch.DoneBound | src/net.ts:50-96 | `done <= received`; the gap is the tickets waiting, running or rethrown |
| Dispatch.InFlightBound | src/net.ts:60-96 | calls past the wait loop that have not incremented `requestsDone` number at most the highest limit set, so at most the limit while it is never lowered; a rethrown call still holds its slot |
| Dispatch.LostSlotsBlockAdmission | src/net.ts:60-96 | once as many calls have rethrown as the limit and none is in flight, no later ticket passes the wait loop while the limit stays as it is |
| Dispatch.ReleasedSlotsAdmit | src/net.ts:60-96 | corrected: when every call gives its slot back and none is in flight, the next ticket passes at once |
| CookieUpdate.NameOf | src/net.ts:114 | `c.split('=')[0].trim()` is the text before the first `=`, trimmed |
| CookieUpdate.NameValueOf | src/net.ts:121 | `cookie.split(';')[0].trim()` is the text before the first `;`, trimmed |
| CookieUpdate.ParseCookieHeader | src/net.ts:112-117 | the first `forEach` stores each `"; "`-piece of the header under its name, later pieces overwriting earlier ones |
| CookieUpdate.ApplySetCookieValues | src/net.ts:119-126 | the second `forEach` stores each Set-Cookie value's `name=value` part under its name |
| CookieUpdate.SerializeJar | src/net.ts:128-135 | the accumulator yields the values in insertion order joined by `"; "`, with no separator before the first non-empty value |
| CookieUpdate.RenderedIsSerialize | src/net.ts:128-135 | the accumulator, unrolled as a recursion over the keys, renders the same header |
| CookieUpdate.UpdateCookies | src/net.ts:109-138 | returns the merged jar and the header rendered from it; every entry is stored under its own name |
| Cookies.PairOfFree | src/net.ts:121 | a `name=value` part holds no `;` and so no `"; "` |
| Cookies.MergeGet | src/net.ts:112-126 | a name some Set-Cookie value sets holds the last such value; every other name keeps what the old header gave it |
| Cookies.MergeKeepsOrder | src/net.ts:112-126 | the old header's names keep their positions; new names follow |
| Cookies.MergedWellKeyed | src/net.ts:109-126 | every entry of the merged jar sits under its own name and holds no `"; "` |
| Cookies.SerializeReparse | src/net.ts:112-135 | re-reading a rendered header and rendering it again gives the same header |
| Cookies.MergeAgainChangesNothing | src/net.ts:109-138 | merging the same Set-Cookie values into the jar re-read from the header changes nothing (non-empty `name=value` parts) |
| Cookies.HeaderIdempotent | src/net.ts:109-138 | merging the same Set-Cookie values into the merged header returns that header (non-empty `name=value` parts) |
| CookieExamples.HeaderNotIdempotentWithEmptyPair | src/net.ts:119-135 | with Set-Cookie values `["a", ""]`, the first merge renders "a" and the second "a; " |
| Requests.ApiInitMerge | src/trackspace.ts:448-478 | headers are the defaults overridden key by key by the caller's; other caller fields override the defaults; GET, manual redirect and the session cookie unless overridden |
| Requests.ExpiryDetection | src/trackspace.ts:480-498 | `apiCall` throws `LogonError("<location> <-302- <url>")` exactly for a 302 whose location, without its query, ends in the login or PIN path; every other response comes back unchanged |
| Requests.AddHeader | src/trackspace.ts:757-763 | adds one header and keeps every other field and header |
| Requests.WithBody | src/trackspace.ts:766-784 | sets the content type, the method POST and the body, keeping the other headers |
| Requests.HeaderOptionsFacts | src/trackspace.ts:757-763 | the JSON Accept and the XSRF opt-out headers are there exactly when asked for |
| Requests.BodyOptionsHeaders | src/trackspace.ts:766-784 | a body adds only a content type to the requested headers |
| Requests.BodyOptionsFacts | src/trackspace.ts:766-784 | a form or JSON body makes a POST with that body and content type, JSON winning over a form |
| Requests.ApiRequestOptionsFacts | src/trackspace.ts:786-788 | a non-empty `method` option replaces the method; otherwise nothing changes |
| Requests.ApiIgnoresGetParamData | src/trackspace.ts:791-796 | as written, the URL does not depend on `getParamData` |
| Requests.ApiWithQueryUrl | src/trackspace.ts:791-806 | corrected: the URL is endpoint, path and `?` plus the encoded `getParamData`; no query without it; options as written |
| Requests.PinUrl | src/trackspace.ts:322-326 | a location starting with `https://` is used as is; otherwise the endpoint is put in front of its text ("null" when absent) |
| TrackSpace.ReceivedReplaces | src/trackspace.ts:264-271 | a non-empty joined Set-Cookie header replaces the jar with one built from that header alone; otherwise the jar stays |
| TrackSpace.ConsentDismissed | src/trackspace.ts:212-225 | after step 1 the consent cookie is in the jar and among the header's values; other names are as the login page set them |
| TrackSpace.ReceiveCookies | src/trackspace.ts:264-278 | a step's cookie handling yields the jar `Received` gives and the header rendered from it |
| TrackSpace.FirstCookies | src/trackspace.ts:212-225 | step 1 starts from an empty jar, takes the login page's cookies, then adds the consent cookie |
| TrackSpace.SecondFactorRequests | src/trackspace.ts:319-403 | steps 4-5 post the PIN with step 2's cookies, and, once answered, GET the root with the cookies after the PIN |
| TrackSpace.AfterCredentialsRequests | src/trackspace.ts:296-319 | step 3 GETs the root with step 2's cookies; more requests follow exactly on a 302 |
| TrackSpace.CredentialsRequests | src/trackspace.ts:235-294 | step 2 posts the credentials with step 1's cookies; more requests follow exactly when the login reason ends in "OK" |
| TrackSpace.LoginRequests | src/trackspace.ts:189-437 | the whole list of requests `login` sends, in order, and when each one is sent |
| TrackSpace.LoginRefused | src/trackspace.ts:280-294 | a refused login reason stops after two requests; the session keeps step 2's jar |
| TrackSpace.LoginSession | src/trackspace.ts:264-373 | the session jar is step 2's, or the one after the PIN once the PIN is answered; none when step 2 never answered |
| TrackSpace.TrackSpaceApi.constructor | src/trackspace.ts:105-114 | no cookies, then the file's cookies when `loadCookies` is set and the file is there |
| TrackSpace.TrackSpaceApi.ReadCookies | src/trackspace.ts:119-135 | the file's text becomes the cookies and its pieces (each under its name) the map; an unreadable file changes nothing |
| TrackSpace.TrackSpaceApi.StoreCookies | src/trackspace.ts:140-146 | the file now holds the cookies |
| TrackSpace.TrackSpaceApi.ApiCall | src/trackspace.ts:445-499 | the request carries the merged options; a rejected fetch or missing response rejects; otherwise the expiry check decides |
| TrackSpace.TrackSpaceApi.TestCredentials | src/trackspace.ts:165-181 | GETs the root with the defaults; true exactly when a response arrives and is not an expired-session redirect |
| TrackSpace.TrackSpaceApi.Login | src/trackspace.ts:189-437 | true exactly for an accepted conversation; rejects exactly when a fetch it makes gives nothing; sends what `LoginSpec` lists; cookies stored exactly when configured and the root answered |
| TrackSpace.TrackSpaceApi.TakeCookies | src/trackspace.ts:264-281 | the session takes the received jar and the header rendered from it; the file is untouched |
| TrackSpace.TrackSpaceApi.LoginCredentials | src/trackspace.ts:235-435 | steps 2-5 settle, send and store as the credentials and later answers say |
| TrackSpace.TrackSpaceApi.LoginChecked | src/trackspace.ts:289-294 | a login reason not ending in "OK" settles false with no request and nothing stored |
| TrackSpace.TrackSpaceApi.LoginAfterCredentials | src/trackspace.ts:296-435 | 200 settles true (stored if configured); 302 goes to the PIN; any other status settles false unstored |
| TrackSpace.TrackSpaceApi.LoginSecondFactor | src/trackspace.ts:319-427 | true exactly when the PIN and the final root answer and the root gives 200; rejects when either gives nothing |
| TrackSpace.TrackSpaceApi.LoginFinalRoot | src/trackspace.ts:403-427 | 200 settles true, any other status false; the cookies are stored either way when configured |
| LimitOutput.ShownSize | src/limit-output.ts:36-40 | a window shows `max(0, min(hi, length) - max(lo, 0))` indices |
| LimitOutput.ShownRange | src/limit-output.ts:28-40 | an index is printed exactly when it lies between the (end-relative if negative) skip and the skip plus a non-negative limit, or the end |
| LimitOutput.ShownContiguous | src/limit-output.ts:36-40 | the printed indices have no gaps |
| LimitOutput.ShownCount | src/limit-output.ts:28-40 | at most `limit` indices for a non-negative limit; the rest after the skip, or the last `-skip`, for a negative one |
| LimitOutput.LastEntries | src/limit-output.ts:28-33 | a negative skip without a limit prints exactly the last `-skip` indices |
| LimitOutput.Consume | src/limit-output.ts:21-26 | consuming never empties a list and keeps its last value |
| LimitOutput.ConsumeTimesDrops | src/limit-output.ts:18-26 | after k calls the next call uses value k, or the last value once the list has run out |
| LimitOutput.Limiter.constructor | src/limit-output.ts:7-9 | the limiter holds the given lists |
| LimitOutput.Limiter.LimitArray | src/limit-output.ts:17-40 | the window of the first skip and limit values; each list loses its first value unless it is the last |
| MainArgs.OrderedDefault | src/main.ts:40-47 | `--unordered` gives false; an explicit `ordered` is kept; otherwise ordered exactly when not JSON |
| MainArgs.CommandOptions.DefaultOrdered | src/main.ts:40-47 | `ordered` is set to the defaulted value |
| MainArgs.MergedShorthands | src/main.ts:151 | the merged table has the names of both tables |
| MainArgs.UserShorthandsWin | src/main.ts:151 | on a shared name the user's expansion wins; other names keep their own |
| MainArgs.ExpansionOnce | src/main.ts:150-161 | the command becomes the expansion followed by the remaining words, without expanding again |
| MainArgs.NoShorthandUnchanged | src/main.ts:150-161 | without a shorthand at its head the command is unchanged |
| MainArgs.CommandOptions.ExpandShorthand | src/main.ts:148-161 | the command becomes `Expanded` over the merged table |
| MainArgs.CommandOptions.TakeCommand | src/main.ts:165-167 | the first word comes out as the command; the rest remain |
| MainArgs.FormPairSplitsAtFirst | src/main.ts:581-586 | the key is the text before the first `=`, trimmed; the value is everything after it, or "" without `=` |
| MainArgs.FormLastWins | src/main.ts:580-589 | a key holds the value of the last argument with that key |
| MainArgs.FormKeys | src/main.ts:580-589 | a key is in the form exactly when some argument has it |
| MainArgs.ParseFormArgs | src/main.ts:577-589 | the loop builds `Form(args)` |
| MainArgs.CommandOptions.DoAction | src/main.ts:125-146 | 'list' scans; 'put' takes the first remaining word as its target out of the shared list; anything else answers `{}` |
| MainArgs.CommandOptions.RunDo | src/main.ts:689-699 | the kind is the next word; the action is applied to each word left after `doAction` |

## Left out

- Transport, proxy agent and response bodies: a `fetch` is given by how it settled, and an attempt by its outcome. `Transmit` takes each attempt's outcome already classified. `Classify` and `ClassifyIntended` state the two classifications of a thrown error.
- Dispatch: `Transmit`, `SetProxy` and `RetryPolicy` model net.ts as written. The corrected `TransmitIntended`, `SetProxyIntended` and `RetryPolicyIntended` stand beside them, since nothing else in the model calls the dispatcher.
- Timers and interleaving: the waits are returned as durations. Which suspended call runs next is left to whoever calls the `Dispatcher`'s methods.
- Files: the cookie file is a field holding its contents (None when it cannot be read). `rmCookies` is not part of this model.
- The constructor's `query.effective(config)` and the verbose flag: the configuration is given as it ends up.
- `formEncode`/`URLSearchParams` and `JSON.stringify`: the encoder is a parameter, and a JSON body is kept as its text.
- Console output and verbose logging.
- The other operations of `TrackSpaceAPI` (HTML scraping and forms through cheerio) and the rest of main.ts: outside the modelled core.
- The `login` operation reads the answers to the prompts as parameters. The order in which the prompts are asked is not modelled.
- Cookies.HeaderIdempotent: requires every Set-Cookie value to have a non-empty `name=value` part. Without that requirement the claim fails, as `CookieExamples.HeaderNotIdempotentWithEmptyPair` shows.
- LimitOutput.Limiter.LimitArray: requires both lists to be non-empty, as the command-line defaults (`--skip 0`, `--limit -1`) make them. `--skip`/`--limit` values are integers; a fractional number is not modelled.
- MainArgs.CommandOptions.ExpandShorthand: a shorthand's expansion is a list of words. A string-valued expansion, which the spread would split into characters, is not modelled.
- MainArgs.ParseFormArgs: returns the `Map`. `Object.fromEntries` moves integer-like keys to the front of the object, and that reordering is not modelled.
- MainArgs.CommandOptions.RunDo: the asynchronous actions are recorded as the effects they ask for, in argument order. Their completion order is not modelled.
- MainArgs: the case where `options.command` is undefined is not modelled, since the fragments run only inside `if (undefined != options.command)`.

## Findings

| source | as written | input that shows it | evidently intended | confidence | as-written member | corrected member |
|---|---|---|---|---|---|---|
| src/trackspace.ts:793-794 | when `getParamData` is given, the query is `formEncode(options.postFormData)` | `getParamData` = `[("q","x")]` with no `postFormData`: the URL ends in `?` plus the encoding of no pairs | the query encodes `getParamData` | not executed | Requests.ApiIgnoresGetParamData | Requests.ApiWithQueryUrl |
| src/net.ts:27-30 | an empty `proxyUrl` changes nothing | `setProxy("http://localhost:3128")` then `setProxy("")`: the agent stays | the empty string disables the proxy, as the comment at net.ts:21-26 says | not executed | Dispatch.EmptyProxyUrlKeepsAgent | Dispatch.IntendedEmptyProxyUrlDisables |
| src/net.ts:89-96 | a rethrown transport error skips `requestsDone += 1` | `setConcurrency(1)`, then a `fetch` whose transport throws a non-timeout error: every later `fetch` waits forever | the slot is given back on every path ("let the next request in") | not executed | Dispatch.LostSlotsBlockAdmission | Dispatch.ReleasedSlotsAdmit |
| src/net.ts:98 | after four timeouts, `return r!` resolves with `undefined` | four attempts that all time out: callers then read `.status` of `undefined` | the call rejects once the attempts are used up; the `!` shows that `r` was taken to be set | not executed | Dispatch.FourTimeoutsResolveUndefined | Dispatch.IntendedNeverUndefined |
| src/net.ts:83 | retries when `error.message.code === 'ETIMEDOUT'` | a timeout error with a string message and `code` 'ETIMEDOUT', the shape node-fetch's errors have: rejected on the first attempt | test the error's own `code` | not executed; relies on node-fetch's error shape, which is not part of this model | Dispatch.StringMessageTimeoutNotRetried | Dispatch.IntendedTimeoutRetried |
