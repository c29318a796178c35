# LegalEase request admission, in Dafny

LegalEase is a single-page application that sends legal text to a
text-simplification service and shows a plain-language version with key points.
Before a text reaches the service it passes four layers. This project models
them and proves what each promises.

- **Rate limiter** (`rate_limiter.dfy`, module `RateLimiting`). This is a
  sliding-window log of admission instants.
  - A call first drops every entry at least `RATE_LIMIT_WINDOW_MS` (60000) old.
    The window is half-open.
  - It denies the call when `MAX_REQUESTS_PER_WINDOW` (5) entries remain.
    Otherwise it appends the current instant.
  - The class `RateLimiter` keeps `timestamps` as a `seq<int>` field. Its methods
    are proved against the pure functions `Live` (the purge), `Step` (one
    `checkLimit`) and `RemainingTime`. The lemmas are stated about those
    functions:
    - at most 5 admissions in any 60-second interval;
    - the wait it reports is enough, and on an ascending log also needed;
    - order is preserved;
    - the same-instant burst: five calls are admitted, the sixth is denied, and
      a call 60000 ms later is admitted again.
- **Input validation** (`gemini_service.dfy`, module `GeminiService`; the
  patterns are in `patterns.dfy`, module `DisallowedPatterns`).
  - `validateInput` is a fail-fast chain over the trimmed text: emptiness, the
    minimum length, the maximum length, then the three disallowed patterns.
  - The model is a function returning a `Result`. JavaScript's `trim` is modelled
    with its exact whitespace set. The three regular expressions are modelled
    as string predicates with the same case rules and the same word-boundary and
    `\w` classes.
  - `simplifyLegalText` is modelled as a function. It takes:
    - a flag for the presence of the API key;
    - the outcome of the remote call: parsed fields, an empty reply, or a raised
      error message.

    It keeps the source's API-key guard, its validation, its result
    construction and its error classification.
  - Validation is a function of its input alone. The source gets this by
    resetting `lastIndex` of its global regular expression before each test.
- **Service-worker cache** (`service_worker.dfy`, module `ServiceWorker`). The
  class `Worker` holds the cache storage: an ordered list of cache names and a
  map from each name to a cache (URL to response). Its handlers follow the W3C
  Service Workers specification:
  - `install` opens the current generation and stores the application shell with
    an all-or-nothing `addAll` (section 5.4.4). The batch is rejected when a
    response cannot be stored or a URL is listed twice. A rejected batch is
    swallowed.
  - `activate` deletes every other generation.
  - `fetch` bypasses non-GET requests and the service host. It answers the rest
    from `caches.match`, which returns the first hit in name order (section
    5.5.1). On a miss it writes back status-200, non-error responses.
- **Page state machine** (`app.dfy`, module `App`). The class `App` has the
  component's state hooks as fields, plus a reference to the limiter.
  - `handleSimplify` is split at its `await`:
    - `HandleSimplify` runs the offline, raw-length and limiter checks, in that
      order, and enters `Loading`;
    - `SettleSimplify` applies the service's result.
  - `Simplify` composes the two halves with the service model.

`wrappers.dfy` (Option, Result), `strings.dfy` (substring search),
`constants.dfy` and `types.dfy` hold the shared vocabulary.

`services/rateLimiter.ts:3-6` calls the limiter a "token bucket". The code is a
timestamp-log sliding window, and the model follows the code. The shell is
stored with `cache.addAll`, which is all-or-nothing, not entry by entry, and the
model follows that too.

## Model

| member | source | states |
|---|---|---|
| RateLimiting.Live | services/rateLimiter.ts:13 | the purge keeps exactly the values `t` with `now - t < 60000` (its length: `LiveCount`; copies of each value: `LiveMultiplicity`); an entry exactly 60000 ms old is dropped; never longer than the input |
| RateLimiting.LiveCount | services/rateLimiter.ts:13-15 | the length of the purged log is the number of positions whose entry is inside the window, so instants repeated in the log are each counted against the maximum |
| RateLimiting.LiveKeepsOrder | services/rateLimiter.ts:13 | the purge keeps entries in their original order: any two positions of the purged log hold entries found in the same order in the log |
| RateLimiting.LiveMultiplicity | services/rateLimiter.ts:13 | the purge keeps every copy of a value inside the window and no copy of a value outside it |
| RateLimiting.Step | services/rateLimiter.ts:10-21 | one `checkLimit`: the purge, then a denial that leaves the purged log when 5 or more entries remain, else an admission that appends `now` |
| RateLimiting.Run | services/rateLimiter.ts:10-21 | successive `checkLimit` calls, each starting from the log the previous one left; one decision per call; a log of at most 5 entries stays at most 5 entries |
| RateLimiting.RemainingTime | services/rateLimiter.ts:23-29 | 0 on an empty log; never negative; waiting exactly that long takes the oldest entry out of the window, and one millisecond less does not; at most 60000 when the oldest entry is not in the future |
| RateLimiting.LiveSorted | services/rateLimiter.ts:13 | the purge keeps an ascending log ascending |
| RateLimiting.LiveKeepsAll | services/rateLimiter.ts:13 | when every entry is inside the window, the purge removes nothing |
| RateLimiting.LiveDropsAll | services/rateLimiter.ts:13 | when every entry is outside the window, the purge empties the log |
| RateLimiting.LiveDrops | services/rateLimiter.ts:13 | one expired entry makes the purged log strictly shorter |
| RateLimiting.LiveKeepsRecent | services/rateLimiter.ts:13 | entries at or after a point less than a window before `now` all survive the purge |
| RateLimiting.StepSorted | services/rateLimiter.ts:13-20 | with a non-decreasing clock, one `checkLimit` keeps the log ascending and not in the future |
| RateLimiting.RunSorted | services/rateLimiter.ts:13-20 | starting from an ascending log with no entry after the first call's instant, a sequence of calls at non-decreasing instants leaves the log ascending |
| RateLimiting.AdmissionsWithinWindow | services/rateLimiter.ts:10-21 | from a log with at most 5 entries since the interval began (true of every limiter's log), for calls inside one 60-second interval, the admissions add exactly that many entries in the interval, and entries plus admissions never exceed 5 |
| RateLimiting.AtMostMaxPerWindow | services/rateLimiter.ts:10-21 | from an empty log, at most 5 calls inside any 60-second interval are admitted |
| RateLimiting.DrainedWindowAdmits | services/rateLimiter.ts:13-20 | once every entry has expired, a call is admitted and leaves the log holding only `now` |
| RateLimiting.DenialWait | services/rateLimiter.ts:15-17 | when no entry lies after `now`, the remaining time after a denial is strictly positive and at most 60000 |
| RateLimiting.FullWindowDenies | services/rateLimiter.ts:13-17 | while 5 or more entries are all inside the window, a call is denied and the log is unchanged |
| RateLimiting.OldestInWindow | services/rateLimiter.ts:13 | in an ascending log, when the oldest entry is inside the window, all entries are |
| RateLimiting.WaitIsEnough | services/rateLimiter.ts:13-29 | on a log of 1 to 5 entries, a call made once the reported remaining time has passed, at that instant or later, is admitted |
| RateLimiting.WaitIsNeeded | services/rateLimiter.ts:13-29 | on a full ascending log, every call made sooner than the reported remaining time is denied |
| RateLimiting.SameInstantCalls | services/rateLimiter.ts:10-21 | at one instant, calls 1 to 5 are admitted and appended; the sixth is denied and appends nothing; a call 60000 ms later is admitted |
| RateLimiting.RateLimiter.constructor | services/rateLimiter.ts:8 | the log starts empty |
| RateLimiting.RateLimiter.CheckLimit | services/rateLimiter.ts:10-21 | purges, then denies (log = purged log) if 5 entries remain, else appends exactly `now` and admits; the log never exceeds 5 entries; order is preserved under a non-decreasing clock |
| RateLimiting.RateLimiter.GetRemainingTime | services/rateLimiter.ts:23-29 | returns `RemainingTime` of the log and changes nothing |
| RateLimiting.RateLimiter.GetRemainingRequests | services/rateLimiter.ts:31-35 | purges, returns 5 minus the live count, which lies in [0, 5] and is 5 exactly when no entry is live |
| DisallowedPatterns.MatchesScriptElement | constants.ts:7 | definition: `<script` (case-sensitive), then a character outside ASCII `\w` (the `\b`), the tag ending at the first `>` after it, then `</script>` somewhere later |
| DisallowedPatterns.MatchesScriptUri | constants.ts:8 | definition: `javascript:` somewhere in the text, with only ASCII letters folded for case |
| DisallowedPatterns.MatchesEventHandler | constants.ts:9 | definition: `on` in either ASCII case, one or more ASCII `\w` characters, then `=`; no word boundary before `on` |
| DisallowedPatterns.Disallowed | constants.ts:6-10 | definition: at least one of the three patterns matches |
| DisallowedPatterns.ScriptElementCaught | constants.ts:7 | any text containing `<script>alert(1)</script>` matches the script-element pattern |
| DisallowedPatterns.ScriptUriCaught | constants.ts:8 | `javascript:` and `JavaScript:` both match |
| DisallowedPatterns.ScriptUriIgnoresCase | constants.ts:8 | two texts of the same length that agree position by position once ASCII letters are folded either both match the pattern or both do not |
| DisallowedPatterns.EventHandlerCaught | constants.ts:9 | `onerror=` matches, and so does `conditions=`, since the pattern has no word boundary |
| DisallowedPatterns.PlainTextAllowed | constants.ts:6-10 | text with no `>`, `:` or `=` matches none of the three patterns |
| GeminiService.IsWhitespace | services/geminiService.ts:11 | definition: the characters `trim` removes, the ECMAScript white space and line terminators: tab to carriage return, space, no-break space, U+1680, U+2000 to U+200A, U+2028, U+2029, U+202F, U+205F, U+3000 and the byte-order mark |
| GeminiService.TrimStart | services/geminiService.ts:11 | removes exactly the leading whitespace: a suffix, what was removed is whitespace, and the rest does not start with whitespace |
| GeminiService.TrimEnd | services/geminiService.ts:11 | removes exactly the trailing whitespace: a prefix, what was removed is whitespace, and the rest does not end with whitespace |
| GeminiService.Trim | services/geminiService.ts:11 | the result is a contiguous slice of the input, everything outside it is whitespace, and it neither starts nor ends with whitespace |
| GeminiService.TrimKeepsTrimmed | services/geminiService.ts:11 | a text that neither starts nor ends with whitespace is its own trim |
| GeminiService.TrimIdempotent | services/geminiService.ts:11 | trimming twice is trimming once |
| GeminiService.TrimDropsPadding | services/geminiService.ts:11 | `k` leading whitespace characters shorten the trimmed text by at least `k` |
| GeminiService.RejectionMessage | services/geminiService.ts:7-28 | definition: the four error messages of `validateInput` (lines 8, 14, 18 and 26), with the limits 10 and 3000 written out |
| GeminiService.ValidateInput | services/geminiService.ts:6-31 | empty input is invalid; an accepted text is exactly the trimmed input, has length in [10, 3000] and matches no disallowed pattern; it is accepted if and only if all guards hold |
| GeminiService.FirstFailingGuardDecides | services/geminiService.ts:7-28 | for a non-empty input, the error is "too short" if and only if the trimmed text is under 10, "too long" if and only if it is over 3000, and "disallowed" if and only if the length fits and a pattern matches |
| GeminiService.ValidateIdempotent | services/geminiService.ts:11-30 | an accepted text is accepted again unchanged |
| GeminiService.ScriptInjectionRefused | services/geminiService.ts:23-28 | a trimmed text containing `<script>alert(1)</script>` is refused, as disallowed when its length fits |
| GeminiService.PlainSentenceAccepted | services/geminiService.ts:6-31 | an ordinary 50-character sentence is accepted unchanged |
| GeminiService.ClassifyError | services/geminiService.ts:89-92 | the message is kept when it contains `Input` or `Key`; otherwise it is replaced by the generic failure |
| GeminiService.ClassifyIdempotent | services/geminiService.ts:89-92 | classifying a classified message changes nothing |
| GeminiService.EmptyReplyIsGeneric | services/geminiService.ts:76 | the empty-reply error is reported as the generic failure |
| GeminiService.SimplifyLegalText | services/geminiService.ts:33-94 | a missing key fails first; validation errors pass through verbatim; on success `original` is the validated text, `simplified` is the reply's, and `keyPoints` defaults to `[]`; an empty reply gives the generic failure; errors raised by the call are classified |
| Strings.Contains | sw.js:37 | definition: `includes`, an occurrence of the substring starting at some index |
| ServiceWorker.Storable | sw.js:14 | definition: the responses `addAll` accepts: the fetch resolved with a response that is not a network error, has a status in 200 to 299 and is not 206 |
| ServiceWorker.Intercepts | sw.js:37 | definition: the fetch handler answers a request only when its method is `GET` and its URL does not contain the service host |
| ServiceWorker.Cacheable | sw.js:51 | definition: a network response is written back only when present, of status 200 and not a network error |
| ServiceWorker.Stored | sw.js:57-59 | definition: the current generation is opened (created empty at the end of the order if absent, kept as it is otherwise) and maps the URL to the response |
| ServiceWorker.Match | sw.js:42 | absent exactly when no cache holds the URL; otherwise the response of the first cache in name order that holds it |
| ServiceWorker.AddAll | sw.js:14 | succeeds if and only if no URL is listed twice and every URL fetched a storable response (ok status, not 206, not an error); then the cache holds exactly its old keys plus the URLs, with the fetched responses |
| ServiceWorker.ShellIsDistinct | sw.js:2-7 | the shell lists each URL once, so its batch can fail only on a response |
| ServiceWorker.ShellIsNotApi | sw.js:2-7 | no URL of the application shell contains the service host, so install never stores a service response |
| ServiceWorker.StoredIsServed | sw.js:56-60 | after a write-on-miss, a later request for that URL is answered from the caches with the stored response |
| ServiceWorker.Without | sw.js:26 | removing a name keeps every other name and drops every copy of it; names that were distinct stay distinct |
| ServiceWorker.WithoutKeepsOrder | sw.js:26 | any two remaining names appear in the original list in the same order |
| ServiceWorker.Worker.Open | sw.js:11 | the named cache exists afterwards; an existing cache is untouched, a missing one is created empty at the end of the order |
| ServiceWorker.Worker.Delete | sw.js:26 | the named cache and its name are gone, and nothing else changes |
| ServiceWorker.Worker.StoreBatch | sw.js:14 | the cache becomes the `AddAll` result, or stays as it was when the batch is rejected; no service response is stored when no URL addresses the service |
| ServiceWorker.Worker.Put | sw.js:56-60 | the current generation exists afterwards, created at the end of the order if it was missing, and maps the URL to the response; nothing else changes |
| ServiceWorker.Worker.Install | sw.js:9-18 | the current generation exists afterwards and gains the shell (`URLS_TO_CACHE`, fixed by the constructor) exactly when the whole batch succeeded, and when every shell URL fetches a storable response it maps each of them to that response; other generations are untouched; no service response is ever stored |
| ServiceWorker.Worker.constructor | sw.js:2-7 | the storage starts empty and the worker's shell is `URLS_TO_CACHE` |
| ServiceWorker.Worker.Activate | sw.js:20-33 | afterwards only the current generation remains, if it existed, with its contents untouched |
| ServiceWorker.Worker.HandleFetch | sw.js:35-71 | non-GET and service-host requests pass through, and the caches are neither read nor written; a hit is answered from the caches without the network; a miss asks the network, answers its response, or `null` when the fetch fails, and stores only status-200 non-error responses |
| App.RawLengthOk | App.tsx:35-45 | definition: the untrimmed text has between 10 and 3000 characters, both included |
| App.WaitSeconds | App.tsx:49 | the number of seconds is the ceiling of the milliseconds divided by 1000 |
| App.FailureText | App.tsx:66 | the error's message when it is non-empty, and the default message exactly when it is empty; never empty |
| App.DenialNoticeSeconds | App.tsx:48-50 | when no entry lies after `now`, a rate-limit notice asks for between 1 and 60 seconds |
| App.PaddingPassesRawGate | App.tsx:35-45 | a text shorter than 10 characters, padded with leading spaces to 10 to 3000 characters, passes the raw-length gate, and when the API key is set the service refuses it as too short |
| App.App.constructor | App.tsx:10-14 | the page starts idle with empty text, no result, no error and no feedback |
| App.App.HandleInputChange | App.tsx:17-24 | stores the text; an error is dismissed to idle only when the status is an error; otherwise status and message are kept |
| App.App.HandleFeedback | App.tsx:71-74 | sets `feedbackGiven` and changes nothing else |
| App.App.HandleSimplify | App.tsx:26-59 | offline, then too short, then too long, refuse without touching the limiter; otherwise the limiter's log moves on by one `checkLimit`; a denial shows the ceiling of the remaining seconds; an admission enters loading with error, result and feedback cleared and sends the raw text |
| App.App.SettleSimplify | App.tsx:61-68 | success stores the result and sets success; failure sets the error with the message or the default |
| App.App.Simplify | App.tsx:26-69 | an admitted request consumes a limiter slot whatever the service then does, and the page ends in success or error according to `simplifyLegalText`; a refused request (offline, raw length or denial) leaves the page in error with a shown message, its result and its feedback flag unchanged |

## Left out

- The remote model call, its prompt, its response schema and `JSON.parse`
  (services/geminiService.ts:42-78). They are a foreign network service, so the
  call's outcome is a parameter of `SimplifyLegalText`.
- `process.env.API_KEY`: only whether it is set matters. It is a boolean
  parameter.
- `Date.now()`: the instant is a parameter. In `handleSimplify`, `checkLimit`
  and the following `getRemainingTime` read the clock separately; the model
  gives both the same instant.
- `useOnlineStatus` (hooks/useOnlineStatus) is not part of this model; online
  status is a parameter.
- Lengths: JavaScript counts UTF-16 code units, while the model counts Dafny
  characters.
- The `typeof input !== 'string'` branch of `validateInput` cannot arise for a
  `string` parameter. It is covered by the same error as the empty input.
- Regular expressions in general: only the three disallowed patterns are
  modelled, as predicates.
- GeminiService.SimplifyLegalText: the remote call's error is a message string,
  so a raised value without a `message` is not modelled.
- App.App.HandleSimplify: the alert messages are kept as a datatype holding the
  fixed texts and the number of seconds. The interpolated rate-limit sentence
  itself is not rendered.
- `handleSimplify` across interleavings: the two halves are separate methods.
  Other handlers may run between them, but a second click while loading is
  prevented only by the rendered button (App.tsx:160), which is not modelled.
- All rendering (App.tsx:76-295) and the layout components: presentation only.
- The singleton export of the limiter (services/rateLimiter.ts:38): the page
  receives a constructed instance.
- Service-worker plumbing:
  - `waitUntil` / `respondWith` promise chaining;
  - `skipWaiting` and `clients.claim`;
  - the non-awaited `cache.put`, which is modelled as completing within the
    handler;
  - `console.warn` / `console.error`.
- Request URLs: they are compared as strings, without resolving relative
  entries such as `./` against the worker's location.
- ServiceWorker.Worker.HandleFetch: `cache.put`'s checks on the request scheme
  and on `Vary` headers (section 5.4.5 of the W3C Service Workers
  specification) are not modelled. A status-200 response is always stored.
- ServiceWorker.AddAll: responses carry no headers, so the rejection of a
  response whose `Vary` header is `*` (section 5.4.4 of the W3C Service Workers
  specification) is not modelled, nor is the request-scheme check. Two requests
  count as the same when their URL strings are equal.
- Response bodies and cloning: a response is a value, so a stored copy and the
  returned response are the same value.
