# Verified model of the `sercurer` rate limiter and security-header middleware

The repository is one JavaScript file, `src/index.js`, with two Express
middleware factories:

- `ratelimit(requests, milliseconds, proxy)` returns a request handler. For
  each request it resolves a client identity (`req.ip`) from the socket's
  peer address or from the first entry of `x-forwarded-for`. In adaptive
  mode (`proxy` left `null`) it switches to the header for good once the
  compared value has repeated more than 50 times. The comments intend that
  value to be the socket address. As written it is always `undefined` (see
  Findings), so the switch comes on the 52nd request whatever the addresses. It then evicts the
  request times of that client older than the window and admits the request
  (recording its time) while fewer than `requests` times remain, or answers
  "Ratelimited." otherwise.
- `headers(security)` picks one of the tables `high`, `medium`, `low`, `none`
  (aliases `h`, `m`, `l`, `n`, case-insensitive, default `high`) or fails
  when built. Per response it removes `Strict-Transport-Security` and
  `X-Powered-By`, then sets the chosen table.

The Dafny project is:

| file | module | contents |
|---|---|---|
| `wrappers.dfy` | `Wrappers` | `Option`, `Result` |
| `identity.dfy` | `Identity` | `indexOf` and the first `x-forwarded-for` entry |
| `proxy.dfy` | `Proxy` | proxy modes, the adaptive repeat counter, identity resolution and runs of it |
| `window.dfy` | `Window` | the eviction filter `Kept`, the in-place eviction loop `Evict`, the admission `Gate` |
| `ratelimit.dfy` | `RateLimit` | the whole request `Step`, its invariant, runs, and the class `RateLimiter` whose `Handle` method mutates the closure's state |
| `headers.dfy` | `SecurityHeaders` | level lookup, the header tables, the per-response overlay |

The source's closure is imperative, so it is the class `RateLimit.RateLimiter`.
Its fields are the `bucket` map (client -> request times) and the three
`let` variables. `Handle` updates them and is proved equal to the pure
specification `RateLimit.Step`. The properties that relate several requests
are lemmas about `Step`, `Run` and the functions beneath them.

The misspelled field read by the adaptive check (`req.socket.removeAddress`,
src/index.js:21,25) is a separate input of each request,
`Request.comparedAddress`, distinct from the address used as the identity.
Lemmas about the code as written take it to be `Undefined`. Lemmas about the
evident intent take it to be `Str(remoteAddress)`. Lemmas that hold for any
value other than `null`, such as `Proxy.RunOfOneValue`, say so by quantifying
over it. A compared value of `null` already matches the initial stored value,
so its first request counts and the switch comes one request earlier.

Two consequences of the code that a reader of its comments might not expect;
the model follows the code:

- From a fresh limiter, the first request only records the compared address
  (the count stays 0, because the stored value starts as `null`). So it takes
  52 requests with the same compared value to flip the switch. The 53rd
  request is the first one identified by the header, not the 52nd.
- The limit is not required to be positive. With `requests <= 0`, a new
  client's first request is still admitted and every later one is rejected.
  `Window.Cap` captures this.

## Model

| member | source | states |
|---|---|---|
| Identity.IndexOf | src/index.js:38 | -1 exactly when the character is absent; otherwise the index of its first occurrence |
| Identity.ForwardedClient | src/index.js:37-39 | an absent header gives `""`; the identity is a prefix of the header with no comma; it stops at the first comma, or is the whole value when there is none |
| Identity.FirstEntry | src/index.js:37-39 | for a chain `a,rest` whose first entry `a` has no comma, the identity is `a` |
| Identity.FirstOfTwoAddresses | src/index.js:37-39 | `"1.2.3.4, 5.6.6.7"` identifies the client as `"1.2.3.4"` |
| Proxy.Observe | src/index.js:19-30 | the adaptive counter's update: the observed value becomes the stored one; the count is incremented on a repeat and reset to 0 otherwise; the socket stays in use iff it was and the count is at most 50 |
| Proxy.Resolve | src/index.js:15-40 | the identity is the socket address or the header's first entry; the socket flag never turns back on; the proxy state changes only in adaptive mode, on the socket path, where the identity is the socket address (partner lemmas below) |
| Proxy.TrustUsesHeader | src/index.js:17-40 | with `proxy === true` the identity is always the header's first entry and the counters are untouched |
| Proxy.DistrustUsesSocket | src/index.js:17-34 | with `proxy === false` the counters never change, and while the socket is in use the identity is the socket address |
| Proxy.SwitchIsPermanent | src/index.js:17-39 | the socket flag never becomes true again in any mode, and once false every request is identified by the header with no state change |
| Proxy.FlipRequestUsesSocket | src/index.js:28-34 | only adaptive mode flips the flag, and the request that flips it is still identified by its socket address |
| Proxy.RepeatCounter | src/index.js:19-30 | in adaptive mode on the socket, a repeat of the stored value increments the count, anything else resets it to 0 and is stored, and the flag drops exactly when the count exceeds 50 |
| Proxy.RunOfOneValue | src/index.js:10-39 | from a fresh limiter in adaptive mode, a run of requests with one compared value uses the socket address for requests 1..52 and the header from request 53 on; the count reaches 51 and stops there |
| Proxy.LiteralDistinctClientsFlip | src/index.js:21-30 | as written (compared value always `undefined`), pairwise distinct clients still flip the switch, so request 53 is identified by its header |
| Proxy.IntendedDistinctClientsKeepSocket | src/index.js:19-34 | comparing the real socket address, consecutive distinct addresses keep the count at 0 and every request is identified by its socket address |
| Proxy.DistrustResolvesToSocket | src/index.js:17-34 | under `proxy === false`, requests from one socket address `a` are all identified as `a` and the proxy state never changes |
| Window.Evict | src/index.js:50-55 | the splice-and-stay index loop leaves exactly `Kept` of the stored times |
| Window.Kept | src/index.js:50-55 | what eviction leaves: never longer than the bucket; with KeptInWindow, KeptCounts and KeptIsSubsequence, exactly the in-window times in their original order |
| Window.KeptInWindow | src/index.js:50-55 | after eviction every remaining time `t` satisfies `now - t <= milliseconds` |
| Window.KeptCounts | src/index.js:50-55 | each in-window time is kept as often as it occurred, and every other time is removed |
| Window.KeptIsSubsequence | src/index.js:50-55 | the kept times appear in their original relative order |
| Window.KeptAllInWindow | src/index.js:50-55 | a bucket wholly within the window loses nothing |
| Window.KeptNoneInWindow | src/index.js:50-55 | a bucket wholly outside the window is emptied |
| Window.KeptShrinks | src/index.js:50-55 | if any recorded time has left the window, eviction removes at least one time |
| Window.Gate | src/index.js:47-67 | a client with no bucket is admitted and gets `[now]`; a known client is admitted iff fewer than `requests` times survive eviction; its bucket becomes the survivors, plus `now` when admitted; no other bucket changes |
| Window.GateBounded | src/index.js:57-66 | no bucket ever holds more than `max(requests, 1)` times |
| Window.GateAfterWindow | src/index.js:48-66 | once all of a client's times are older than the window, its next request is admitted and its bucket restarts at `[now]` (for `requests >= 1`) |
| Window.GateSlides | src/index.js:50-58 | strict sliding: a client at or below the cap is admitted again as soon as any one recorded time has left the window, and its bucket becomes the survivors plus `now` (for `requests >= 1`) |
| Window.GateWithinWindowStep | src/index.js:50-58 | for a non-empty bucket wholly in the window and within the cap, the request is admitted, appending `now`, exactly while the bucket is below the cap |
| Window.GateRunWithinWindow | src/index.js:47-67 | a new client whose requests all fall within one window has requests 1..max(requests,1) admitted and all later ones rejected; its bucket holds the admitted times |
| RateLimit.InitialInvariant | src/index.js:7-12 | the initial state (no buckets, socket in use, stored `null`, count 0) satisfies the limiter invariant |
| RateLimit.Step | src/index.js:14-70 | one request: a new identity is admitted with bucket `[now]`; a known identity is admitted iff fewer than `requests` times survive eviction, and its bucket becomes the survivors plus `now` when admitted; the proxy state changes only in adaptive mode, and then the identity is the socket address |
| RateLimit.StepPreservesInvariant | src/index.js:14-70 | every request keeps the invariant: counters fixed outside adaptive mode, count never negative, every bucket within `max(requests, 1)` |
| RateLimit.StepIsolation | src/index.js:42-67 | the request's resolved `ip` is that of proxy resolution, the request creates or changes only that client's bucket, and every other client's bucket is unchanged |
| RateLimit.FixedModes | src/index.js:17-40 | with `proxy` true or false the counters keep their initial values; requests are identified by the header (true) or by the socket address (false) |
| RateLimit.RunPreservesInvariant | src/index.js:14-70 | every state reached by a series of requests satisfies the invariant |
| RateLimit.RunIdentities | src/index.js:15-42 | the identities and the final proxy state of a series of requests depend only on the requests, not on times or buckets, so the `Proxy` run lemmas hold of the whole limiter |
| RateLimit.OneClientRun | src/index.js:14-69 | in any proxy mode, a run of requests that all resolve to one identity is decided by that identity's window alone: outcomes and bucket are those of `GateRun` |
| RateLimit.OneClientWithinWindow | src/index.js:14-69 | end to end, in any proxy mode: for a new identity to which every request of the run resolves, requests 1..N within one window are admitted and request N+1 onward are rejected, where N = max(requests, 1) |
| RateLimit.RateLimiter.constructor | src/index.js:5-12 | a new limiter stores its arguments, starts in the initial state and is valid |
| RateLimit.RateLimiter.Handle | src/index.js:14-70 | the closure's state update and outcome are those of `Step`; it keeps the invariant; only the request's own bucket changes |
| SecurityHeaders.ToLowerAscii | src/index.js:116 | same length, no upper-case ASCII letter remains, and each character is unchanged or is its upper-case letter lowered |
| SecurityHeaders.ToLowerIdempotent | src/index.js:116 | lowering twice is lowering once |
| SecurityHeaders.ParseLevel | src/index.js:111-119 | the level (default "high") is lower-cased and accepted iff it is one of the eight names; otherwise the error is "Invalid security level: ..." |
| SecurityHeaders.LevelError | src/index.js:118 | the construction error's message quotes the lower-cased level name after "Invalid security level: '" |
| SecurityHeaders.LevelIsCaseInsensitive | src/index.js:116-119 | a name and its lower-cased form give the same result |
| SecurityHeaders.HighAliases | src/index.js:111-122 | no argument, "high" and "h" all select the high table |
| SecurityHeaders.MediumAliases | src/index.js:112-122 | "medium" and "m" select the medium table |
| SecurityHeaders.LowAliases | src/index.js:113-122 | "low" and "l" select the low table |
| SecurityHeaders.NoneAliases | src/index.js:114-122 | "none" and "n" select the empty table |
| SecurityHeaders.BogusLevelRejected | src/index.js:117-119 | "bogus" fails at construction with the level error |
| SecurityHeaders.Table | src/index.js:76-114 | the level's header table, verbatim: no table sets `X-Powered-By`; every table but "none" sets `Strict-Transport-Security` to the two-year preload value; "none" is empty |
| SecurityHeaders.ApplyHeaders | src/index.js:125-129 | the response keeps its headers except the two removed ones, and every table entry is set, overriding the old value |
| SecurityHeaders.MediumFrameOptions | src/index.js:90-103 | at level medium, `X-Frame-Options` is `SAMEORIGIN` |
| SecurityHeaders.RemovedHeaders | src/index.js:126-128 | `X-Powered-By` never remains; `Strict-Transport-Security` is present iff the level is not "none" |

## Findings

| source | as written | input that shows it | evidently intended | confidence | as-written member | corrected member |
|---|---|---|---|---|---|---|
| src/index.js:21-25 | the adaptive check compares `req.socket.removeAddress`, a field that does not exist, so it always compares `undefined` | 53 requests, from 53 different socket addresses, to a fresh limiter in adaptive mode: request 53 is identified by its own `x-forwarded-for` header, which the client can forge | compare `req.socket.remoteAddress`, the address the identity uses (src/index.js:34) | high; not executed | Proxy.LiteralDistinctClientsFlip | Proxy.IntendedDistinctClientsKeepSocket |

The model keeps the compared value as an input, so the class and `Step`
capture both behaviours. The as-written lemma takes it to be `Undefined`; the
corrected one takes it to be `Str(remoteAddress)`.

## Left out

- Express plumbing: `res.send("Ratelimited.")`, `res.end()`, `res.removeHeader`, `res.set` and `next()` are framework calls. They become the `Outcome` (`Admit`/`Reject`, carrying `req.ip`) and a `map<string, string>` of response headers. The rejection's status code (the framework's default) is not modelled.
- `Date.now()` is wall-clock input. It is the `now` parameter, and no lemma assumes time is monotonic. `GateRunWithinWindow` and `OneClientWithinWindow` state the window bound they need (a later time minus an earlier one is at most `milliseconds`); neither assumes time increases.
- The bucket's arrays, changed in place by `splice` and `push`, are `seq<int>` values stored in the map field. No other code holds a reference to them, so their aliasing is not modelled. The splice loop is the `Evict` method on such a value. In `Handle`, the eviction and the `push` are one map update per branch.
- JavaScript values: `requests`, `milliseconds` and times are unbounded integers. Fractional, `NaN` and non-numeric options are not modelled. The peer address is a string; an `undefined` address of a destroyed socket is not modelled.
- `proxy` is the enum `Auto`/`Trust`/`Distrust` for `null`/`true`/`false`. The code gives any other truthy value the `Trust` behaviour and any other falsy value the `Distrust` behaviour, except `undefined`, which the default parameter turns into `null` (adaptive).
- `toLowerCase` lowers ASCII letters only. A non-string `security` argument, which makes `toLowerCase` throw a `TypeError`, is not modelled.
- OneClientWithinWindow: covers runs in which every request resolves to the one identity. For runs interleaved with other identities, only the per-request StepIsolation is proved: no other identity's request changes that identity's bucket.
- Express header names are case-insensitive; `ApplyHeaders` compares names exactly.
- The request is modelled as a plain record whose `ip` field the closure sets and then reads back as the bucket key, as attaching the identity to the request intends. A framework whose `req.ip` is a getter without a setter would silently ignore the assignment in non-strict code, and the bucket would then be keyed on the framework's own `req.ip`; that case is not modelled.
- Concurrency: Node runs the closure on a single thread, so no locking is modelled.
- The unbounded growth of the bucket map is memory use, not a functional property.
