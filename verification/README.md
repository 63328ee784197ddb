# ratewall in Dafny

A model of the ratewall gateway and proofs about it. The gateway authenticates a request with a
bearer token, limits it with fixed-window counters in Redis, asks the circuit breaker of its
backend for admission, forwards it, reports the outcome to the breaker and records metrics.

`dafny verify dfyconfig.toml` checks everything.

## How it is modelled

- **Circuit breaker** (`Circuit`, `Protocol`, and the theorems in `CooldownSafety`,
  `SingleProbe`, `Progress`, `Recovery`, `Outage`). A class with the three guarded fields and its
  methods; and one breaker with all its callers as a timed step machine (`Tick`, `TryAdmit`,
  `Abandon`, `Send`, `Report`). Admission and report are separate steps, so a report can meet a
  state other than the one that admitted its call. Every class method computes exactly the
  transition the machine uses.
- **Limiter** (`LimitKeys`, `Limiter`). Redis is a map from counter name to count and expiry, in
  milliseconds. A transaction may be answered, executed with the reply lost, or not executed.
- **Metrics** (`Metrics`). A finishing request is a sequence of single atomic increments; any
  number of them are part-way at once.
- **Tokens** (`Base64Url`, `Token`). Base64url, the compact serialization, bearer extraction and
  verification are written out. The signature scheme and the JSON library are parameters, with
  their assumptions in `Token.Lawful`, which `PlainLibrary` shows can be met.
- **Configuration and routing** (`Config`, `Text`, `Routing`).
- `Counting` and `Arithmetic` hold the facts that all of them share.
- **Gateway** (`Gateway`). The pipeline over all requests at once; every atomic action of the code
  is one step. `Components` proves that a gateway run, seen from one breaker, from the limiter or
  from the registry, is a run of that component alone, so the component theorems hold inside every
  gateway (`Pipeline`, `Erasure`, `FailOpen`, `Ledger`, `Consequences`). `Scenarios` builds whole
  gateway runs that reach the limits of those theorems.

Runs are sequences of steps from an initial state; theorems are about every run, every
interleaving and every number of requests.

## Where the code and its documentation disagree

The model follows the code. The lemmas named in each point are in the table below.

- "Only one probe is ever in flight" (core/src/circuit.rs:22-25) holds in all runs exactly when
  every admitted call is over within a deadline shorter than the cooldown
  (`SingleProbe.SingleProbeExactly`). Validation does not ask for that (core/src/config.rs:284-298),
  and reading the body has no deadline (core/src/router.rs:275).
- The Open arm of `record` is called unreachable (core/src/circuit.rs:163-168). A call admitted
  while Closed reaches it after another call opened the breaker (`SingleProbe.OpenArmReached`); under
  the deadline that is the only place where old reports land (`SingleProbe.TimedSingleProbe`).
- Recovery after a cooldown (core/src/circuit.rs:19-23) fails for good when the probe's request body
  cannot be read, since the call is then never reported (core/src/router.rs:275-281). A half-open
  breaker can admit again exactly when some call is in flight (`Progress.RecoverableExactly`), and
  every gateway has a run that loses a breaker (`Scenarios.GatewayWedgeReached`). Without abandoned
  calls recovery is prompt (`Recovery.RecoveryBound`).
- Retry-After is the whole window, not the remainder that docs/adr/0005-rate-limiting-fail-open.md:28-29
  promises; they agree exactly in the first second of a window (`Limiter.RetryAfterIsRemainderExactly`).
- The counter name has no route prefix, and the address fallback is a constant
  (core/src/router.rs:189): requests for one backend can use up the budget of another
  (`Scenarios.OneBudgetForAllPaths`), and clients without a subject share one budget
  (`Pipeline.ComposedQuota`).
- Namespaces are meant to isolate counters (core/src/ratelimit.rs:45-47). They do exactly unless one
  goes on, after a colon, like a client key of the other (`LimitKeys.NamespacesShareExactly`).
- Metric labels are said to be bounded by the route table (core/src/metrics.rs:11-15). The 429 label
  is cut from the raw path before route lookup. In a run the bound holds exactly when every request
  refused with 429 had a label from the table (`Consequences.LabelsBoundedExactly`); in all runs it
  holds exactly for gateways without a limiter or with a gate that nobody passes
  (`Scenarios.LabelsAlwaysBoundedExactly`).
- Validation promises absolute http(s) backends (core/src/config.rs:195); trimming slashes can remove
  the scheme (`Config.NormalizedBackend`, `Config.SchemeCanBeLost`).

## Model

| member | source | states |
|---|---|---|
| `Circuit.CircuitBreaker.constructor` | core/src/circuit.rs:86-122 | A new breaker is closed, with no failures and no opening time. |
| `Circuit.CircuitBreaker.TryAdmit` | core/src/circuit.rs:128-146 | The decision and the new fields are the machine's admission transition; the consistency of the fields is kept. |
| `Circuit.CircuitBreaker.Record` | core/src/circuit.rs:150-177 | The new fields are the machine's report transition, and the 32-bit failure counter cannot overflow. |
| `Circuit.CircuitBreaker.OpenNow` | core/src/circuit.rs:179-183 | Opening resets the count and stamps the time. |
| `Circuit.NewBreakers` | core/src/circuit.rs:205-213 | Exactly one fresh breaker object per route prefix, no two prefixes sharing one. |
| `Protocol.InvExec` | core/src/circuit.rs:128-183 | Every run keeps: the count is below the tripping run, the opening time is set exactly while not closed, HalfOpen is at least a cooldown after the opening, and the call that entered HalfOpen has not reported. |
| `CooldownSafety.CooldownRespected` | core/src/circuit.rs:132-144 | In every run, every admission and every opening after an opening is at least a cooldown later, even with late reports. |
| `CooldownSafety.OneProbePerOpening` | core/src/circuit.rs:132-144 | Between two admissions that follow an opening, the breaker has closed or opened again. |
| `CooldownSafety.OpeningsPerSpan` | core/src/circuit.rs:169-183 | Any span of time holds at most floor(span / cooldown) + 1 openings. |
| `CooldownSafety.FailureStreak` | core/src/circuit.rs:150-183 | State and failure count are functions of the event history: the count is the trailing run of failed reports, and a report while Closed opens the breaker exactly when it completes a tripping run. |
| `CooldownSafety.AnswersNeverTrip` | core/src/router.rs:307-312 | If the backend always answers, whatever the status, the breaker stays as new and nobody is refused. |
| `SingleProbe.TimedSingleProbe` | core/src/circuit.rs:128-183 | If every call is over within a deadline below the cooldown: in HalfOpen only the probe is in flight, only its report ends HalfOpen, and every report older than the last opening lands in Open and changes nothing. |
| `SingleProbe.OpenArmReached` | core/src/circuit.rs:163-168 | Every configuration has a run, with no time passing, in which a call admitted while Closed reports into Open; the report changes nothing. |
| `SingleProbe.StragglerOverlaps` | core/src/circuit.rs:169-173 | For every configuration and any deadline of at least the cooldown there is a run in which an old call overlaps the probe and its success closes the breaker first. |
| `SingleProbe.SingleProbeExactly` | core/src/circuit.rs:22-25 | The single-probe guarantee holds in all runs if and only if the deadline is below the cooldown. |
| `Progress.AdmissionConservation` | core/src/router.rs:237-312 | In every run, admitted = reported + abandoned + in flight. |
| `Progress.HalfOpenWaitsForReport` | core/src/circuit.rs:169-174 | In HalfOpen the probe is in flight or abandoned, and any report ends HalfOpen: success to Closed, failure to Open. |
| `Progress.NoReportNoAdmission` | core/src/circuit.rs:144-144 | Without a report HalfOpen refuses every caller, however long the clock runs. |
| `Progress.WedgedForever` | core/src/router.rs:275-281 | HalfOpen with nothing in flight is never left. |
| `Progress.RecoverableExactly` | core/src/circuit.rs:144-174 | A half-open breaker can ever admit another call if and only if some call is in flight. |
| `Progress.LostExactlyByAbandonedProbe` | core/src/router.rs:275-281 | Under the deadline, recovery is lost if and only if the probe was abandoned. |
| `Progress.WedgeReachable` | core/src/router.rs:275-281 | Every configuration has a run into a half-open state that never admits again. |
| `Recovery.RecoveryBound` | core/src/circuit.rs:132-177 | From any reachable Open state, if every call is then answered within a deadline and none abandoned: the first attempt a cooldown after the opening is admitted, nobody is refused later than the deadline after it, and by then the breaker is Closed. |
| `Outage.OutageFrom` | core/src/circuit.rs:128-183 | From any consistent Closed world, while every report fails and at most k calls are in flight, sends are at most Trip + k - 1 + floor(time / cooldown). |
| `Outage.OutageBound` | core/src/router.rs:236-305 | The same bound from every reachable Closed state. |
| `Outage.OutageBoundReached` | core/src/circuit.rs:128-183 | The bound is exact: for every k and n some run makes Trip + k - 1 + n sends in n cooldowns. |
| `LimitKeys.WindowKeyInjective` | core/src/ratelimit.rs:84-84 | In one namespace, distinct (key, window) pairs have distinct counter names, by the last colon. |
| `LimitKeys.LimitKeyInjective` | core/src/ratelimit.rs:140-145 | Distinct subjects, and subjects and addresses, have distinct keys. |
| `LimitKeys.CounterNamesNeverCollide` | core/src/ratelimit.rs:84-84 | Two counter names are equal if and only if client and window are equal. |
| `LimitKeys.NamespacesShareExactly` | core/src/ratelimit.rs:45-47 | Some client of one namespace and some client of another are counted together if and only if one namespace followed by a colon starts with the other, a colon, and `sub:` or `ip:`. |
| `LimitKeys.GatewayNamespacesShareExactly` | core/src/router.rs:188-190 | The same for the gateway's keys, whose address fallback is a colon-free constant: then only `sub:` matters. |
| `LimitKeys.PlainNamespacesIsolate` | core/src/ratelimit.rs:45-47 | Different colon-free namespaces share no counter. |
| `Limiter.Redis.Incr` | core/src/ratelimit.rs:91-92 | INCR adds 1 to a live counter and keeps its expiry; an absent or expired one starts at 1 with no expiry. Nothing else changes. |
| `Limiter.Redis.Expire` | core/src/ratelimit.rs:93-95 | EXPIRE sets the expiry of one existing counter and changes nothing else. |
| `Limiter.RateLimiter.Decide` | core/src/ratelimit.rs:83-109 | With the name stamped at one moment and the transaction run at a later one, the decision and the new store are the machine's decision step, for each way the transaction can go; every counter has an expiry afterwards. |
| `Limiter.LimiterExactness` | core/src/ratelimit.rs:89-106 | In every run every decision is the one a plain count of earlier hits gives, and the live counter equals that count: no counter expires in its own window. |
| `Limiter.AllowsPerWindow` | core/src/ratelimit.rs:100-106 | A key is allowed at most limit times a window, and exactly min(limit, hits) times when Redis answers. |
| `Limiter.LimitedOnlyAfterLimit` | core/src/ratelimit.rs:101-102 | A refusal comes only after limit earlier hits of the same key and window. |
| `Limiter.SlidingBound` | core/src/ratelimit.rs:14-16 | In any span of L seconds a key is allowed at most limit * (ceil((L - 1) / W) + 1) times; 2 * limit in a span of W. |
| `Limiter.BoundaryDoubles` | core/src/ratelimit.rs:14-16 | For every window longer than a second some run is allowed 2 * limit times within one window length. |
| `Limiter.AtMostTwoLiveCounters` | core/src/ratelimit.rs:93-96 | Only the counters of the current and the previous window of a key are ever live. |
| `Limiter.RetryLandsInNextWindow` | core/src/ratelimit.rs:102-116 | Waiting the returned Retry-After lands in exactly the next window, from any moment. |
| `Limiter.RetryAfterIsRemainderExactly` | core/src/ratelimit.rs:102-102 | Retry-After is at least the remainder of the window, and equal to it if and only if the request came in the window's first second. |
| `Limiter.RetrySucceeds` | core/src/ratelimit.rs:100-116 | After any run and a quiet Retry-After, the next answered request of any key is allowed. |
| `Metrics.MetricsRegistry.constructor` | core/src/metrics.rs:125-128 | A new registry is empty. |
| `Metrics.MetricsRegistry.Finish` | core/src/metrics.rs:104-121 | Run without interference, finishing is the machine's whole sequence of increments. |
| `Metrics.MetricsRegistry.CountRequest` | core/src/metrics.rs:105-106 | Adds one to the prefix's requests_total. |
| `Metrics.MetricsRegistry.CountStatus` | core/src/metrics.rs:108-117 | Adds one under the class and prefix key. |
| `Metrics.MetricsRegistry.Observe` | core/src/metrics.rs:56-66 | The loop over the buckets, the count and the sum are the rest of the machine's sequence. |
| `Metrics.MetricsRegistry.CountBucket` | core/src/metrics.rs:58-60 | Adds one to one bucket. |
| `Metrics.MetricsRegistry.CountObservation` | core/src/metrics.rs:62-65 | Adds one to the count and the latency to the sum. |
| `Metrics.MetricsRegistry.IncRateLimited` | core/src/metrics.rs:162-166 | Adds one to the label's rate_limited_total. |
| `Metrics.MetricsRegistry.IncCircuitOpen` | core/src/metrics.rs:169-173 | Adds one to the prefix's circuit_open_total. |
| `Metrics.StatusKeySplits` | core/src/metrics.rs:269-269 | Splitting a class and prefix key at the first bar gives back the class and the prefix, whatever the prefix holds. |
| `Metrics.BoardInvariant` | core/src/metrics.rs:104-121 | Under every interleaving each counter, bucket, count and sum is exactly the number (or total) of requests past that increment. |
| `Metrics.MetricsAccounting` | core/src/metrics.rs:104-121 | requests_total >= status classes plus finishes without a class >= histogram count, apart by at most the finishes in progress, and all equal to the finished requests when none is. |
| `Metrics.ScrapeKeepsOrder` | core/src/metrics.rs:196-293 | A scrape that holds the lock of the status map, and reads requests_total, the classes and the histogram count one after the other while other increments go on, still shows requests_total >= classes and classes >= count (up to finishes without a class). |
| `Metrics.HistogramUnderInterleaving` | core/src/metrics.rs:56-67 | A bucket is the finished observations within its bound plus the observers past it; buckets are cumulative and at most the +Inf count up to the observers in progress. |
| `Metrics.ScrapeMidObservation` | core/src/metrics.rs:284-293 | Some run shows a scrape with a smaller bucket above a larger one. |
| `Metrics.RejectionsAddUp` | core/src/metrics.rs:242-264 | Over the labels without repetition rate_limited_total adds up to the 429s; circuit_open_total is the short-circuits. |
| `Metrics.LabelsInvariant` | core/src/metrics.rs:130-138 | In every run the label set is exactly the labels of 429s, of short-circuits and of counted requests. |
| `Base64Url.DecodeEncode` | core/src/auth.rs:154-163 | Decoding undoes encoding, for all bytes. |
| `Base64Url.EncodeDecode` | core/src/auth.rs:191-203 | Whatever decodes is the encoding of its value: only canonical text is accepted. |
| `Token.AcceptsExactlyGenuine` | core/src/auth.rs:171-235 | Verification accepts a token for a subject if and only if it is h.c.g with an EdDSA header, a 64-byte signature of exactly the text before the last dot, and unexpired claims of the trusted issuer for that subject. |
| `Token.TokensNotMalleable` | core/src/auth.rs:191-213 | Tokens with equal decoded parts are equal texts. |
| `Token.BearerExactly` | core/src/auth.rs:247-255 | Extraction yields t if and only if the header is the scheme, blanks, t and blanks, with t non-empty and free of whitespace. |
| `Token.TokenRoundTrip` | core/src/auth.rs:140-235 | An issued token has three non-empty parts and verifies to its subject at time n if and only if n < min(2^64 - 1, issue time + ttl); then it is expired; under another trusted issuer it is refused. |
| `Token.IssuedSurvivesHeader` | core/src/auth.rs:247-255 | An issued token sent as a bearer header, with any blanks around it, is extracted unchanged. |
| `Token.GateRoundTrip` | core/src/middleware_auth.rs:66-93 | The gate passes an issued token for its subject exactly until it expires. |
| `Token.GateFailsClosed` | core/src/middleware_auth.rs:66-93 | Whoever passes the gate presented a genuine token in a bearer header. |
| `PlainLibrary.LawfulLibraryExists` | core/src/auth.rs:140-235 | The assumptions made of the signature scheme and the JSON library can be met together. |
| `Config.SectionError` | core/src/config.rs:247-298 | There is no error outside the routes if and only if every section condition holds; otherwise the error is that of the first failing check, in the listed order. |
| `Config.Validate` | core/src/config.rs:246-321 | Accepts exactly the configurations whose every check holds, with prefixes kept and backends trimmed; a rejection names the first failing check. |
| `Config.NormalizedBackend` | core/src/config.rs:308-318 | A trimmed backend is not empty and has no trailing slash, and keeps its scheme if and only if something but slashes follows it. |
| `Config.SchemeCanBeLost` | core/src/config.rs:308-318 | The backend "https://" is accepted and becomes "https:". |
| `Routing.RoutingRoundTrip` | core/src/router.rs:213-218 | Slashes, a prefix, a slash and a rest parse to the prefix and the rest. |
| `Routing.RoutingExactly` | core/src/router.rs:213-222 | Parsing gives prefix p if and only if the path belongs to p. |
| `Routing.PrefixesDisjoint` | core/src/router.rs:213-222 | No path belongs to two prefixes. |
| `Routing.TargetShape` | core/src/router.rs:253-258 | For every accepted route the target is the backend, exactly one slash, the rest, and the query. |
| `Routing.LimitedLabelExactly` | core/src/router.rs:192-202 | The 429 label is the route prefix if and only if a slash follows the prefix or the path is empty. |
| `Routing.AnyLabelReachable` | core/src/router.rs:192-202 | Every segment is the 429 label of some path. |
| `Components.BreakerIndependence` | core/src/circuit.rs:199-217 | Any interleaved multi-backend run projected to one prefix is a run of a lone breaker that ends in the same world. |
| `Components.LinkedAlways` | core/src/router.rs:44-48 | Every run keeps: each prefix with a backend has a breaker, clocks agree, and each request's call and finisher are its own and in its phase. |
| `Components.LimiterProjection` | core/src/router.rs:188-212 | The limiter inside any gateway run makes a run of the limiter alone. |
| `Components.BoardProjection` | core/src/router.rs:283-332 | The registry inside any gateway run makes a run of the registry alone. |
| `Components.GatewayCooldown` | core/src/router.rs:234-250 | In every gateway run each breaker keeps the cooldown and admits one call per opening. |
| `Pipeline.PipelineOrder` | core/src/router.rs:168-281 | In every run, only verified requests go past the gate; each response of the gateway's own is given in exactly one situation: 401 without a verified subject and without using budget, 429 on a refusal of the limiter, 404 past both with no route, 400 or 503 past both with a route and no send; and exactly a 502 or a proxied answer means a send, to the backend the path names. |
| `Pipeline.NoSendWithoutToken` | core/src/router.rs:174-187 | With the gate on, a request is sent only if its own header held a token that the gate accepted for its subject. |
| `Pipeline.RejectedAreUncounted` | core/src/router.rs:174-250 | In every run the limiter's hits are as many as the requests with a ticket, and the admissions and refusals of each breaker as many as the requests past the limiter put to it; a 401 is in neither group and a 429 is not in the second. |
| `Erasure.UnverifiedLeaveNoTrace` | core/src/router.rs:174-187 | Erasing everything any set of requests ended by a 401 did leaves a run with the same limiter, breakers and metrics and the same state of every other request. |
| `Erasure.RejectedLeaveNoTrace` | core/src/router.rs:188-212 | Erasing everything any set of requests ended by a 401 or 429 did, their counter increments included, leaves a run with the same breakers, the same decisions, sends and responses of every other request, and the same metrics but for rate_limited_total. |
| `Pipeline.ComposedQuota` | core/src/router.rs:174-250 | In every run, per client and window, sends over all backends are at most limit plus that client's fail-open decisions. |
| `FailOpen.FailOpenEquivalence` | core/src/ratelimit.rs:85-107 | When Redis never answers, a gateway without a limiter takes the same actions with the same responses, sends, breaker states and metrics; no 429 is given. |
| `FailOpen.FailOpenConverse` | core/src/ratelimit.rs:85-107 | Every run of the gateway without a limiter is, with each counter operation failing at once, a run of the gateway whose Redis is down, with the same effects. |
| `Ledger.GatewayMetrics` | core/src/router.rs:190-332 | At every moment of every run the counters agree with the responses given, up to the requests being finished; circuit_open_total of a prefix is its 503s, rate_limited_total of a label is the 429s for paths with that label, and over the labels it adds up to all 429s. |
| `Consequences.GatewayOutage` | core/src/router.rs:225-312 | From any reachable gateway state with p's breaker Closed, a dead backend p is sent at most Trip + k - 1 + floor(time / cooldown) requests. |
| `Consequences.GatewayWedge` | core/src/router.rs:234-281 | Once p's breaker is half-open with nothing in flight, no action ever changes it, and every later request to p is short-circuited. |
| `Consequences.LabelsBoundedExactly` | core/src/metrics.rs:11-15 | In every run the counter labels are within the route table if and only if every request refused with 429 has a path whose 429 label is a configured prefix. |
| `Scenarios.OneBudgetForAllPaths` | core/src/router.rs:188-212 | For every gateway with a limiter, every client that passes the gate and any two paths, some run uses up the budget with requests for the first path and then refuses the client's only request for the second with 429, counted under the label cut from it. |
| `Scenarios.AnyLabelCounted` | core/src/router.rs:190-203 | For every gateway with a limiter and every client that passes the gate, any path segment becomes a label in some run from start-up. |
| `Scenarios.LabelsAlwaysBoundedExactly` | core/src/metrics.rs:11-15 | The labels stay within the route table in all runs of a gateway if and only if it has no limiter or nobody can ever pass its gate. |
| `Scenarios.GatewayWedgeReached` | core/src/router.rs:234-281 | For every backend, and clients that pass the gate at two times a cooldown apart, some run from start-up leaves its breaker half-open, and nothing that can happen later changes it. |

## Left out

- Sockets, HTTP, connection pooling, header copying and hop-by-hop filtering: only the outcomes of a backend call (transport failure, or a status) are kept.
- Client disconnects that drop a request after it was sent: a call is abandoned only while its body is read.
- Clocks: one clock drives the limiter and the breakers, starting at the Unix epoch; a clock before the epoch, skew between replicas and loss of Redis data are not modelled.
- Limiter.LimiterExactness: asks that the window stamped before a transaction has not ended when the transaction runs. INCR's overflow at 2^63 - 1 is not modelled.
- Metrics.BoardInvariant: treats the relaxed atomic increments as sequentially consistent; does not model wrap-around of 64-bit counters; latencies are whole nanoseconds instead of floating-point seconds; map entries created at zero before their first increment are not distinguished from absent ones.
- Metrics.HistogramUnderInterleaving: is about one moment, as are RejectionsAddUp and GatewayMetrics; a scrape reads the values one after the other, and across that time only the order of requests_total, classes and histogram count is stated (Metrics.ScrapeKeepsOrder).
- Token.Lawful is an assumption about the signature scheme and the JSON library, whose code is not part of this model; text is signed as characters rather than as its UTF-8 bytes.
- Key files, PEM, TOML parsing, process start, `/auth/login`, request ids and logging.
- `/healthz`, `/readyz`, `/metrics` as routes and the text layout of a scrape; the class and prefix key and the label sums are kept.
- A gateway built without breakers or without metrics: the deployed gateway always has both.
