/** The fixed-window limiter over Redis counters that expire. */
module Limiter {
  import opened Counting
  import opened LimitKeys
  import opened Arithmetic

  /** `windowSecs` is the configured window in whole seconds. */
  datatype LimiterConfig = LimiterConfig(limit: nat, windowSecs: nat, keyPrefix: string)

  datatype Counter = Counter(count: nat, expiresAt: nat)

  type Store = map<string, Counter>

  datatype Decision = Allow | Limit(retryAfter: nat) | FailOpen

  /** How one INCR+EXPIRE transaction went: answered; executed with the reply lost; not executed. */
  datatype Outcome = Replied | ReplyLost | Unreachable

  /** Window length in seconds, never zero. */
  function Window(cfg: LimiterConfig): (w: nat)
    ensures w >= 1
  {
    if cfg.windowSecs < 1 then 1 else cfg.windowSecs
  }

  /** Times are milliseconds since the Unix epoch. */
  function WindowIndex(cfg: LimiterConfig, now: nat): nat {
    now / 1000 / Window(cfg)
  }

  function Ttl(cfg: LimiterConfig): nat {
    1000 * Window(cfg)
  }

  function LiveCount(store: Store, key: string, now: nat): nat {
    if key in store && now < store[key].expiresAt then store[key].count else 0
  }

  function IncrExpire(store: Store, key: string, ttl: nat, now: nat): Store {
    store[key := Counter(LiveCount(store, key, now) + 1, now + ttl)]
  }

  function Verdict(cfg: LimiterConfig, count: nat): Decision {
    if count > cfg.limit then Limit(Window(cfg)) else Allow
  }

  /** Redis as the shared object that the limiter changes in place. A counter without an entry in
      `expiries` never expires. */
  class Redis {
    var counts: map<string, nat>
    var expiries: map<string, nat>

    predicate Live(key: string, now: nat)
      reads this
    {
      key in counts && (key in expiries ==> now < expiries[key])
    }

    /** Between transactions every counter has an expiry. */
    ghost predicate Settled()
      reads this
    {
      counts.Keys == expiries.Keys
    }

    ghost function View(): Store
      reads this
      requires Settled()
    {
      map k | k in counts :: Counter(counts[k], expiries[k])
    }

    constructor ()
      ensures Settled() && View() == map[]
    {
      counts, expiries := map[], map[];
    }

    method Incr(key: string, now: nat) returns (count: nat)
      modifies this
      ensures count == if old(Live(key, now)) then old(counts[key]) + 1 else 1
      ensures counts == old(counts)[key := count]
      ensures expiries == if old(Live(key, now)) then old(expiries) else old(expiries) - {key}
    {
      if Live(key, now) {
        count := counts[key] + 1;
      } else {
        count := 1;
        expiries := expiries - {key};
      }
      counts := counts[key := count];
    }

    method Expire(key: string, ttl: nat, now: nat)
      modifies this`expiries
      ensures expiries == if key in counts then old(expiries)[key := now + ttl] else old(expiries)
    {
      if key in counts {
        expiries := expiries[key := now + ttl];
      }
    }
  }

  class RateLimiter {
    const cfg: LimiterConfig
    const redis: Redis

    constructor (cfg: LimiterConfig, redis: Redis)
      ensures this.cfg == cfg && this.redis == redis
    {
      this.cfg := cfg;
      this.redis := redis;
    }

    /** The name is stamped first; the transaction runs later, at `now`. */
    method Decide(key: string, stampedAt: nat, now: nat, outcome: Outcome) returns (d: Decision)
      requires redis.Settled() && stampedAt <= now
      modifies redis
      ensures redis.Settled()
      ensures outcome == Unreachable ==> redis.View() == old(redis.View())
      ensures outcome != Unreachable ==>
                var name := WindowKey(cfg.keyPrefix, key, WindowIndex(cfg, stampedAt));
                redis.View() == IncrExpire(old(redis.View()), name, Ttl(cfg), now)
      ensures d == if outcome == Replied
                   then Verdict(cfg, LiveCount(old(redis.View()),
                                               WindowKey(cfg.keyPrefix, key, WindowIndex(cfg, stampedAt)), now) + 1)
                   else FailOpen
    {
      var windowKey := WindowKey(cfg.keyPrefix, key, WindowIndex(cfg, stampedAt));
      if outcome == Unreachable {
        return FailOpen;
      }
      var count := redis.Incr(windowKey, now);
      redis.Expire(windowKey, Ttl(cfg), now);
      if outcome == ReplyLost {
        return FailOpen;
      }
      d := if count > cfg.limit then Limit(Window(cfg)) else Allow;
    }
  }

  // ---- Every client of the limiter as one machine ----

  datatype Hit = Hit(key: string, window: nat, second: nat, outcome: Outcome, decision: Decision)

  datatype LimiterState = LimiterState(now: nat, store: Store, log: seq<Hit>)

  const START := LimiterState(0, map[], [])

  /** A decision is stamped with its window before the transaction runs; the stamp must still be
      in the current window when it does. */
  datatype LimiterStep =
    | Wait(ms: nat)
    | Decide(key: string, stampedAt: nat, outcome: Outcome)

  predicate Permitted(cfg: LimiterConfig, st: LimiterState, s: LimiterStep) {
    s.Decide? ==> s.stampedAt <= st.now && WindowIndex(cfg, s.stampedAt) == WindowIndex(cfg, st.now)
  }

  function DecisionAt(cfg: LimiterConfig, st: LimiterState, key: string, stampedAt: nat, outcome: Outcome): Decision {
    if outcome == Replied then
      Verdict(cfg, LiveCount(st.store, WindowKey(cfg.keyPrefix, key, WindowIndex(cfg, stampedAt)), st.now) + 1)
    else FailOpen
  }

  function DecideNext(cfg: LimiterConfig, st: LimiterState, key: string, stampedAt: nat, outcome: Outcome): LimiterState {
    var window := WindowIndex(cfg, stampedAt);
    var store := if outcome == Unreachable then st.store
                 else IncrExpire(st.store, WindowKey(cfg.keyPrefix, key, window), Ttl(cfg), st.now);
    var hit := Hit(key, window, st.now / 1000, outcome, DecisionAt(cfg, st, key, stampedAt, outcome));
    LimiterState(st.now, store, st.log + [hit])
  }

  function LimiterNext(cfg: LimiterConfig, st: LimiterState, s: LimiterStep): LimiterState {
    match s
    case Wait(ms) => st.(now := st.now + ms)
    case Decide(key, stampedAt, outcome) => DecideNext(cfg, st, key, stampedAt, outcome)
  }

  predicate IsLimiterRun(cfg: LimiterConfig, st: LimiterState, steps: seq<LimiterStep>)
    decreases |steps|
  {
    steps == [] || (Permitted(cfg, st, steps[0]) && IsLimiterRun(cfg, LimiterNext(cfg, st, steps[0]), steps[1..]))
  }

  function LimiterExec(cfg: LimiterConfig, st: LimiterState, steps: seq<LimiterStep>): LimiterState
    decreases |steps|
  {
    if steps == [] then st else LimiterExec(cfg, LimiterNext(cfg, st, steps[0]), steps[1..])
  }

  // ---- Counting hits, with no store and no expiry ----

  /** Transactions that reached Redis for this key and window. */
  function CountedIn(key: string, window: nat): Hit -> bool {
    (h: Hit) => h.key == key && h.window == window && h.outcome != Unreachable
  }

  function AllowedIn(key: string, window: nat): Hit -> bool {
    (h: Hit) => h.key == key && h.window == window && h.decision == Allow
  }

  function FailedOpenIn(key: string, window: nat): Hit -> bool {
    (h: Hit) => h.key == key && h.window == window && h.decision == FailOpen
  }

  /** The decision a plain counter of earlier hits would give. */
  function CountingDecision(cfg: LimiterConfig, earlier: seq<Hit>, h: Hit): Decision {
    if h.outcome != Replied then FailOpen
    else if Count(earlier, CountedIn(h.key, h.window)) >= cfg.limit then Limit(Window(cfg))
    else Allow
  }

  // ---- Window arithmetic ----

  /** A window covers exactly its own stretch of milliseconds. */
  lemma WindowBounds(cfg: LimiterConfig, now: nat)
    ensures WindowIndex(cfg, now) * Ttl(cfg) <= now < (WindowIndex(cfg, now) + 1) * Ttl(cfg)
  {
    var w, q, s := Window(cfg), WindowIndex(cfg, now), now / 1000;
    DivisionBounds(s, w);
    assert 1000 * s <= now < 1000 * (s + 1);
    assert q * Ttl(cfg) == 1000 * (q * w);
    assert (q + 1) * Ttl(cfg) == 1000 * ((q + 1) * w);
  }

  lemma WindowIs(cfg: LimiterConfig, now: nat, q: nat)
    requires q * Ttl(cfg) <= now < (q + 1) * Ttl(cfg)
    ensures WindowIndex(cfg, now) == q
  {
    WindowBounds(cfg, now);
    Ordered(q, WindowIndex(cfg, now) + 1, Ttl(cfg));
    Ordered(WindowIndex(cfg, now), q + 1, Ttl(cfg));
  }

  lemma WindowMonotone(cfg: LimiterConfig, s: nat, t: nat)
    requires s <= t
    ensures WindowIndex(cfg, s) <= WindowIndex(cfg, t)
  {
    WindowBounds(cfg, s);
    WindowBounds(cfg, t);
    Ordered(WindowIndex(cfg, s), WindowIndex(cfg, t) + 1, Ttl(cfg));
  }

  // ---- The store is the count ----

  /** The counter of one key and window: present exactly when it was hit, holding the number of
      hits, and expiring after its own window but before the end of the next. */
  ghost predicate CounterOk(cfg: LimiterConfig, st: LimiterState, key: string, window: nat) {
    var name := WindowKey(cfg.keyPrefix, key, window);
    var hits := Count(st.log, CountedIn(key, window));
    if name in st.store then
      && window <= WindowIndex(cfg, st.now)
      && st.store[name].count == hits
      && (window + 1) * Ttl(cfg) <= st.store[name].expiresAt < (window + 2) * Ttl(cfg)
    else
      hits == 0
  }

  ghost predicate StoreOk(cfg: LimiterConfig, st: LimiterState) {
    forall key, window: nat :: CounterOk(cfg, st, key, window)
  }

  ghost predicate LogOk(cfg: LimiterConfig, st: LimiterState) {
    forall i :: 0 <= i < |st.log| ==>
      && st.log[i].window <= WindowIndex(cfg, st.now)
      && st.log[i].window == st.log[i].second / Window(cfg)
      && st.log[i].decision == CountingDecision(cfg, st.log[..i], st.log[i])
  }

  /** A counter read inside its own window has not expired: it is the number of hits so far. */
  lemma LiveInOwnWindow(cfg: LimiterConfig, st: LimiterState, key: string)
    requires StoreOk(cfg, st)
    ensures LiveCount(st.store, WindowKey(cfg.keyPrefix, key, WindowIndex(cfg, st.now)), st.now) ==
            Count(st.log, CountedIn(key, WindowIndex(cfg, st.now)))
  {
    assert CounterOk(cfg, st, key, WindowIndex(cfg, st.now));
    WindowBounds(cfg, st.now);
  }

  lemma ExpiryOfHit(cfg: LimiterConfig, now: nat)
    ensures var w := WindowIndex(cfg, now); (w + 1) * Ttl(cfg) <= now + Ttl(cfg) < (w + 2) * Ttl(cfg)
  {
    var w := WindowIndex(cfg, now);
    WindowBounds(cfg, now);
    assert (w + 1) * Ttl(cfg) == w * Ttl(cfg) + Ttl(cfg);
    assert (w + 2) * Ttl(cfg) == (w + 1) * Ttl(cfg) + Ttl(cfg);
  }

  /** The counter that is hit. */
  lemma HitCounter(cfg: LimiterConfig, st: LimiterState, s: LimiterStep)
    requires StoreOk(cfg, st) && s.Decide? && Permitted(cfg, st, s) && s.outcome != Unreachable
    ensures CounterOk(cfg, LimiterNext(cfg, st, s), s.key, WindowIndex(cfg, st.now))
  {
    var st1 := LimiterNext(cfg, st, s);
    CountAppend(st.log, st1.log[|st.log|], CountedIn(s.key, WindowIndex(cfg, st.now)));
    LiveInOwnWindow(cfg, st, s.key);
    ExpiryOfHit(cfg, st.now);
  }

  /** Every other counter. */
  lemma OtherCounter(cfg: LimiterConfig, st: LimiterState, s: LimiterStep, key: string, window: nat)
    requires CounterOk(cfg, st, key, window) && s.Decide? && Permitted(cfg, st, s)
    requires s.outcome == Unreachable || key != s.key || window != WindowIndex(cfg, st.now)
    ensures CounterOk(cfg, LimiterNext(cfg, st, s), key, window)
  {
    var st1 := LimiterNext(cfg, st, s);
    CountAppend(st.log, st1.log[|st.log|], CountedIn(key, window));
    if WindowKey(cfg.keyPrefix, key, window) == WindowKey(cfg.keyPrefix, s.key, WindowIndex(cfg, st.now)) {
      WindowKeyInjective(cfg.keyPrefix, key, window, s.key, WindowIndex(cfg, st.now));
    }
  }

  lemma DecideKeepsCounter(
    cfg: LimiterConfig, st: LimiterState, s: LimiterStep, key: string, window: nat)
    requires StoreOk(cfg, st) && s.Decide? && Permitted(cfg, st, s)
    ensures CounterOk(cfg, LimiterNext(cfg, st, s), key, window)
  {
    assert CounterOk(cfg, st, key, window);
    if s.outcome == Unreachable || key != s.key || window != WindowIndex(cfg, st.now) {
      OtherCounter(cfg, st, s, key, window);
    } else {
      HitCounter(cfg, st, s);
    }
  }

  lemma LogSnoc(cfg: LimiterConfig, st: LimiterState, s: LimiterStep)
    requires StoreOk(cfg, st) && LogOk(cfg, st) && s.Decide? && Permitted(cfg, st, s)
    ensures LogOk(cfg, LimiterNext(cfg, st, s))
  {
    var st1 := LimiterNext(cfg, st, s);
    LiveInOwnWindow(cfg, st, s.key);
    forall i | 0 <= i < |st1.log|
      ensures st1.log[i].decision == CountingDecision(cfg, st1.log[..i], st1.log[i])
    {
      assert st1.log[..i] == st.log[..i];
      if i == |st.log| {
        assert st.log[..i] == st.log;
      }
    }
  }

  lemma LimiterKeeps(cfg: LimiterConfig, st: LimiterState, s: LimiterStep)
    requires StoreOk(cfg, st) && LogOk(cfg, st) && Permitted(cfg, st, s)
    ensures StoreOk(cfg, LimiterNext(cfg, st, s)) && LogOk(cfg, LimiterNext(cfg, st, s))
  {
    StoreKept(cfg, st, s);
    if s.Wait? {
      WindowMonotone(cfg, st.now, st.now + s.ms);
    } else {
      LogSnoc(cfg, st, s);
    }
  }

  lemma StoreKept(cfg: LimiterConfig, st: LimiterState, s: LimiterStep)
    requires StoreOk(cfg, st) && Permitted(cfg, st, s)
    ensures StoreOk(cfg, LimiterNext(cfg, st, s))
  {
    var st1 := LimiterNext(cfg, st, s);
    forall key, window: nat ensures CounterOk(cfg, st1, key, window) {
      assert CounterOk(cfg, st, key, window);
      if s.Wait? {
        WindowMonotone(cfg, st.now, st1.now);
      } else {
        DecideKeepsCounter(cfg, st, s, key, window);
      }
    }
  }

  lemma {:induction false} LimiterInvariant(cfg: LimiterConfig, st: LimiterState, steps: seq<LimiterStep>)
    requires StoreOk(cfg, st) && LogOk(cfg, st) && IsLimiterRun(cfg, st, steps)
    ensures StoreOk(cfg, LimiterExec(cfg, st, steps)) && LogOk(cfg, LimiterExec(cfg, st, steps))
    decreases |steps|
  {
    if steps != [] {
      LimiterKeeps(cfg, st, steps[0]);
      LimiterInvariant(cfg, LimiterNext(cfg, st, steps[0]), steps[1..]);
    }
  }

  // ---- Theorems over whole runs ----

  /** In every run the Redis store with its expiries decides exactly as a count of the earlier
      hits of the same key and window, and the live counter is that count. */
  lemma LimiterExactness(cfg: LimiterConfig, steps: seq<LimiterStep>)
    requires IsLimiterRun(cfg, START, steps)
    ensures LogOk(cfg, LimiterExec(cfg, START, steps))
    ensures var st := LimiterExec(cfg, START, steps);
            forall key ::
              LiveCount(st.store, WindowKey(cfg.keyPrefix, key, WindowIndex(cfg, st.now)), st.now) ==
              Count(st.log, CountedIn(key, WindowIndex(cfg, st.now)))
  {
    LimiterInvariant(cfg, START, steps);
    var st := LimiterExec(cfg, START, steps);
    forall key
      ensures LiveCount(st.store, WindowKey(cfg.keyPrefix, key, WindowIndex(cfg, st.now)), st.now) ==
              Count(st.log, CountedIn(key, WindowIndex(cfg, st.now)))
    {
      LiveInOwnWindow(cfg, st, key);
    }
  }

  ghost predicate DecidedByCounting(cfg: LimiterConfig, log: seq<Hit>) {
    forall i :: 0 <= i < |log| ==> log[i].decision == CountingDecision(cfg, log[..i], log[i])
  }

  lemma DecidedPrefix(cfg: LimiterConfig, log: seq<Hit>, n: nat)
    requires DecidedByCounting(cfg, log) && n <= |log|
    ensures DecidedByCounting(cfg, log[..n])
  {
    forall i | 0 <= i < n
      ensures log[..n][i].decision == CountingDecision(cfg, log[..n][..i], log[..n][i])
    {
      assert log[..n][..i] == log[..i];
    }
  }

  ghost predicate RedisAnswers(log: seq<Hit>, key: string, window: nat) {
    forall i :: 0 <= i < |log| && log[i].key == key && log[i].window == window ==> log[i].outcome == Replied
  }

  /** Each key is allowed at most `limit` times a window, and exactly min(limit, hits) times when
      Redis answered throughout. */
  lemma {:induction false} AllowsPerWindow(cfg: LimiterConfig, log: seq<Hit>, key: string, window: nat)
    requires DecidedByCounting(cfg, log)
    ensures Count(log, AllowedIn(key, window)) <= cfg.limit
    ensures Count(log, AllowedIn(key, window)) <= Count(log, CountedIn(key, window))
    ensures RedisAnswers(log, key, window) ==>
              Count(log, AllowedIn(key, window)) ==
                if Count(log, CountedIn(key, window)) < cfg.limit then Count(log, CountedIn(key, window)) else cfg.limit
  {
    if log != [] {
      var n := |log| - 1;
      DecidedPrefix(cfg, log, n);
      AllowsPerWindow(cfg, log[..n], key, window);
      assert log[n].decision == CountingDecision(cfg, log[..n], log[n]);
    }
  }

  /** A request is refused only after `limit` earlier hits of its key in its window. */
  lemma LimitedOnlyAfterLimit(cfg: LimiterConfig, steps: seq<LimiterStep>, i: nat)
    requires IsLimiterRun(cfg, START, steps) && i < |LimiterExec(cfg, START, steps).log|
    requires LimiterExec(cfg, START, steps).log[i].decision.Limit?
    ensures var log := LimiterExec(cfg, START, steps).log;
            && Count(log[..i], CountedIn(log[i].key, log[i].window)) >= cfg.limit
            && log[i].decision == Limit(Window(cfg))
  {
    LimiterInvariant(cfg, START, steps);
  }

  // ---- Sliding spans ----

  function AllowedFrom(key: string, first: nat, last: nat): Hit -> bool {
    (h: Hit) => h.key == key && h.decision == Allow && first <= h.window <= last
  }

  function AllowedDuring(key: string, from: nat, secs: nat): Hit -> bool {
    (h: Hit) => h.key == key && h.decision == Allow && from <= h.second < from + secs
  }

  lemma {:induction false} AllowsPerWindows(cfg: LimiterConfig, log: seq<Hit>, key: string, first: nat, n: nat)
    requires DecidedByCounting(cfg, log)
    ensures Count(log, AllowedFrom(key, first, first + n)) <= cfg.limit * (n + 1)
  {
    AllowsPerWindow(cfg, log, key, first + n);
    if n == 0 {
      CountMonotone(log, AllowedFrom(key, first, first), AllowedIn(key, first));
    } else {
      AllowsPerWindows(cfg, log, key, first, n - 1);
      CountCover(log, AllowedFrom(key, first, first + n),
                 AllowedFrom(key, first, first + n - 1), AllowedIn(key, first + n));
      assert cfg.limit * (n + 1) == cfg.limit * n + cfg.limit;
    }
  }

  /** ceil(x / d) */
  function CeilDiv(x: nat, d: nat): nat
    requires d > 0
  {
    (x + d - 1) / d
  }

  lemma WindowsTouched(a: nat, secs: nat, w: nat)
    requires w > 0 && secs > 0
    ensures (a + secs - 1) / w <= a / w + CeilDiv(secs - 1, w)
  {
    var q, c := a / w, CeilDiv(secs - 1, w);
    DivisionBounds(a, w);
    DivisionBounds(secs - 1 + w - 1, w);
    DivisionBounds(a + secs - 1, w);
    var m := (a + secs - 1) / w;
    assert m * w <= a + secs - 1 <= (q + 1) * w - 1 + secs - 1;
    assert (q + 1) * w + c * w == (q + c + 1) * w && (c + 1) * w == c * w + w;
    Ordered(m, q + c + 1, w);
  }

  /** In any span of `secs` whole seconds a key is allowed at most limit * (ceil((secs-1)/W) + 1)
      times: 2 * limit in a span of one window. */
  lemma SlidingBound(cfg: LimiterConfig, steps: seq<LimiterStep>, key: string, from: nat, secs: nat)
    requires IsLimiterRun(cfg, START, steps) && secs > 0
    ensures Count(LimiterExec(cfg, START, steps).log, AllowedDuring(key, from, secs)) <=
            cfg.limit * (CeilDiv(secs - 1, Window(cfg)) + 1)
    ensures secs == Window(cfg) ==>
              Count(LimiterExec(cfg, START, steps).log, AllowedDuring(key, from, secs)) <= 2 * cfg.limit
  {
    LimiterInvariant(cfg, START, steps);
    SpanBound(cfg, LimiterExec(cfg, START, steps), key, from, secs);
  }

  ghost predicate Stamped(log: seq<Hit>, w: nat)
    requires w > 0
  {
    forall i :: 0 <= i < |log| ==> log[i].window == log[i].second / w
  }

  lemma SecondInSpan(second: nat, from: nat, secs: nat, w: nat)
    requires w > 0 && from <= second < from + secs
    ensures from / w <= second / w <= from / w + CeilDiv(secs - 1, w)
  {
    WindowsTouched(from, secs, w);
    DivMonotone(from, second, w);
    DivMonotone(second, from + secs - 1, w);
  }

  /** The hits of a span fall into the windows that the span touches. */
  lemma SpanWithinWindows(log: seq<Hit>, w: nat, key: string, from: nat, secs: nat, first: nat, c: nat)
    requires w > 0 && secs > 0 && Stamped(log, w)
    requires first == from / w && c == CeilDiv(secs - 1, w)
    ensures Count(log, AllowedDuring(key, from, secs)) <= Count(log, AllowedFrom(key, first, first + c))
  {
    forall i | 0 <= i < |log| && AllowedDuring(key, from, secs)(log[i])
      ensures AllowedFrom(key, first, first + c)(log[i])
    {
      SecondInSpan(log[i].second, from, secs, w);
    }
    CountMonotone(log, AllowedDuring(key, from, secs), AllowedFrom(key, first, first + c));
  }

  lemma OneWindowTouchesTwo(limit: nat, w: nat)
    requires w > 0
    ensures limit * (CeilDiv(w - 1, w) + 1) <= 2 * limit
  {
    var c := CeilDiv(w - 1, w);
    DivisionBounds(w - 1 + w - 1, w);
    Ordered(c, 2, w);
  }

  lemma SpanBound(cfg: LimiterConfig, st: LimiterState, key: string, from: nat, secs: nat)
    requires LogOk(cfg, st) && secs > 0
    ensures Count(st.log, AllowedDuring(key, from, secs)) <= cfg.limit * (CeilDiv(secs - 1, Window(cfg)) + 1)
    ensures secs == Window(cfg) ==> Count(st.log, AllowedDuring(key, from, secs)) <= 2 * cfg.limit
  {
    var w := Window(cfg);
    var first, c := from / w, CeilDiv(secs - 1, w);
    SpanWithinWindows(st.log, w, key, from, secs, first, c);
    AllowsPerWindows(cfg, st.log, key, first, c);
    OneWindowTouchesTwo(cfg.limit, w);
  }

  // ---- The boundary effect is real ----

  lemma {:induction false} LimiterSnoc(cfg: LimiterConfig, st: LimiterState, steps: seq<LimiterStep>, s: LimiterStep)
    requires IsLimiterRun(cfg, st, steps) && Permitted(cfg, LimiterExec(cfg, st, steps), s)
    ensures IsLimiterRun(cfg, st, steps + [s])
    ensures LimiterExec(cfg, st, steps + [s]) == LimiterNext(cfg, LimiterExec(cfg, st, steps), s)
    decreases |steps|
  {
    if steps == [] {
      assert ([] + [s])[1..] == [];
      assert IsLimiterRun(cfg, LimiterNext(cfg, st, s), []);
    } else {
      assert (steps + [s])[1..] == steps[1..] + [s];
      LimiterSnoc(cfg, LimiterNext(cfg, st, steps[0]), steps[1..], s);
    }
  }

  ghost predicate Reaches(cfg: LimiterConfig, steps: seq<LimiterStep>, st: LimiterState) {
    IsLimiterRun(cfg, START, steps) && LimiterExec(cfg, START, steps) == st
  }

  lemma ReachesNext(cfg: LimiterConfig, steps: seq<LimiterStep>, st: LimiterState, s: LimiterStep)
    requires Reaches(cfg, steps, st) && Permitted(cfg, st, s)
    ensures Reaches(cfg, steps + [s], LimiterNext(cfg, st, s))
    ensures StoreOk(cfg, st) && LogOk(cfg, st)
  {
    LimiterSnoc(cfg, START, steps, s);
    LimiterInvariant(cfg, START, steps);
  }

  /** One allowed hit, in a window with room for it. */
  lemma AllowedHit(cfg: LimiterConfig, st: LimiterState, key: string, from: nat, secs: nat)
    requires StoreOk(cfg, st) && from <= st.now / 1000 < from + secs
    requires Count(st.log, CountedIn(key, WindowIndex(cfg, st.now))) < cfg.limit
    ensures var v := LimiterNext(cfg, st, Decide(key, st.now, Replied));
            && Count(v.log, CountedIn(key, WindowIndex(cfg, st.now))) ==
               Count(st.log, CountedIn(key, WindowIndex(cfg, st.now))) + 1
            && Count(v.log, AllowedDuring(key, from, secs)) == Count(st.log, AllowedDuring(key, from, secs)) + 1
  {
    var window := WindowIndex(cfg, st.now);
    var hit := Hit(key, window, st.now / 1000, Replied, Allow);
    LiveInOwnWindow(cfg, st, key);
    assert LimiterNext(cfg, st, Decide(key, st.now, Replied)).log == st.log + [hit];
    CountAppend(st.log, hit, CountedIn(key, window));
    CountAppend(st.log, hit, AllowedDuring(key, from, secs));
  }

  /** A run with room in its window goes on to one more allowed hit. */
  lemma OneMoreAllowed(
    cfg: LimiterConfig, before: seq<LimiterStep>, st: LimiterState, key: string, from: nat, secs: nat)
    returns (steps: seq<LimiterStep>, v: LimiterState)
    requires Reaches(cfg, before, st) && from <= st.now / 1000 < from + secs
    requires Count(st.log, CountedIn(key, WindowIndex(cfg, st.now))) < cfg.limit
    ensures Reaches(cfg, steps, v) && v.now == st.now
    ensures Count(v.log, CountedIn(key, WindowIndex(cfg, st.now))) ==
            Count(st.log, CountedIn(key, WindowIndex(cfg, st.now))) + 1
    ensures Count(v.log, AllowedDuring(key, from, secs)) == Count(st.log, AllowedDuring(key, from, secs)) + 1
  {
    var s := Decide(key, st.now, Replied);
    ReachesNext(cfg, before, st, s);
    AllowedHit(cfg, st, key, from, secs);
    steps, v := before + [s], LimiterNext(cfg, st, s);
  }

  /** n allowed hits at one moment, in a window not hit before. */
  lemma {:induction false} Burst(
    cfg: LimiterConfig, before: seq<LimiterStep>, st: LimiterState, key: string, n: nat, from: nat, secs: nat)
    returns (steps: seq<LimiterStep>, v: LimiterState)
    requires Reaches(cfg, before, st) && n <= cfg.limit && from <= st.now / 1000 < from + secs
    requires Count(st.log, CountedIn(key, WindowIndex(cfg, st.now))) == 0
    ensures Reaches(cfg, steps, v) && v.now == st.now
    ensures Count(v.log, CountedIn(key, WindowIndex(cfg, v.now))) == n
    ensures Count(v.log, AllowedDuring(key, from, secs)) == Count(st.log, AllowedDuring(key, from, secs)) + n
  {
    steps, v := before, st;
    if n > 0 {
      var shorter, u := Burst(cfg, before, st, key, n - 1, from, secs);
      steps, v := OneMoreAllowed(cfg, shorter, u, key, from, secs);
    }
  }

  lemma FutureWindowUnhit(cfg: LimiterConfig, st: LimiterState, key: string, window: nat)
    requires LogOk(cfg, st) && window > WindowIndex(cfg, st.now)
    ensures Count(st.log, CountedIn(key, window)) == 0
  {
    CountZero(st.log, CountedIn(key, window));
  }

  /** For every window longer than a second, some run is allowed 2 * limit times within one
      window's length: `limit` in the last second of a window and `limit` in the next second. */
  lemma BoundaryDoubles(cfg: LimiterConfig, key: string) returns (steps: seq<LimiterStep>)
    requires Window(cfg) > 1
    ensures IsLimiterRun(cfg, START, steps)
    ensures Count(LimiterExec(cfg, START, steps).log, AllowedDuring(key, 1, Window(cfg))) == 2 * cfg.limit
  {
    var w := Window(cfg);
    var ms := 1000 * (w - 1);
    ReachesNext(cfg, [], START, Wait(ms));
    WindowIs(cfg, ms, 0);
    var first, st := Burst(cfg, [] + [Wait(ms)], LimiterNext(cfg, START, Wait(ms)), key, cfg.limit, 1, w);
    WindowIs(cfg, ms + 1000, 1);
    ReachesNext(cfg, first, st, Wait(1000));
    FutureWindowUnhit(cfg, st, key, 1);
    var v: LimiterState;
    steps, v := Burst(cfg, first + [Wait(1000)], LimiterNext(cfg, st, Wait(1000)), key, cfg.limit, 1, w);
  }

  // ---- Retention and retry ----

  /** Only the counters of the current and the previous window of a key are ever live. */
  lemma AtMostTwoLiveCounters(cfg: LimiterConfig, steps: seq<LimiterStep>, key: string, window: nat)
    requires IsLimiterRun(cfg, START, steps)
    requires var st := LimiterExec(cfg, START, steps);
             LiveCount(st.store, WindowKey(cfg.keyPrefix, key, window), st.now) > 0
    ensures var cur := WindowIndex(cfg, LimiterExec(cfg, START, steps).now); window == cur || window + 1 == cur
  {
    LimiterInvariant(cfg, START, steps);
    var st := LimiterExec(cfg, START, steps);
    assert CounterOk(cfg, st, key, window);
    WindowBounds(cfg, st.now);
    Ordered(WindowIndex(cfg, st.now), window + 2, Ttl(cfg));
  }

  /** Waiting the returned Retry-After lands in the very next window, from any moment. */
  lemma RetryLandsInNextWindow(cfg: LimiterConfig, now: nat)
    ensures WindowIndex(cfg, now + 1000 * Window(cfg)) == WindowIndex(cfg, now) + 1
  {
    var q := WindowIndex(cfg, now);
    WindowBounds(cfg, now);
    assert (q + 1) * Ttl(cfg) == q * Ttl(cfg) + Ttl(cfg);
    assert (q + 1 + 1) * Ttl(cfg) == (q + 1) * Ttl(cfg) + Ttl(cfg);
    WindowIs(cfg, now + Ttl(cfg), q + 1);
  }

  /** Seconds left in the window of `now`. */
  function Remaining(cfg: LimiterConfig, now: nat): int {
    (WindowIndex(cfg, now) + 1) * Window(cfg) - now / 1000
  }

  /** The documented Retry-After is the remainder of the window; the returned one is that only in a
      window's first second and more otherwise. */
  lemma RetryAfterIsRemainderExactly(cfg: LimiterConfig, now: nat)
    ensures 0 < Remaining(cfg, now) <= Window(cfg)
    ensures Window(cfg) == Remaining(cfg, now) <==> now / 1000 % Window(cfg) == 0
  {
    var s, w := now / 1000, Window(cfg);
    DivisionBounds(s, w);
    assert s == s / w * w + s % w;
    assert (s / w + 1) * w == s / w * w + w;
  }

  /** Whatever happened before, after a quiet Retry-After the next answered request of any key is
      allowed. */
  lemma RetrySucceeds(cfg: LimiterConfig, steps: seq<LimiterStep>, key: string)
    requires IsLimiterRun(cfg, START, steps) && cfg.limit >= 1
    ensures var st := LimiterExec(cfg, START, steps);
            var later := LimiterNext(cfg, st, Wait(1000 * Window(cfg)));
            DecisionAt(cfg, later, key, later.now, Replied) == Allow
  {
    var st := LimiterExec(cfg, START, steps);
    var later := LimiterNext(cfg, st, Wait(1000 * Window(cfg)));
    LimiterInvariant(cfg, START, steps);
    LimiterKeeps(cfg, st, Wait(1000 * Window(cfg)));
    RetryLandsInNextWindow(cfg, st.now);
    LiveInOwnWindow(cfg, later, key);
    FutureWindowUnhit(cfg, st, key, WindowIndex(cfg, later.now));
  }
}
