/** The metrics registry under interleaving: `finish` is a sequence of separate atomic
    increments, so any number of finishing requests may be part-way through it at a scrape. */
module Metrics {
  import opened Counting
  import opened LimitKeys
  import opened Text

  /** Histogram bounds, in nanoseconds. */
  const BOUNDS: seq<nat> := [
    500_000, 1_000_000, 2_000_000, 5_000_000, 10_000_000, 20_000_000,
    50_000_000, 100_000_000, 250_000_000, 500_000_000, 1_000_000_000, 2_500_000_000]

  const B: nat := 12

  datatype Counters = Counters(requestsTotal: nat, rateLimitedTotal: nat, circuitOpenTotal: nat)

  datatype Histogram = Histogram(counts: seq<nat>, sumNanos: nat, count: nat)

  datatype Registry = Registry(
    perPrefix: map<string, Counters>,
    statusTotals: map<string, nat>,
    latencies: map<string, Histogram>)

  const ZERO := Counters(0, 0, 0)
  const EMPTY_HISTOGRAM := Histogram([0, 0, 0, 0, 0, 0, 0, 0, 0, 0, 0, 0], 0, 0)
  const EMPTY_REGISTRY := Registry(map[], map[], map[])

  ghost predicate WellFormed(reg: Registry) {
    forall p <- reg.latencies :: |reg.latencies[p].counts| == B
  }

  // ---- Reading the registry ----

  function CountersOf(reg: Registry, p: string): Counters {
    if p in reg.perPrefix then reg.perPrefix[p] else ZERO
  }

  function HistogramOf(reg: Registry, p: string): Histogram {
    if p in reg.latencies then reg.latencies[p] else EMPTY_HISTOGRAM
  }

  /** The status class of a response, `2xx` for 2. */
  function ClassName(statusClass: nat): string {
    Decimal(statusClass) + "xx"
  }

  function StatusKey(statusClass: nat, p: string): string {
    ClassName(statusClass) + "|" + p
  }

  function StatusOf(reg: Registry, statusClass: nat, p: string): nat {
    var key := StatusKey(statusClass, p);
    if key in reg.statusTotals then reg.statusTotals[key] else 0
  }

  function BucketOf(reg: Registry, p: string, i: nat): nat
    requires i < B
  {
    var h := HistogramOf(reg, p);
    if i < |h.counts| then h.counts[i] else 0
  }

  // ---- Single atomic increments ----

  function AddRequest(reg: Registry, p: string): Registry {
    var c := CountersOf(reg, p);
    reg.(perPrefix := reg.perPrefix[p := c.(requestsTotal := c.requestsTotal + 1)])
  }

  function AddRateLimited(reg: Registry, tag: string): Registry {
    var c := CountersOf(reg, tag);
    reg.(perPrefix := reg.perPrefix[tag := c.(rateLimitedTotal := c.rateLimitedTotal + 1)])
  }

  function AddCircuitOpen(reg: Registry, p: string): Registry {
    var c := CountersOf(reg, p);
    reg.(perPrefix := reg.perPrefix[p := c.(circuitOpenTotal := c.circuitOpenTotal + 1)])
  }

  function AddStatus(reg: Registry, statusClass: nat, p: string): Registry {
    reg.(statusTotals := reg.statusTotals[StatusKey(statusClass, p) := StatusOf(reg, statusClass, p) + 1])
  }

  function AddBucket(reg: Registry, p: string, i: nat): Registry
    requires i < B
  {
    var h := HistogramOf(reg, p);
    if i < |h.counts| then
      reg.(latencies := reg.latencies[p := h.(counts := h.counts[i := h.counts[i] + 1])])
    else reg
  }

  function AddObservation(reg: Registry, p: string): Registry {
    var h := HistogramOf(reg, p);
    reg.(latencies := reg.latencies[p := h.(count := h.count + 1)])
  }

  function AddNanos(reg: Registry, p: string, nanos: nat): Registry {
    var h := HistogramOf(reg, p);
    reg.(latencies := reg.latencies[p := h.(sumNanos := h.sumNanos + nanos)])
  }

  // ---- One finishing request ----

  /** `pc` counts the increments already made: the request total, the status class, one look at
      each bucket in order, the observation count, and the sum. */
  datatype Finisher = Finisher(prefix: string, statusClass: Option<nat>, nanos: nat, pc: nat)

  const DONE: nat := 4 + B

  function Apply(reg: Registry, f: Finisher): Registry {
    if f.pc == 0 then AddRequest(reg, f.prefix)
    else if f.pc == 1 then (if f.statusClass.Some? then AddStatus(reg, f.statusClass.value, f.prefix) else reg)
    else if f.pc < 2 + B then (if f.nanos <= BOUNDS[f.pc - 2] then AddBucket(reg, f.prefix, f.pc - 2) else reg)
    else if f.pc == 2 + B then AddObservation(reg, f.prefix)
    else if f.pc == 3 + B then AddNanos(reg, f.prefix, f.nanos)
    else reg
  }

  /** All remaining increments with nothing in between. */
  function RunAlone(reg: Registry, f: Finisher): Registry
    decreases if f.pc < DONE then DONE - f.pc else 0
  {
    if f.pc >= DONE then reg else RunAlone(Apply(reg, f), f.(pc := f.pc + 1))
  }

  lemma RunAloneStep(reg: Registry, f: Finisher)
    requires f.pc < DONE
    ensures RunAlone(reg, f) == RunAlone(Apply(reg, f), f.(pc := f.pc + 1))
  {
  }

  /** After the buckets only the count and the sum remain. */
  lemma RunAloneEnd(reg: Registry, f: Finisher)
    ensures RunAlone(reg, f.(pc := 2 + B)) == AddNanos(AddObservation(reg, f.prefix), f.prefix, f.nanos)
  {
    var counted := AddObservation(reg, f.prefix);
    RunAloneStep(reg, f.(pc := 2 + B));
    RunAloneStep(counted, f.(pc := 3 + B));
  }

  /** The registry object. Its `Finish` is the code run by one request; without interference it
      is the uninterrupted sequence of increments above. */
  class MetricsRegistry {
    var perPrefix: map<string, Counters>
    var statusTotals: map<string, nat>
    var latencies: map<string, Histogram>

    ghost function View(): Registry
      reads this
    {
      Registry(perPrefix, statusTotals, latencies)
    }

    constructor ()
      ensures View() == EMPTY_REGISTRY
    {
      perPrefix, statusTotals, latencies := map[], map[], map[];
    }

    method Finish(prefix: string, statusClass: Option<nat>, nanos: nat)
      requires WellFormed(View())
      modifies this
      ensures View() == RunAlone(old(View()), Finisher(prefix, statusClass, nanos, 0))
      ensures WellFormed(View())
    {
      ghost var f := Finisher(prefix, statusClass, nanos, 0);
      RunAloneStep(View(), f);
      CountRequest(prefix);
      RunAloneStep(View(), f.(pc := 1));
      if statusClass.Some? {
        CountStatus(statusClass.value, prefix);
      }
      Observe(prefix, nanos, f.(pc := 2));
    }

    method CountRequest(prefix: string)
      modifies this`perPrefix
      ensures View() == AddRequest(old(View()), prefix)
    {
      var c := if prefix in perPrefix then perPrefix[prefix] else ZERO;
      perPrefix := perPrefix[prefix := c.(requestsTotal := c.requestsTotal + 1)];
    }

    method CountStatus(statusClass: nat, prefix: string)
      modifies this`statusTotals
      ensures View() == AddStatus(old(View()), statusClass, prefix)
    {
      var key := ClassName(statusClass) + "|" + prefix;
      var n := if key in statusTotals then statusTotals[key] else 0;
      statusTotals := statusTotals[key := n + 1];
    }

    /** The loop over the buckets, then the count and the sum. */
    method Observe(prefix: string, nanos: nat, ghost f: Finisher)
      requires WellFormed(View())
      requires f.prefix == prefix && f.nanos == nanos && f.pc == 2
      modifies this`latencies
      ensures View() == RunAlone(old(View()), f)
      ensures WellFormed(View())
    {
      ghost var target := RunAlone(View(), f);
      for i := 0 to B
        invariant WellFormed(View())
        invariant RunAlone(View(), f.(pc := 2 + i)) == target
      {
        RunAloneStep(View(), f.(pc := 2 + i));
        if nanos <= BOUNDS[i] {
          CountBucket(prefix, i);
        }
      }
      RunAloneEnd(View(), f);
      CountObservation(prefix, nanos);
    }

    method CountObservation(prefix: string, nanos: nat)
      requires WellFormed(View())
      modifies this`latencies
      ensures View() == AddNanos(AddObservation(old(View()), prefix), prefix, nanos)
      ensures WellFormed(View())
    {
      var h := if prefix in latencies then latencies[prefix] else EMPTY_HISTOGRAM;
      latencies := latencies[prefix := h.(count := h.count + 1)];
      h := latencies[prefix];
      latencies := latencies[prefix := h.(sumNanos := h.sumNanos + nanos)];
    }

    method CountBucket(prefix: string, i: nat)
      requires WellFormed(View()) && i < B
      modifies this`latencies
      ensures View() == AddBucket(old(View()), prefix, i)
      ensures WellFormed(View())
    {
      var h := if prefix in latencies then latencies[prefix] else EMPTY_HISTOGRAM;
      latencies := latencies[prefix := h.(counts := h.counts[i := h.counts[i] + 1])];
    }

    method IncRateLimited(tag: string)
      modifies this`perPrefix
      ensures View() == AddRateLimited(old(View()), tag)
    {
      var c := if tag in perPrefix then perPrefix[tag] else ZERO;
      perPrefix := perPrefix[tag := c.(rateLimitedTotal := c.rateLimitedTotal + 1)];
    }

    method IncCircuitOpen(prefix: string)
      modifies this`perPrefix
      ensures View() == AddCircuitOpen(old(View()), prefix)
    {
      var c := if prefix in perPrefix then perPrefix[prefix] else ZERO;
      perPrefix := perPrefix[prefix := c.(circuitOpenTotal := c.circuitOpenTotal + 1)];
    }
  }

  // ---- The `class|prefix` key ----

  /** The renderer recovers the class and the prefix, whatever the prefix holds. */
  lemma StatusKeySplits(statusClass: nat, p: string)
    ensures SplitOnce(StatusKey(statusClass, p), '|') == Some((ClassName(statusClass), p))
  {
    DecimalParses(statusClass);
    SplitOnceFirst(ClassName(statusClass), '|', p);
  }

  lemma StatusKeyInjective(c1: nat, p1: string, c2: nat, p2: string)
    requires StatusKey(c1, p1) == StatusKey(c2, p2)
    ensures c1 == c2 && p1 == p2
  {
    StatusKeySplits(c1, p1);
    StatusKeySplits(c2, p2);
    DecimalParses(c1);
    DecimalParses(c2);
    assert ClassName(c1)[..|Decimal(c1)|] == Decimal(c1) && ClassName(c2)[..|Decimal(c2)|] == Decimal(c2);
  }

  // ---- All requests together ----

  /** `finishers` holds every request that ever started to finish; `limited` and `shorted` are the
      labels of the 429s and of the short-circuits, in order. */
  datatype Board = Board(reg: Registry, finishers: seq<Finisher>, limited: seq<string>, shorted: seq<string>)

  const BLANK := Board(EMPTY_REGISTRY, [], [], [])

  datatype BoardStep =
    | Begin(prefix: string, statusClass: Option<nat>, nanos: nat)
    | Advance(finisher: nat)
    | RateLimited(tag: string)
    | CircuitOpen(prefix: string)

  predicate Ready(b: Board, s: BoardStep) {
    match s
    case Begin(_, statusClass, _) => statusClass.Some? ==> statusClass.value < 10
    case Advance(k) => k < |b.finishers| && b.finishers[k].pc < DONE
    case RateLimited(_) => true
    case CircuitOpen(_) => true
  }

  function BoardNext(b: Board, s: BoardStep): Board
    requires Ready(b, s)
  {
    match s
    case Begin(p, statusClass, nanos) => b.(finishers := b.finishers + [Finisher(p, statusClass, nanos, 0)])
    case Advance(k) =>
      var f := b.finishers[k];
      b.(reg := Apply(b.reg, f), finishers := b.finishers[k := f.(pc := f.pc + 1)])
    case RateLimited(tag) => b.(reg := AddRateLimited(b.reg, tag), limited := b.limited + [tag])
    case CircuitOpen(p) => b.(reg := AddCircuitOpen(b.reg, p), shorted := b.shorted + [p])
  }

  predicate IsBoardRun(b: Board, steps: seq<BoardStep>)
    decreases |steps|
  {
    steps == [] || (Ready(b, steps[0]) && IsBoardRun(BoardNext(b, steps[0]), steps[1..]))
  }

  function BoardExec(b: Board, steps: seq<BoardStep>): Board
    requires IsBoardRun(b, steps)
    decreases |steps|
  {
    if steps == [] then b else BoardExec(BoardNext(b, steps[0]), steps[1..])
  }

  // ---- Each counter counts the finishers past its increment ----

  function Past(p: string, pc: nat): Finisher -> bool {
    (f: Finisher) => f.prefix == p && f.pc >= pc
  }

  function Observed(p: string): Finisher -> bool {
    (f: Finisher) => f.prefix == p && f.pc >= 3 + B
  }

  function Classed(p: string, statusClass: nat): Finisher -> bool {
    (f: Finisher) => f.prefix == p && f.statusClass == Some(statusClass) && f.pc >= 2
  }

  function Bucketed(p: string, i: nat): Finisher -> bool
    requires i < B
  {
    (f: Finisher) => f.prefix == p && f.nanos <= BOUNDS[i] && f.pc > 2 + i
  }

  function Is(p: string): string -> bool {
    (tag: string) => tag == p
  }

  ghost predicate RequestsOk(b: Board) {
    forall p :: CountersOf(b.reg, p) ==
      Counters(Count(b.finishers, Past(p, 1)), Count(b.limited, Is(p)), Count(b.shorted, Is(p)))
  }

  ghost predicate ClassesOk(b: Board) {
    forall p, c: nat :: StatusOf(b.reg, c, p) == Count(b.finishers, Classed(p, c))
  }

  ghost predicate BucketsOk(b: Board) {
    forall p, i: nat :: i < B ==> BucketOf(b.reg, p, i) == Count(b.finishers, Bucketed(p, i))
  }

  ghost predicate ObservationsOk(b: Board) {
    forall p :: HistogramOf(b.reg, p).count == Count(b.finishers, Observed(p))
  }

  /** Nanoseconds of the finished requests of a prefix. */
  function FinishedNanos(fs: seq<Finisher>, p: string): nat {
    if fs == [] then 0
    else
      var f := fs[|fs| - 1];
      FinishedNanos(fs[..|fs| - 1], p) + (if f.prefix == p && f.pc >= DONE then f.nanos else 0)
  }

  ghost predicate SumsOk(b: Board) {
    forall p :: HistogramOf(b.reg, p).sumNanos == FinishedNanos(b.finishers, p)
  }

  ghost predicate BoardOk(b: Board) {
    && WellFormed(b.reg) && RequestsOk(b) && ClassesOk(b) && BucketsOk(b) && ObservationsOk(b) && SumsOk(b)
    && forall k :: 0 <= k < |b.finishers| ==>
         b.finishers[k].pc <= DONE && (b.finishers[k].statusClass.Some? ==> b.finishers[k].statusClass.value < 10)
  }

  lemma ApplyCounters(reg: Registry, f: Finisher, p: string)
    ensures var c, c1 := CountersOf(reg, p), CountersOf(Apply(reg, f), p);
            c1 == c.(requestsTotal := c.requestsTotal + Indicator(f.prefix == p && f.pc == 0))
  {
  }

  lemma ApplyStatus(reg: Registry, f: Finisher, c: nat, p: string)
    ensures StatusOf(Apply(reg, f), c, p) ==
            StatusOf(reg, c, p) + Indicator(f.prefix == p && f.statusClass == Some(c) && f.pc == 1)
  {
    if f.pc == 1 && f.statusClass.Some? && StatusKey(f.statusClass.value, f.prefix) == StatusKey(c, p) {
      StatusKeyInjective(f.statusClass.value, f.prefix, c, p);
    }
  }

  lemma BucketEffect(reg: Registry, q: string, k: nat, p: string, i: nat)
    requires WellFormed(reg) && i < B && k < B
    ensures WellFormed(AddBucket(reg, q, k))
    ensures BucketOf(AddBucket(reg, q, k), p, i) == BucketOf(reg, p, i) + Indicator(q == p && k == i)
    ensures HistogramOf(AddBucket(reg, q, k), p).count == HistogramOf(reg, p).count
  {
  }

  lemma ObservationEffect(reg: Registry, q: string, nanos: nat, p: string, i: nat)
    requires WellFormed(reg) && i < B
    ensures WellFormed(AddObservation(reg, q)) && WellFormed(AddNanos(reg, q, nanos))
    ensures BucketOf(AddObservation(reg, q), p, i) == BucketOf(AddNanos(reg, q, nanos), p, i) == BucketOf(reg, p, i)
    ensures HistogramOf(AddObservation(reg, q), p).count == HistogramOf(reg, p).count + Indicator(q == p)
    ensures HistogramOf(AddNanos(reg, q, nanos), p).count == HistogramOf(reg, p).count
  {
  }

  lemma ApplyHistogram(reg: Registry, f: Finisher, p: string, i: nat)
    requires WellFormed(reg) && i < B
    ensures WellFormed(Apply(reg, f))
    ensures BucketOf(Apply(reg, f), p, i) ==
            BucketOf(reg, p, i) + Indicator(f.prefix == p && f.nanos <= BOUNDS[i] && f.pc == 2 + i)
    ensures HistogramOf(Apply(reg, f), p).count ==
            HistogramOf(reg, p).count + Indicator(f.prefix == p && f.pc == 2 + B)
  {
    if f.pc < 2 {
      assert Apply(reg, f).latencies == reg.latencies;
    } else if f.pc < 2 + B {
      BucketEffect(reg, f.prefix, f.pc - 2, p, i);
    } else {
      ObservationEffect(reg, f.prefix, f.nanos, p, i);
    }
  }

  lemma ApplySum(reg: Registry, f: Finisher, p: string)
    ensures HistogramOf(Apply(reg, f), p).sumNanos ==
            HistogramOf(reg, p).sumNanos + (if f.prefix == p && f.pc == 3 + B then f.nanos else 0)
  {
  }

  lemma {:induction false} NanosUpdate(fs: seq<Finisher>, k: nat, p: string)
    requires k < |fs| && fs[k].pc < DONE
    ensures FinishedNanos(fs[k := fs[k].(pc := fs[k].pc + 1)], p) ==
            FinishedNanos(fs, p) + (if fs[k].prefix == p && fs[k].pc == 3 + B then fs[k].nanos else 0)
  {
    var n := |fs| - 1;
    var fs1 := fs[k := fs[k].(pc := fs[k].pc + 1)];
    if k == n {
      assert fs1[..n] == fs[..n];
    } else {
      assert fs1[..n] == fs[..n][k := fs[k].(pc := fs[k].pc + 1)];
      NanosUpdate(fs[..n], k, p);
    }
  }

  lemma BeginKeeps(b: Board, f: Finisher)
    requires BoardOk(b) && f.pc == 0 && (f.statusClass.Some? ==> f.statusClass.value < 10)
    ensures BoardOk(b.(finishers := b.finishers + [f]))
  {
    forall p ensures Count(b.finishers + [f], Past(p, 1)) == Count(b.finishers, Past(p, 1)) {
      CountAppend(b.finishers, f, Past(p, 1));
    }
    forall p, c: nat ensures Count(b.finishers + [f], Classed(p, c)) == Count(b.finishers, Classed(p, c)) {
      CountAppend(b.finishers, f, Classed(p, c));
    }
    forall p, i: nat | i < B ensures Count(b.finishers + [f], Bucketed(p, i)) == Count(b.finishers, Bucketed(p, i)) {
      CountAppend(b.finishers, f, Bucketed(p, i));
    }
    forall p ensures Count(b.finishers + [f], Observed(p)) == Count(b.finishers, Observed(p)) {
      CountAppend(b.finishers, f, Observed(p));
    }
    forall p ensures FinishedNanos(b.finishers + [f], p) == FinishedNanos(b.finishers, p) {
      assert (b.finishers + [f])[..|b.finishers|] == b.finishers;
    }
  }

  lemma AdvanceRequests(b: Board, k: nat)
    requires BoardOk(b) && Ready(b, Advance(k))
    ensures RequestsOk(BoardNext(b, Advance(k))) && ClassesOk(BoardNext(b, Advance(k)))
  {
    var b1, f := BoardNext(b, Advance(k)), b.finishers[k];
    var f1 := f.(pc := f.pc + 1);
    forall p ensures CountersOf(b1.reg, p) ==
      Counters(Count(b1.finishers, Past(p, 1)), Count(b1.limited, Is(p)), Count(b1.shorted, Is(p)))
    {
      ApplyCounters(b.reg, f, p);
      CountUpdate(b.finishers, k, f1, Past(p, 1));
    }
    forall p, c: nat ensures StatusOf(b1.reg, c, p) == Count(b1.finishers, Classed(p, c)) {
      ApplyStatus(b.reg, f, c, p);
      CountUpdate(b.finishers, k, f1, Classed(p, c));
    }
  }

  lemma AdvanceBucket(b: Board, k: nat, p: string, i: nat)
    requires BoardOk(b) && Ready(b, Advance(k)) && i < B
    ensures var b1 := BoardNext(b, Advance(k));
            && BucketOf(b1.reg, p, i) == Count(b1.finishers, Bucketed(p, i))
            && HistogramOf(b1.reg, p).count == Count(b1.finishers, Observed(p))
  {
    var f := b.finishers[k];
    var f1 := f.(pc := f.pc + 1);
    ApplyHistogram(b.reg, f, p, i);
    CountUpdate(b.finishers, k, f1, Bucketed(p, i));
    CountUpdate(b.finishers, k, f1, Observed(p));
  }

  lemma AdvanceHistogram(b: Board, k: nat)
    requires BoardOk(b) && Ready(b, Advance(k))
    ensures var b1 := BoardNext(b, Advance(k)); WellFormed(b1.reg) && BucketsOk(b1) && ObservationsOk(b1)
  {
    var b1 := BoardNext(b, Advance(k));
    ApplyHistogram(b.reg, b.finishers[k], "", 0);
    forall p, i: nat | i < B ensures BucketOf(b1.reg, p, i) == Count(b1.finishers, Bucketed(p, i)) {
      AdvanceBucket(b, k, p, i);
    }
    forall p ensures HistogramOf(b1.reg, p).count == Count(b1.finishers, Observed(p)) {
      AdvanceBucket(b, k, p, 0);
    }
  }

  lemma AdvanceSums(b: Board, k: nat)
    requires BoardOk(b) && Ready(b, Advance(k))
    ensures SumsOk(BoardNext(b, Advance(k)))
  {
    var b1 := BoardNext(b, Advance(k));
    forall p ensures HistogramOf(b1.reg, p).sumNanos == FinishedNanos(b1.finishers, p) {
      ApplySum(b.reg, b.finishers[k], p);
      NanosUpdate(b.finishers, k, p);
    }
  }

  lemma RejectKeeps(b: Board, s: BoardStep)
    requires BoardOk(b) && (s.RateLimited? || s.CircuitOpen?)
    ensures BoardOk(BoardNext(b, s))
  {
    var b1 := BoardNext(b, s);
    forall p ensures CountersOf(b1.reg, p) ==
      Counters(Count(b1.finishers, Past(p, 1)), Count(b1.limited, Is(p)), Count(b1.shorted, Is(p)))
    {
      assert CountersOf(b.reg, p) ==
        Counters(Count(b.finishers, Past(p, 1)), Count(b.limited, Is(p)), Count(b.shorted, Is(p)));
      if s.RateLimited? {
        CountAppend(b.limited, s.tag, Is(p));
      } else {
        CountAppend(b.shorted, s.prefix, Is(p));
      }
    }
    forall p, c: nat ensures StatusOf(b1.reg, c, p) == StatusOf(b.reg, c, p) {}
    forall p, i: nat | i < B ensures BucketOf(b1.reg, p, i) == BucketOf(b.reg, p, i) {}
    forall p ensures HistogramOf(b1.reg, p) == HistogramOf(b.reg, p) {}
  }

  lemma BoardKeeps(b: Board, s: BoardStep)
    requires BoardOk(b) && Ready(b, s)
    ensures BoardOk(BoardNext(b, s))
  {
    match s
    case Begin(p, statusClass, nanos) => BeginKeeps(b, Finisher(p, statusClass, nanos, 0));
    case Advance(k) =>
      AdvanceRequests(b, k);
      AdvanceHistogram(b, k);
      AdvanceSums(b, k);
    case RateLimited(_) => RejectKeeps(b, s);
    case CircuitOpen(_) => RejectKeeps(b, s);
  }

  lemma {:induction false} BoardInvariant(b: Board, steps: seq<BoardStep>)
    requires BoardOk(b) && IsBoardRun(b, steps)
    ensures BoardOk(BoardExec(b, steps))
    decreases |steps|
  {
    if steps != [] {
      BoardKeeps(b, steps[0]);
      BoardInvariant(BoardNext(b, steps[0]), steps[1..]);
    }
  }

  lemma BlankOk()
    ensures BoardOk(BLANK)
  {
  }

  // ---- What a scrape can rely on ----

  function Responded(p: string): Finisher -> bool {
    (f: Finisher) => f.prefix == p && f.statusClass.Some? && f.pc >= 2
  }

  function RespondedBelow(p: string, n: nat): Finisher -> bool {
    (f: Finisher) => f.prefix == p && f.statusClass.Some? && f.statusClass.value < n && f.pc >= 2
  }

  function InProgress(p: string): Finisher -> bool {
    (f: Finisher) => f.prefix == p && f.pc < DONE
  }

  function Finished(p: string): Finisher -> bool {
    (f: Finisher) => f.prefix == p && f.pc >= DONE
  }

  /** The sum of a prefix's status totals over the classes below n. */
  function ClassSum(reg: Registry, p: string, n: nat): nat {
    if n == 0 then 0 else ClassSum(reg, p, n - 1) + StatusOf(reg, n - 1, p)
  }

  lemma {:induction false} ClassSumCounts(b: Board, p: string, n: nat)
    requires ClassesOk(b)
    ensures ClassSum(b.reg, p, n) == Count(b.finishers, RespondedBelow(p, n))
  {
    if n == 0 {
      CountZero(b.finishers, RespondedBelow(p, 0));
    } else {
      ClassSumCounts(b, p, n - 1);
      CountSplit(b.finishers, RespondedBelow(p, n), RespondedBelow(p, n - 1), Classed(p, n - 1));
    }
  }

  ghost predicate AllClassed(b: Board) {
    forall k :: 0 <= k < |b.finishers| ==> b.finishers[k].statusClass.Some?
  }

  lemma ClassTotal(b: Board, p: string)
    requires BoardOk(b)
    ensures ClassSum(b.reg, p, 10) == Count(b.finishers, Responded(p))
  {
    ClassSumCounts(b, p, 10);
    CountMonotone(b.finishers, RespondedBelow(p, 10), Responded(p));
    CountMonotone(b.finishers, Responded(p), RespondedBelow(p, 10));
  }

  /** Finishes without a status class, past the point where it would have been counted. */
  function Unclassed(p: string): Finisher -> bool {
    (f: Finisher) => f.prefix == p && f.statusClass.None? && f.pc >= 2
  }

  /** Under every interleaving, requests_total is at least the sum of the status classes and of
      the finishes without one, which is at least the histogram count, and they differ by at most
      the finishes in progress; so with none in progress all three are the number of finished
      requests of the prefix. */
  lemma MetricsAccounting(b: Board, p: string)
    requires BoardOk(b)
    ensures var requests, classes, observed :=
              CountersOf(b.reg, p).requestsTotal, ClassSum(b.reg, p, 10), HistogramOf(b.reg, p).count;
            var unclassed := Count(b.finishers, Unclassed(p));
            var pending, finished := Count(b.finishers, InProgress(p)), Count(b.finishers, Finished(p));
            && requests >= classes + unclassed >= observed >= finished
            && requests <= finished + pending
            && (pending == 0 ==> requests == classes + unclassed == observed == finished)
  {
    ClassTotal(b, p);
    CountSplit(b.finishers, Past(p, 2), Responded(p), Unclassed(p));
    CountMonotone(b.finishers, Past(p, 2), Past(p, 1));
    CountMonotone(b.finishers, Observed(p), Past(p, 2));
    CountMonotone(b.finishers, Finished(p), Observed(p));
    CountCover(b.finishers, Past(p, 1), Finished(p), InProgress(p));
  }

  // ---- A scrape takes time ----

  /** While a scrape holds the lock of the status map, no status class is counted; increments of
      counters and histograms that requests already hold go on. */
  ghost predicate StatusFrozen(b: Board, steps: seq<BoardStep>)
    requires IsBoardRun(b, steps)
    decreases |steps|
  {
    steps == [] ||
    (&& (steps[0].Advance? ==>
           b.finishers[steps[0].finisher].pc != 1 || b.finishers[steps[0].finisher].statusClass.None?)
     && StatusFrozen(BoardNext(b, steps[0]), steps[1..]))
  }

  lemma {:induction false} FrozenTotals(b: Board, steps: seq<BoardStep>)
    requires IsBoardRun(b, steps) && StatusFrozen(b, steps)
    ensures BoardExec(b, steps).reg.statusTotals == b.reg.statusTotals
    decreases |steps|
  {
    if steps != [] {
      FrozenTotals(BoardNext(b, steps[0]), steps[1..]);
    }
  }

  lemma {:induction false} SameClassSum(r1: Registry, r2: Registry, p: string, n: nat)
    requires r1.statusTotals == r2.statusTotals
    ensures ClassSum(r1, p, n) == ClassSum(r2, p, n)
  {
    if n > 0 {
      SameClassSum(r1, r2, p, n - 1);
    }
  }

  /** The order between the families survives a scrape that reads them one after the other:
      requests_total after some steps, the classes at any moment, the histogram count after more. */
  lemma ScrapeKeepsOrder(b: Board, first: seq<BoardStep>, second: seq<BoardStep>, p: string)
    requires BoardOk(b) && IsBoardRun(b, first) && IsBoardRun(BoardExec(b, first), second)
    requires StatusFrozen(b, first) && StatusFrozen(BoardExec(b, first), second)
    ensures var early := BoardExec(b, first);
            var late := BoardExec(early, second);
            var classes := ClassSum(b.reg, p, 10);
            && classes == ClassSum(early.reg, p, 10) == ClassSum(late.reg, p, 10)
            && CountersOf(early.reg, p).requestsTotal >= classes
            && classes + Count(late.finishers, Unclassed(p)) >= HistogramOf(late.reg, p).count
  {
    var early := BoardExec(b, first);
    var late := BoardExec(early, second);
    BoardInvariant(b, first);
    BoardInvariant(early, second);
    FrozenTotals(b, first);
    FrozenTotals(early, second);
    SameClassSum(b.reg, early.reg, p, 10);
    SameClassSum(early.reg, late.reg, p, 10);
    MetricsAccounting(early, p);
    MetricsAccounting(late, p);
  }

  function FinishedWithin(p: string, i: nat): Finisher -> bool
    requires i < B
  {
    (f: Finisher) => f.prefix == p && f.pc >= DONE && f.nanos <= BOUNDS[i]
  }

  function PassedBucket(p: string, i: nat): Finisher -> bool
    requires i < B
  {
    (f: Finisher) => f.prefix == p && 2 + i < f.pc < DONE && f.nanos <= BOUNDS[i]
  }

  /** At any moment a bucket holds the finished observations within its bound plus the observers
      in progress that are past it. Buckets are cumulative, and at most the +Inf count, up to the
      observers in progress; exactly so when there are none. */
  lemma HistogramUnderInterleaving(b: Board, p: string, i: nat, j: nat)
    requires BoardOk(b) && i <= j < B
    ensures BucketOf(b.reg, p, i) == Count(b.finishers, FinishedWithin(p, i)) + Count(b.finishers, PassedBucket(p, i))
    ensures BucketOf(b.reg, p, i) <= BucketOf(b.reg, p, j) + Count(b.finishers, InProgress(p))
    ensures BucketOf(b.reg, p, i) <= HistogramOf(b.reg, p).count + Count(b.finishers, InProgress(p))
    ensures Count(b.finishers, InProgress(p)) == 0 ==>
              && BucketOf(b.reg, p, i) == Count(b.finishers, FinishedWithin(p, i))
              && BucketOf(b.reg, p, i) <= BucketOf(b.reg, p, j) <= HistogramOf(b.reg, p).count
  {
    CountSplit(b.finishers, Bucketed(p, i), FinishedWithin(p, i), PassedBucket(p, i));
    CountMonotone(b.finishers, PassedBucket(p, i), InProgress(p));
    BoundsAscend(i, j);
    CountCover(b.finishers, Bucketed(p, i), Bucketed(p, j), InProgress(p));
    CountCover(b.finishers, Bucketed(p, i), Observed(p), InProgress(p));
    CountCover(b.finishers, Bucketed(p, j), Observed(p), InProgress(p));
  }

  lemma BoundsAscend(i: nat, j: nat)
    requires i <= j < B
    ensures BOUNDS[i] <= BOUNDS[j]
  {
  }

  /** A scrape between the first two bucket increments of an observer is not cumulative. */
  lemma ScrapeMidObservation(p: string)
    ensures exists steps ::
      IsBoardRun(BLANK, steps) && BucketOf(BoardExec(BLANK, steps).reg, p, 0) > BucketOf(BoardExec(BLANK, steps).reg, p, 1)
  {
    var s0, adv := Begin(p, Some(2), 0), Advance(0);
    var b1 := BoardNext(BLANK, s0);
    var b2 := BoardNext(b1, adv);
    var b3 := BoardNext(b2, adv);
    var b4 := BoardNext(b3, adv);
    assert IsBoardRun(b4, []);
    assert [adv][1..] == [] && IsBoardRun(b3, [adv]) && BoardExec(b3, [adv]) == b4;
    assert [adv, adv][1..] == [adv] && IsBoardRun(b2, [adv, adv]) && BoardExec(b2, [adv, adv]) == b4;
    assert [adv, adv, adv][1..] == [adv, adv] && IsBoardRun(b1, [adv, adv, adv]) && BoardExec(b1, [adv, adv, adv]) == b4;
    var steps := [s0, adv, adv, adv];
    assert steps[1..] == [adv, adv, adv] && IsBoardRun(BLANK, steps) && BoardExec(BLANK, steps) == b4;
  }

  // ---- Rejections ----

  ghost predicate Distinct(labels: seq<string>) {
    forall i, j :: 0 <= i < j < |labels| ==> labels[i] != labels[j]
  }

  /** The rate_limited_total lines of a scrape, added up over its labels. */
  function LimitedTotal(reg: Registry, labels: seq<string>): nat {
    if labels == [] then 0
    else LimitedTotal(reg, labels[..|labels| - 1]) + CountersOf(reg, labels[|labels| - 1]).rateLimitedTotal
  }

  function In(labels: seq<string>): string -> bool {
    (l: string) => l in labels
  }

  lemma {:induction false} LimitedTotalCounts(b: Board, labels: seq<string>)
    requires RequestsOk(b) && Distinct(labels)
    ensures LimitedTotal(b.reg, labels) == Count(b.limited, In(labels))
  {
    if labels == [] {
      CountZero(b.limited, In(labels));
    } else {
      var rest, last := labels[..|labels| - 1], labels[|labels| - 1];
      assert labels == rest + [last];
      LimitedTotalCounts(b, rest);
      CountSplit(b.limited, In(labels), In(rest), Is(last));
    }
  }

  /** Over the labels of the registry, without repetition, rate_limited_total adds up to the 429s;
      circuit_open_total of a prefix is its short-circuits. */
  lemma RejectionsAddUp(b: Board, labels: seq<string>, p: string)
    requires BoardOk(b) && Distinct(labels)
    requires forall l <- b.reg.perPrefix :: l in labels
    ensures LimitedTotal(b.reg, labels) == |b.limited|
    ensures CountersOf(b.reg, p).circuitOpenTotal == Count(b.shorted, Is(p))
  {
    LimitedTotalCounts(b, labels);
    forall i | 0 <= i < |b.limited| ensures b.limited[i] in labels {
      CountPositive(b.limited, i, Is(b.limited[i]));
      assert CountersOf(b.reg, b.limited[i]).rateLimitedTotal >= 1;
    }
    CountAll(b.limited, In(labels));
  }

  /** The labels of the per-prefix counters: those of 429s, of short-circuits, and of requests that
      have begun to be counted. */
  ghost predicate LabelsOk(b: Board) {
    forall tag :: tag in b.reg.perPrefix <==>
      tag in b.limited || tag in b.shorted || Count(b.finishers, Past(tag, 1)) > 0
  }

  lemma ApplyLabels(reg: Registry, f: Finisher)
    ensures Apply(reg, f).perPrefix.Keys == reg.perPrefix.Keys + (if f.pc == 0 then {f.prefix} else {})
  {
  }

  lemma LabelsKept(b: Board, s: BoardStep)
    requires LabelsOk(b) && Ready(b, s)
    ensures LabelsOk(BoardNext(b, s))
  {
    var b1 := BoardNext(b, s);
    forall tag
      ensures tag in b1.reg.perPrefix <==>
              tag in b1.limited || tag in b1.shorted || Count(b1.finishers, Past(tag, 1)) > 0
    {
      match s
      case Begin(p, c, nanos) => CountAppend(b.finishers, Finisher(p, c, nanos, 0), Past(tag, 1));
      case Advance(k) =>
        ApplyLabels(b.reg, b.finishers[k]);
        CountUpdate(b.finishers, k, b1.finishers[k], Past(tag, 1));
      case RateLimited(_) =>
      case CircuitOpen(_) =>
    }
  }

  lemma {:induction false} LabelsInvariant(b: Board, steps: seq<BoardStep>)
    requires LabelsOk(b) && IsBoardRun(b, steps)
    ensures LabelsOk(BoardExec(b, steps))
    decreases |steps|
  {
    if steps != [] {
      LabelsKept(b, steps[0]);
      LabelsInvariant(BoardNext(b, steps[0]), steps[1..]);
    }
  }
}
