/** How much traffic a dead backend still sees. */
module Outage {
  import opened Counting
  import opened Circuit
  import opened Protocol
  import opened Progress
  import opened Arithmetic

  function IsSend(): Step -> bool { (s: Step) => s.Send? }

  ghost predicate EveryReportFails(steps: seq<Step>) {
    forall i :: 0 <= i < |steps| && steps[i].Report? ==> !steps[i].ok
  }

  /** At most k calls are in flight at every moment of the run. */
  ghost predicate AtMostInFlight(cfg: BreakerConfig, w: World, steps: seq<Step>, k: nat)
    requires IsRun(cfg, w, steps)
    decreases |steps|
  {
    && Count(w.calls, IsLive()) <= k
    && (steps == [] || AtMostInFlight(cfg, Next(cfg, w, steps[0]), steps[1..], k))
  }

  /** Calls waiting for their body, and calls waiting for the backend. */
  function Buffered(w: World): nat { Count(w.calls, PhaseIs(Buffering)) }
  function Waiting(w: World): nat { Count(w.calls, PhaseIs(Sending)) }

  lemma LiveSplit(w: World)
    ensures Count(w.calls, IsLive()) == Buffered(w) + Waiting(w)
  {
    CountSplit(w.calls, IsLive(), PhaseIs(Buffering), PhaseIs(Sending));
  }

  /** `sends` sends, `reports` reports and `probes` probes have been made since time `start`,
      when the breaker was Closed. While Closed the sends are paid for by reports and calls
      still waiting; afterwards the budget grows only by probes, each a cooldown later. */
  ghost predicate Budget(cfg: BreakerConfig, w: World, k: nat, start: nat, sends: nat, reports: nat, probes: nat) {
    if w.breaker.state == Closed then
      && probes == 0 && start <= w.now
      && sends <= reports + Waiting(w)
      && reports <= w.breaker.consecutiveFailures
    else
      && sends + Buffered(w) <= Trip(cfg) + k - 1 + probes
      && w.breaker.openedAt.Some?
      && start + probes * cfg.cooldown <= (if w.breaker.state == Open then w.breaker.openedAt.value else w.now)
  }

  lemma PhaseCounts(w: World, c: nat, phase: Phase)
    requires c < |w.calls|
    ensures Buffered(SetPhase(w, c, phase)) + Indicator(w.calls[c].phase == Buffering) ==
            Buffered(w) + Indicator(phase == Buffering)
    ensures Waiting(SetPhase(w, c, phase)) + Indicator(w.calls[c].phase == Sending) ==
            Waiting(w) + Indicator(phase == Sending)
  {
    CountUpdate(w.calls, c, w.calls[c].(phase := phase), PhaseIs(Buffering));
    CountUpdate(w.calls, c, w.calls[c].(phase := phase), PhaseIs(Sending));
  }

  function ProbesAfter(cfg: BreakerConfig, w: World, s: Step, probes: nat): nat {
    if s.TryAdmit? && w.breaker.state == Open && Waited(cfg, w.breaker, w.now) then probes + 1 else probes
  }

  function ReportsAfter(s: Step, reports: nat): nat {
    if s.Report? then reports + 1 else reports
  }

  lemma BudgetAdmit(
    cfg: BreakerConfig, w: World, k: nat, start: nat, sends: nat, reports: nat, probes: nat)
    requires Inv(cfg, w) && Budget(cfg, w, k, start, sends, reports, probes)
    ensures Budget(cfg, AdmitNext(cfg, w), k, start, sends, reports, ProbesAfter(cfg, w, TryAdmit, probes))
  {
    var call := CallRecord(w.now, w.epoch, Buffering);
    CountAppend(w.calls, call, PhaseIs(Buffering));
    CountAppend(w.calls, call, PhaseIs(Sending));
    if w.breaker.state == Open && Waited(cfg, w.breaker, w.now) {
      assert (probes + 1) * cfg.cooldown == probes * cfg.cooldown + cfg.cooldown;
    }
  }

  lemma BudgetReport(
    cfg: BreakerConfig, w: World, c: nat, k: nat, start: nat, sends: nat, reports: nat, probes: nat)
    requires Inv(cfg, w) && Budget(cfg, w, k, start, sends, reports, probes)
    requires InPhase(w, c, Sending) && Count(w.calls, IsLive()) <= k
    ensures Budget(cfg, ReportNext(cfg, w, c, false), k, start, sends, reports + 1, probes)
  {
    PhaseCounts(w, c, Reported);
    LiveSplit(w);
    assert ReportNext(cfg, w, c, false).calls == SetPhase(w, c, Reported).calls;
  }

  lemma BudgetNext(
    cfg: BreakerConfig, w: World, s: Step, k: nat, start: nat, sends: nat, reports: nat, probes: nat)
    requires Inv(cfg, w) && Budget(cfg, w, k, start, sends, reports, probes)
    requires Enabled(w, s) && Count(w.calls, IsLive()) <= k
    requires s.Report? ==> !s.ok
    ensures Budget(cfg, Next(cfg, w, s), k, start, sends + Indicator(s.Send?), ReportsAfter(s, reports),
                   ProbesAfter(cfg, w, s, probes))
  {
    match s
    case Tick(_) =>
    case TryAdmit => BudgetAdmit(cfg, w, k, start, sends, reports, probes);
    case Abandon(c) => PhaseCounts(w, c, Abandoned);
    case Send(c) => PhaseCounts(w, c, Sending);
    case Report(c, _) => BudgetReport(cfg, w, c, k, start, sends, reports, probes);
  }

  lemma {:induction false} BudgetExec(
    cfg: BreakerConfig, w: World, steps: seq<Step>, k: nat, start: nat, sends: nat, reports: nat, probes: nat)
    returns (r: nat, q: nat)
    requires Inv(cfg, w) && Budget(cfg, w, k, start, sends, reports, probes)
    requires IsRun(cfg, w, steps) && EveryReportFails(steps) && AtMostInFlight(cfg, w, steps, k)
    ensures Inv(cfg, Exec(cfg, w, steps)) && Count(Exec(cfg, w, steps).calls, IsLive()) <= k
    ensures Budget(cfg, Exec(cfg, w, steps), k, start, sends + Count(steps, IsSend()), r, q)
    decreases |steps|
  {
    if steps == [] {
      r, q := reports, probes;
    } else {
      var s := steps[0];
      CountHead(steps, IsSend());
      InvNext(cfg, w, s);
      BudgetNext(cfg, w, s, k, start, sends, reports, probes);
      r, q := BudgetExec(cfg, Next(cfg, w, s), steps[1..], k, start, sends + Indicator(s.Send?),
                         ReportsAfter(s, reports), ProbesAfter(cfg, w, s, probes));
    }
  }

  lemma BudgetSpent(
    cfg: BreakerConfig, w: World, k: nat, start: nat, sends: nat, reports: nat, probes: nat)
    requires cfg.cooldown > 0 && Inv(cfg, w) && start <= w.now
    requires Budget(cfg, w, k, start, sends, reports, probes) && Count(w.calls, IsLive()) <= k
    ensures sends <= Trip(cfg) + k - 1 + (w.now - start) / cfg.cooldown
  {
    LiveSplit(w);
    if w.breaker.state != Closed {
      QuotientBound(probes, cfg.cooldown, w.now - start);
    }
  }

  /** From any Closed state, while every report is a failure and at most k calls are in flight
      at once, the backend is sent at most Trip + k - 1 requests plus one per elapsed cooldown.
      No hypothesis on how late reports arrive. */
  lemma OutageFrom(cfg: BreakerConfig, w: World, steps: seq<Step>, k: nat)
    requires cfg.cooldown > 0 && Inv(cfg, w) && w.breaker.state == Closed
    requires IsRun(cfg, w, steps) && EveryReportFails(steps) && AtMostInFlight(cfg, w, steps, k)
    ensures Count(steps, IsSend()) <= Trip(cfg) + k - 1 + (Exec(cfg, w, steps).now - w.now) / cfg.cooldown
  {
    var r, q := BudgetExec(cfg, w, steps, k, w.now, 0, 0, 0);
    ClockGrows(cfg, w, steps);
    BudgetSpent(cfg, Exec(cfg, w, steps), k, w.now, Count(steps, IsSend()), r, q);
  }

  /** The bound from any reachable Closed state. */
  lemma OutageBound(cfg: BreakerConfig, before: seq<Step>, steps: seq<Step>, k: nat)
    requires cfg.cooldown > 0 && IsRun(cfg, INIT, before)
    requires Exec(cfg, INIT, before).breaker.state == Closed
    requires IsRun(cfg, Exec(cfg, INIT, before), steps)
    requires EveryReportFails(steps) && AtMostInFlight(cfg, Exec(cfg, INIT, before), steps, k)
    ensures var w := Exec(cfg, INIT, before);
            Count(steps, IsSend()) <= Trip(cfg) + k - 1 + (Exec(cfg, w, steps).now - w.now) / cfg.cooldown
  {
    InvExec(cfg, INIT, before);
    OutageFrom(cfg, Exec(cfg, INIT, before), steps, k);
  }

  // ---- The bound is reached ----

  /** A run of failing reports to world w, with at most k calls in flight, that made `sends` sends. */
  ghost predicate Failing(cfg: BreakerConfig, steps: seq<Step>, k: nat, sends: nat, w: World) {
    && IsRun(cfg, INIT, steps) && Exec(cfg, INIT, steps) == w
    && EveryReportFails(steps) && AtMostInFlight(cfg, INIT, steps, k) && Count(steps, IsSend()) == sends
  }

  lemma {:induction false} InFlightSnoc(cfg: BreakerConfig, w: World, steps: seq<Step>, s: Step, k: nat)
    requires IsRun(cfg, w, steps) && AtMostInFlight(cfg, w, steps, k)
    requires Enabled(Exec(cfg, w, steps), s)
    requires Count(Next(cfg, Exec(cfg, w, steps), s).calls, IsLive()) <= k
    ensures IsRun(cfg, w, steps + [s]) && AtMostInFlight(cfg, w, steps + [s], k)
    decreases |steps|
  {
    RunSnoc(cfg, w, steps, s);
    if steps == [] {
      assert ([] + [s])[1..] == [];
      assert AtMostInFlight(cfg, Next(cfg, w, s), [], k);
    } else {
      assert (steps + [s])[1..] == steps[1..] + [s];
      InFlightSnoc(cfg, Next(cfg, w, steps[0]), steps[1..], s, k);
    }
  }

  lemma Extend(cfg: BreakerConfig, steps: seq<Step>, s: Step, k: nat, sends: nat, w: World)
    requires Failing(cfg, steps, k, sends, w) && Enabled(w, s) && (s.Report? ==> !s.ok)
    requires Count(Next(cfg, w, s).calls, IsLive()) <= k
    ensures Failing(cfg, steps + [s], k, sends + Indicator(s.Send?), Next(cfg, w, s))
  {
    RunSnoc(cfg, INIT, steps, s);
    InFlightSnoc(cfg, INIT, steps, s, k);
    CountAppend(steps, s, IsSend());
  }

  /** Runs built step by step at their end. */
  datatype Path = Start | Then(before: Path, step: Step)

  function EndOf(cfg: BreakerConfig, path: Path): World {
    match path
    case Start => INIT
    case Then(before, s) =>
      var w := EndOf(cfg, before);
      if Enabled(w, s) then Next(cfg, w, s) else w
  }

  function SendsOf(path: Path): nat {
    match path
    case Start => 0
    case Then(before, s) => SendsOf(before) + Indicator(s.Send?)
  }

  ghost predicate FailingPath(cfg: BreakerConfig, path: Path, k: nat) {
    match path
    case Start => true
    case Then(before, s) =>
      && FailingPath(cfg, before, k)
      && Enabled(EndOf(cfg, before), s) && (s.Report? ==> !s.ok)
      && Count(EndOf(cfg, path).calls, IsLive()) <= k
  }

  lemma {:induction false} PathIsRun(cfg: BreakerConfig, path: Path, k: nat) returns (steps: seq<Step>)
    requires FailingPath(cfg, path, k)
    ensures Failing(cfg, steps, k, SendsOf(path), EndOf(cfg, path))
  {
    match path
    case Start =>
      steps := [];
      assert AtMostInFlight(cfg, INIT, [], k);
    case Then(before, s) =>
      var shorter := PathIsRun(cfg, before, k);
      Extend(cfg, shorter, s, k, SendsOf(before), EndOf(cfg, before));
      steps := shorter + [s];
  }

  lemma LiveOneMore(w: World, phase: Phase)
    ensures Count(w.calls + [CallRecord(w.now, w.epoch, phase)], IsLive()) ==
            Count(w.calls, IsLive()) + Indicator(phase == Buffering || phase == Sending)
  {
    CountAppend(w.calls, CallRecord(w.now, w.epoch, phase), IsLive());
  }

  lemma LastPhase(calls: seq<CallRecord>, r: CallRecord, phase: Phase)
    ensures (calls + [r])[|calls| := r.(phase := phase)] == calls + [r.(phase := phase)]
  {
  }

  lemma AdmitThenSend(cfg: BreakerConfig, w: World)
    requires AdmitDecision(cfg, w.breaker, w.now) == Call
    ensures var u := AdmitNext(cfg, w);
            && Count(u.calls, IsLive()) == Count(w.calls, IsLive()) + 1
            && Enabled(u, Send(|w.calls|))
            && var v := Next(cfg, u, Send(|w.calls|));
               && v.now == w.now && v.breaker == AfterAdmit(cfg, w.breaker, w.now)
               && v.calls == w.calls + [CallRecord(w.now, w.epoch, Sending)]
               && Count(v.calls, IsLive()) == Count(w.calls, IsLive()) + 1
  {
    LiveOneMore(w, Buffering);
    LiveOneMore(w, Sending);
    LastPhase(w.calls, CallRecord(w.now, w.epoch, Buffering), Sending);
  }

  lemma FailLast(cfg: BreakerConfig, w: World, u: World)
    requires u.calls == w.calls + [CallRecord(w.now, w.epoch, Sending)]
    ensures Enabled(u, Report(|w.calls|, false))
    ensures var v := Next(cfg, u, Report(|w.calls|, false));
            && v.now == u.now && v.breaker == AfterRecord(cfg, u.breaker, false, u.now)
            && Count(v.calls, IsLive()) == Count(w.calls, IsLive())
  {
    LiveOneMore(w, Reported);
    LastPhase(w.calls, CallRecord(w.now, w.epoch, Sending), Reported);
  }

  lemma PathThen(cfg: BreakerConfig, path: Path, k: nat, w: World, s: Step) returns (more: Path)
    requires FailingPath(cfg, path, k) && EndOf(cfg, path) == w && Enabled(w, s) && (s.Report? ==> !s.ok)
    requires Count(Next(cfg, w, s).calls, IsLive()) <= k
    ensures FailingPath(cfg, more, k) && EndOf(cfg, more) == Next(cfg, w, s)
    ensures SendsOf(more) == SendsOf(path) + Indicator(s.Send?)
  {
    more := Then(path, s);
  }

  /** One more call is admitted and sent. */
  lemma SendOne(cfg: BreakerConfig, path: Path, k: nat, w: World) returns (more: Path, v: World)
    requires FailingPath(cfg, path, k) && EndOf(cfg, path) == w
    requires AdmitDecision(cfg, w.breaker, w.now) == Call && Count(w.calls, IsLive()) < k
    ensures FailingPath(cfg, more, k) && EndOf(cfg, more) == v && SendsOf(more) == SendsOf(path) + 1
    ensures v.now == w.now && v.breaker == AfterAdmit(cfg, w.breaker, w.now)
    ensures v.calls == w.calls + [CallRecord(w.now, w.epoch, Sending)]
    ensures Count(v.calls, IsLive()) == Count(w.calls, IsLive()) + 1
  {
    AdmitThenSend(cfg, w);
    var u := AdmitNext(cfg, w);
    var asked := PathThen(cfg, path, k, w, TryAdmit);
    more := PathThen(cfg, asked, k, u, Send(|w.calls|));
    v := Next(cfg, u, Send(|w.calls|));
  }

  /** One more call is admitted, sent and fails. */
  lemma FailOne(cfg: BreakerConfig, path: Path, k: nat, w: World) returns (more: Path, v: World)
    requires FailingPath(cfg, path, k) && EndOf(cfg, path) == w
    requires AdmitDecision(cfg, w.breaker, w.now) == Call && Count(w.calls, IsLive()) < k
    ensures FailingPath(cfg, more, k) && EndOf(cfg, more) == v && SendsOf(more) == SendsOf(path) + 1
    ensures v.now == w.now && Count(v.calls, IsLive()) == Count(w.calls, IsLive())
    ensures v.breaker == AfterRecord(cfg, AfterAdmit(cfg, w.breaker, w.now), false, w.now)
  {
    var sent, u := SendOne(cfg, path, k, w);
    FailLast(cfg, w, u);
    more := PathThen(cfg, sent, k, u, Report(|w.calls|, false));
    v := Next(cfg, u, Report(|w.calls|, false));
  }

  /** j calls that never hear back. */
  lemma {:induction false} HoldCalls(cfg: BreakerConfig, k: nat, j: nat) returns (path: Path, w: World)
    requires j < k
    ensures FailingPath(cfg, path, k) && EndOf(cfg, path) == w && SendsOf(path) == j
    ensures w.now == 0 && w.breaker == FRESH && Count(w.calls, IsLive()) == j
  {
    if j == 0 {
      path, w := Start, INIT;
    } else {
      var shorter, u := HoldCalls(cfg, k, j - 1);
      path, w := SendOne(cfg, shorter, k, u);
    }
  }

  /** Then m failures while Closed. */
  lemma {:induction false} FailCalls(cfg: BreakerConfig, k: nat, m: nat) returns (path: Path, w: World)
    requires k >= 1 && m <= Trip(cfg)
    ensures FailingPath(cfg, path, k) && EndOf(cfg, path) == w && SendsOf(path) == k - 1 + m
    ensures w.now == 0 && Count(w.calls, IsLive()) == k - 1
    ensures w.breaker == (if m == Trip(cfg) then JustOpened(0) else Inner(Closed, m, None))
  {
    if m == 0 {
      path, w := HoldCalls(cfg, k, k - 1);
    } else {
      var shorter, u := FailCalls(cfg, k, m - 1);
      path, w := FailOne(cfg, shorter, k, u);
    }
  }

  lemma ProbeOnce(cfg: BreakerConfig, path: Path, k: nat, w: World) returns (more: Path, v: World)
    requires FailingPath(cfg, path, k) && EndOf(cfg, path) == w
    requires w.breaker == JustOpened(w.now) && Count(w.calls, IsLive()) < k
    ensures FailingPath(cfg, more, k) && EndOf(cfg, more) == v && SendsOf(more) == SendsOf(path) + 1
    ensures v.now == w.now + cfg.cooldown && Count(v.calls, IsLive()) == Count(w.calls, IsLive())
    ensures v.breaker == JustOpened(v.now)
  {
    var rested := PathThen(cfg, path, k, w, Tick(cfg.cooldown));
    more, v := FailOne(cfg, rested, k, w.(now := w.now + cfg.cooldown));
  }

  /** Then a failing probe after each of n cooldowns. */
  lemma {:induction false} FailProbes(cfg: BreakerConfig, k: nat, n: nat) returns (path: Path, w: World)
    requires k >= 1
    ensures FailingPath(cfg, path, k) && EndOf(cfg, path) == w && SendsOf(path) == Trip(cfg) + k - 1 + n
    ensures w.now == n * cfg.cooldown && Count(w.calls, IsLive()) == k - 1
    ensures w.breaker == JustOpened(n * cfg.cooldown)
  {
    if n == 0 {
      path, w := FailCalls(cfg, k, Trip(cfg));
    } else {
      var shorter, u := FailProbes(cfg, k, n - 1);
      OneMoreGap(n, cfg.cooldown);
      path, w := ProbeOnce(cfg, shorter, k, u);
    }
  }

  /** Every value of the bound is reached, from the initial state: k - 1 hanging calls, Trip
      failures, and one failing probe after each of n cooldowns. */
  lemma OutageBoundReached(cfg: BreakerConfig, k: nat, n: nat) returns (steps: seq<Step>)
    requires k >= 1
    ensures IsRun(cfg, INIT, steps) && EveryReportFails(steps) && AtMostInFlight(cfg, INIT, steps, k)
    ensures Exec(cfg, INIT, steps).now == n * cfg.cooldown
    ensures Count(steps, IsSend()) == Trip(cfg) + k - 1 + n
  {
    var path, w := FailProbes(cfg, k, n);
    steps := PathIsRun(cfg, path, k);
  }
}
