/** Conservation of admitted calls, and when a half-open breaker can ever admit again. */
module Progress {
  import opened Counting
  import opened Circuit
  import opened Protocol
  import opened SingleProbe

  function IsAdmitted(): Event -> bool { (e: Event) => e.Admitted? }
  function IsAnswered(): Event -> bool { (e: Event) => e.Answered? }
  function IsDropped(): Event -> bool { (e: Event) => e.Dropped? }

  function PhaseIs(phase: Phase): CallRecord -> bool { (c: CallRecord) => c.phase == phase }

  function IsLive(): CallRecord -> bool {
    (c: CallRecord) => c.phase == Buffering || c.phase == Sending
  }

  /** Admitted = reported + abandoned + in flight, and every admitted call has its record. */
  ghost predicate Balanced(w: World) {
    && Count(w.log, IsAdmitted()) == Count(w.log, IsAnswered()) + Count(w.log, IsDropped()) + Count(w.calls, IsLive())
    && Count(w.log, IsAdmitted()) == |w.calls|
  }

  lemma LogOne(log: seq<Event>, e: Event)
    ensures Count(log + [e], IsAdmitted()) == Count(log, IsAdmitted()) + Indicator(e.Admitted?)
    ensures Count(log + [e], IsAnswered()) == Count(log, IsAnswered()) + Indicator(e.Answered?)
    ensures Count(log + [e], IsDropped()) == Count(log, IsDropped()) + Indicator(e.Dropped?)
  {
    CountAppend(log, e, IsAdmitted());
    CountAppend(log, e, IsAnswered());
    CountAppend(log, e, IsDropped());
  }

  lemma PhaseKeepsBalance(w: World, c: nat, phase: Phase, e: Event)
    requires Balanced(w) && InFlight(w, c) && phase != Buffering && !e.Admitted?
    requires e.Answered? <==> phase == Reported
    requires e.Dropped? <==> phase == Abandoned
    ensures Balanced(SetPhase(w, c, phase).(log := w.log + [e]))
  {
    LogOne(w.log, e);
    CountUpdate(w.calls, c, w.calls[c].(phase := phase), IsLive());
  }

  lemma EventKeepsBalance(w: World, e: Event)
    requires Balanced(w) && !e.Admitted? && !e.Answered? && !e.Dropped?
    ensures Balanced(w.(log := w.log + [e]))
  {
    LogOne(w.log, e);
  }

  lemma AdmitKeepsBalance(cfg: BreakerConfig, w: World)
    requires Balanced(w)
    ensures Balanced(AdmitNext(cfg, w))
  {
    EventKeepsBalance(w, Refused(w.now));
    LogOne(w.log, Admitted(|w.calls|, w.now));
    CountAppend(w.calls, CallRecord(w.now, w.epoch, Buffering), IsLive());
  }

  lemma ReportKeepsBalance(cfg: BreakerConfig, w: World, c: nat, ok: bool)
    requires Balanced(w) && InPhase(w, c, Sending)
    ensures Balanced(ReportNext(cfg, w, c, ok))
  {
    var w1 := SetPhase(w, c, Reported).(log := w.log + [Answered(c, ok, w.now)]);
    PhaseKeepsBalance(w, c, Reported, Answered(c, ok, w.now));
    EventKeepsBalance(w1, Opening(w.now));
    EventKeepsBalance(w1, Closing(w.now));
  }

  lemma BalancedNext(cfg: BreakerConfig, w: World, s: Step)
    requires Balanced(w) && Enabled(w, s)
    ensures Balanced(Next(cfg, w, s))
  {
    match s
    case Tick(_) =>
    case TryAdmit => AdmitKeepsBalance(cfg, w);
    case Abandon(c) => PhaseKeepsBalance(w, c, Abandoned, Dropped(c, w.now));
    case Send(c) => PhaseKeepsBalance(w, c, Sending, Sent(c, w.now));
    case Report(c, ok) => ReportKeepsBalance(cfg, w, c, ok);
  }

  lemma {:induction false} BalancedExec(cfg: BreakerConfig, w: World, steps: seq<Step>)
    requires Balanced(w) && IsRun(cfg, w, steps)
    ensures Balanced(Exec(cfg, w, steps))
    decreases |steps|
  {
    if steps != [] {
      BalancedNext(cfg, w, steps[0]);
      BalancedExec(cfg, Next(cfg, w, steps[0]), steps[1..]);
    }
  }

  /** In every run, admitted = reported + abandoned + in flight. */
  lemma AdmissionConservation(cfg: BreakerConfig, steps: seq<Step>)
    requires IsRun(cfg, INIT, steps)
    ensures Balanced(Exec(cfg, INIT, steps))
  {
    BalancedExec(cfg, INIT, steps);
  }

  /** In HalfOpen the probe is in flight or abandoned, and any report at all ends HalfOpen. */
  lemma HalfOpenWaitsForReport(cfg: BreakerConfig, steps: seq<Step>, c: nat, ok: bool)
    requires IsRun(cfg, INIT, steps) && Exec(cfg, INIT, steps).breaker.state == HalfOpen
    ensures var w := Exec(cfg, INIT, steps);
            w.probe.Some? && (InFlight(w, w.probe.value) || InPhase(w, w.probe.value, Abandoned))
    ensures var w := Exec(cfg, INIT, steps);
            Enabled(w, Report(c, ok)) ==>
              Next(cfg, w, Report(c, ok)).breaker.state == if ok then Closed else Open
  {
    InvExec(cfg, INIT, steps);
  }

  /** Without a report, HalfOpen refuses every caller, however long the clock runs. */
  lemma {:induction false} NoReportNoAdmission(cfg: BreakerConfig, w: World, steps: seq<Step>)
    requires w.breaker.state == HalfOpen && IsRun(cfg, w, steps)
    requires forall i :: 0 <= i < |steps| ==> !steps[i].Report?
    ensures Exec(cfg, w, steps).breaker == w.breaker
    ensures |Exec(cfg, w, steps).calls| == |w.calls|
    decreases |steps|
  {
    if steps != [] {
      NoReportNoAdmission(cfg, Next(cfg, w, steps[0]), steps[1..]);
    }
  }

  ghost predicate NothingInFlight(w: World) {
    forall c :: 0 <= c < |w.calls| ==> w.calls[c].phase == Reported || w.calls[c].phase == Abandoned
  }

  /** With nothing in flight no report can come: the breaker is half-open for good. */
  lemma {:induction false} WedgedForever(cfg: BreakerConfig, w: World, steps: seq<Step>)
    requires w.breaker.state == HalfOpen && NothingInFlight(w) && IsRun(cfg, w, steps)
    ensures Exec(cfg, w, steps).breaker == w.breaker && Exec(cfg, w, steps).calls == w.calls
    decreases |steps|
  {
    if steps != [] {
      assert steps[0].Tick? || steps[0].TryAdmit?;
      WedgedForever(cfg, Next(cfg, w, steps[0]), steps[1..]);
    }
  }

  ghost predicate CanAdmitAgain(cfg: BreakerConfig, w: World) {
    exists steps :: IsRun(cfg, w, steps) && |Exec(cfg, w, steps).calls| > |w.calls|
  }

  lemma Recovery(cfg: BreakerConfig, w: World, c: nat)
    requires w.breaker.state == HalfOpen && InFlight(w, c)
    ensures CanAdmitAgain(cfg, w)
  {
    var steps: seq<Step> := [];
    assert IsRun(cfg, w, steps);
    if w.calls[c].phase == Buffering {
      RunSnoc(cfg, w, steps, Send(c));
      steps := steps + [Send(c)];
    }
    RunSnoc(cfg, w, steps, Report(c, true));
    steps := steps + [Report(c, true)];
    RunSnoc(cfg, w, steps, TryAdmit);
    steps := steps + [TryAdmit];
    assert |Exec(cfg, w, steps).calls| > |w.calls|;
  }

  /** A half-open breaker can ever admit another call exactly when some call is in flight. */
  lemma RecoverableExactly(cfg: BreakerConfig, w: World)
    requires w.breaker.state == HalfOpen
    ensures CanAdmitAgain(cfg, w) <==> !NothingInFlight(w)
  {
    if NothingInFlight(w) {
      forall steps | IsRun(cfg, w, steps)
        ensures |Exec(cfg, w, steps).calls| <= |w.calls|
      {
        WedgedForever(cfg, w, steps);
      }
    } else {
      var c :| 0 <= c < |w.calls| && w.calls[c].phase != Reported && w.calls[c].phase != Abandoned;
      Recovery(cfg, w, c);
    }
  }

  /** Under the timing hypothesis that call is the probe, so a breaker is lost exactly when its
      probe's request body could not be read. */
  lemma LostExactlyByAbandonedProbe(cfg: BreakerConfig, steps: seq<Step>, deadline: nat)
    requires IsRun(cfg, INIT, steps) && deadline < cfg.cooldown && Timely(cfg, INIT, steps, deadline)
    requires Exec(cfg, INIT, steps).breaker.state == HalfOpen
    ensures var w := Exec(cfg, INIT, steps);
            w.probe.Some? && (CanAdmitAgain(cfg, w) <==> !InPhase(w, w.probe.value, Abandoned))
  {
    var w := Exec(cfg, INIT, steps);
    TimedExec(cfg, INIT, steps, deadline);
    RecoverableExactly(cfg, w);
    assert forall c :: 0 <= c < |w.calls| && w.calls[c].phase != Reported && w.calls[c].phase != Abandoned ==>
      InFlight(w, c);
  }

  /** Every configuration reaches such a state: the promised recovery after a cooldown fails. */
  lemma WedgeReachable(cfg: BreakerConfig) returns (steps: seq<Step>)
    ensures IsRun(cfg, INIT, steps)
    ensures Exec(cfg, INIT, steps).breaker.state == HalfOpen
    ensures !CanAdmitAgain(cfg, Exec(cfg, INIT, steps))
  {
    var n := Trip(cfg);
    steps := StragglerRun(cfg, n);
    RunSnoc(cfg, INIT, steps, Report(0, false));
    steps := steps + [Report(0, false)];
    RunSnoc(cfg, INIT, steps, Tick(cfg.cooldown));
    steps := steps + [Tick(cfg.cooldown)];
    RunSnoc(cfg, INIT, steps, TryAdmit);
    steps := steps + [TryAdmit];
    RunSnoc(cfg, INIT, steps, Abandon(n + 1));
    steps := steps + [Abandon(n + 1)];
    RecoverableExactly(cfg, Exec(cfg, INIT, steps));
  }
}
