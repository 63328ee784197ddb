/** When "only one probe is ever in flight" holds: exactly when every admitted call is over
    within a deadline shorter than the cooldown. */
module SingleProbe {
  import opened Counting
  import opened Circuit
  import opened Protocol

  ghost predicate WithinDeadline(w: World, deadline: nat) {
    forall c :: 0 <= c < |w.calls| && InFlight(w, c) ==> w.now <= w.calls[c].admittedAt + deadline
  }

  /** At every moment of the run, every call in flight is within the deadline. */
  ghost predicate Timely(cfg: BreakerConfig, w: World, steps: seq<Step>, deadline: nat)
    requires IsRun(cfg, w, steps)
    decreases |steps|
  {
    && WithinDeadline(w, deadline)
    && (steps == [] || Timely(cfg, Next(cfg, w, steps[0]), steps[1..], deadline))
  }

  /** The only call that may be in flight during HalfOpen is the one that entered it. */
  ghost predicate ProbeAlone(w: World) {
    w.breaker.state == HalfOpen ==>
      forall c :: 0 <= c < |w.calls| && InFlight(w, c) ==> w.probe == Some(c)
  }

  ghost predicate TimedInv(w: World) {
    && ProbeAlone(w)
    && forall c :: 0 <= c < |w.calls| && InFlight(w, c) ==>
         && (w.breaker.state == Closed ==> w.calls[c].epoch == w.epoch)
         && (w.breaker.state == Open ==>
               && w.calls[c].epoch < w.epoch
               && w.breaker.openedAt.Some? && w.calls[c].admittedAt <= w.breaker.openedAt.value)
  }

  lemma TimedNext(cfg: BreakerConfig, w: World, s: Step, deadline: nat)
    requires Inv(cfg, w) && TimedInv(w) && WithinDeadline(w, deadline) && deadline < cfg.cooldown
    requires Enabled(w, s)
    ensures TimedInv(Next(cfg, w, s))
  {
    var w1 := Next(cfg, w, s);
    if s.TryAdmit? {
      assert forall c :: 0 <= c < |w.calls| && InFlight(w1, c) ==> InFlight(w, c) && w1.calls[c] == w.calls[c];
    } else if !s.Tick? {
      assert forall c :: 0 <= c < |w1.calls| && InFlight(w1, c) ==>
        InFlight(w, c) && w1.calls[c].epoch == w.calls[c].epoch && w1.calls[c].admittedAt == w.calls[c].admittedAt;
    } else {
      assert forall c :: 0 <= c < |w1.calls| && InFlight(w1, c) ==> InFlight(w, c);
    }
  }

  lemma {:induction false} TimedExec(cfg: BreakerConfig, w: World, steps: seq<Step>, deadline: nat)
    requires Inv(cfg, w) && TimedInv(w) && deadline < cfg.cooldown
    requires IsRun(cfg, w, steps) && Timely(cfg, w, steps, deadline)
    ensures TimedInv(Exec(cfg, w, steps)) && Inv(cfg, Exec(cfg, w, steps))
    decreases |steps|
  {
    if steps != [] {
      InvNext(cfg, w, steps[0]);
      TimedNext(cfg, w, steps[0], deadline);
      TimedExec(cfg, Next(cfg, w, steps[0]), steps[1..], deadline);
    }
  }

  /** In every timely run with any number of callers: during HalfOpen nothing but the probe is
      in flight; only the probe's own report ends HalfOpen; and a call admitted before the last
      opening can only report into the Open state, where it changes nothing. */
  lemma TimedSingleProbe(cfg: BreakerConfig, steps: seq<Step>, deadline: nat, s: Step)
    requires IsRun(cfg, INIT, steps) && deadline < cfg.cooldown
    requires Timely(cfg, INIT, steps, deadline)
    requires Enabled(Exec(cfg, INIT, steps), s)
    ensures ProbeAlone(Exec(cfg, INIT, steps))
    ensures var w := Exec(cfg, INIT, steps);
            w.breaker.state == HalfOpen && Next(cfg, w, s).breaker.state != HalfOpen ==>
              s.Report? && w.probe == Some(s.call)
    ensures var w := Exec(cfg, INIT, steps);
            s.Report? && w.calls[s.call].epoch < w.epoch ==>
              w.breaker.state == Open && Next(cfg, w, s).breaker == w.breaker
    ensures var w := Exec(cfg, INIT, steps);
            s.Report? && w.calls[s.call].epoch == w.epoch ==> w.breaker.state != Open
  {
    TimedExec(cfg, INIT, steps, deadline);
    var w := Exec(cfg, INIT, steps);
    if s.Report? {
      assert InFlight(w, s.call);
    }
  }

  // ---- Runs that break it when the deadline reaches the cooldown ----

  lemma {:induction false} TimelySnoc(cfg: BreakerConfig, w: World, steps: seq<Step>, s: Step, deadline: nat)
    requires IsRun(cfg, w, steps) && Timely(cfg, w, steps, deadline)
    requires Enabled(Exec(cfg, w, steps), s)
    requires WithinDeadline(Next(cfg, Exec(cfg, w, steps), s), deadline)
    ensures IsRun(cfg, w, steps + [s])
    ensures Exec(cfg, w, steps + [s]) == Next(cfg, Exec(cfg, w, steps), s)
    ensures Timely(cfg, w, steps + [s], deadline)
    decreases |steps|
  {
    RunSnoc(cfg, w, steps, s);
    if steps == [] {
      assert ([] + [s])[1..] == [];
      assert Timely(cfg, Next(cfg, w, s), [], deadline);
    } else {
      assert (steps + [s])[1..] == steps[1..] + [s];
      TimelySnoc(cfg, Next(cfg, w, steps[0]), steps[1..], s, deadline);
    }
  }

  /** Call 0 is still waiting for its backend while n later calls have failed, all at time 0. */
  ghost predicate Straggling(cfg: BreakerConfig, w: World, n: nat) {
    && n <= Trip(cfg)
    && w.now == 0 && |w.calls| == n + 1
    && w.calls[0] == CallRecord(0, 0, Sending)
    && (forall c :: 1 <= c <= n ==> w.calls[c].phase == Reported)
    && w.breaker == (if n == Trip(cfg) then JustOpened(0) else Inner(Closed, n, None))
    && w.probe == None
  }

  lemma {:induction false} StragglerRun(cfg: BreakerConfig, n: nat) returns (steps: seq<Step>)
    requires n <= Trip(cfg)
    ensures IsRun(cfg, INIT, steps) && Timely(cfg, INIT, steps, 0)
    ensures Straggling(cfg, Exec(cfg, INIT, steps), n)
  {
    if n == 0 {
      assert Timely(cfg, INIT, [], 0);
      TimelySnoc(cfg, INIT, [], TryAdmit, 0);
      TimelySnoc(cfg, INIT, [TryAdmit], Send(0), 0);
      steps := [TryAdmit] + [Send(0)];
    } else {
      steps := StragglerRun(cfg, n - 1);
      TimelySnoc(cfg, INIT, steps, TryAdmit, 0);
      steps := steps + [TryAdmit];
      TimelySnoc(cfg, INIT, steps, Send(n), 0);
      steps := steps + [Send(n)];
      TimelySnoc(cfg, INIT, steps, Report(n, false), 0);
      steps := steps + [Report(n, false)];
    }
  }

  /** The Open arm of a report is reached, in every configuration and even with no time passing: a
      call admitted while Closed reports after the calls behind it have opened the breaker. */
  lemma OpenArmReached(cfg: BreakerConfig) returns (steps: seq<Step>)
    ensures IsRun(cfg, INIT, steps) && Timely(cfg, INIT, steps, 0)
    ensures var w := Exec(cfg, INIT, steps);
            && w.breaker.state == Open && Enabled(w, Report(0, true)) && Enabled(w, Report(0, false))
            && Next(cfg, w, Report(0, true)).breaker == Next(cfg, w, Report(0, false)).breaker == w.breaker
  {
    steps := StragglerRun(cfg, Trip(cfg));
  }

  lemma {:induction false} TimelyMonotone(cfg: BreakerConfig, w: World, steps: seq<Step>, d: nat, e: nat)
    requires IsRun(cfg, w, steps) && Timely(cfg, w, steps, d) && d <= e
    ensures Timely(cfg, w, steps, e)
    decreases |steps|
  {
    if steps != [] {
      TimelyMonotone(cfg, Next(cfg, w, steps[0]), steps[1..], d, e);
    }
  }

  /** With a deadline of a full cooldown a straggler overlaps the probe, and its late success
      closes the breaker before the probe has said anything. */
  lemma StragglerOverlaps(cfg: BreakerConfig, deadline: nat) returns (steps: seq<Step>)
    requires cfg.cooldown <= deadline
    ensures IsRun(cfg, INIT, steps) && Timely(cfg, INIT, steps, deadline)
    ensures !ProbeAlone(Exec(cfg, INIT, steps))
    ensures var w := Exec(cfg, INIT, steps);
            && Enabled(w, Report(0, true)) && w.probe.Some? && w.probe != Some(0)
            && Next(cfg, w, Report(0, true)).breaker.state == Closed
            && InFlight(Next(cfg, w, Report(0, true)), w.probe.value)
  {
    steps := StragglerRun(cfg, Trip(cfg));
    TimelyMonotone(cfg, INIT, steps, 0, deadline);
    TimelySnoc(cfg, INIT, steps, Tick(cfg.cooldown), deadline);
    steps := steps + [Tick(cfg.cooldown)];
    TimelySnoc(cfg, INIT, steps, TryAdmit, deadline);
    steps := steps + [TryAdmit];
    var w := Exec(cfg, INIT, steps);
    assert InFlight(w, 0) && w.probe == Some(Trip(cfg) + 1);
  }

  ghost predicate AlwaysAlone(cfg: BreakerConfig, deadline: nat) {
    forall steps :: IsRun(cfg, INIT, steps) && Timely(cfg, INIT, steps, deadline) ==>
      ProbeAlone(Exec(cfg, INIT, steps))
  }

  /** The documented guarantee holds in all runs exactly when the deadline is below the cooldown. */
  lemma SingleProbeExactly(cfg: BreakerConfig, deadline: nat)
    ensures AlwaysAlone(cfg, deadline) <==> deadline < cfg.cooldown
  {
    if deadline < cfg.cooldown {
      forall steps | IsRun(cfg, INIT, steps) && Timely(cfg, INIT, steps, deadline)
        ensures ProbeAlone(Exec(cfg, INIT, steps))
      {
        TimedExec(cfg, INIT, steps, deadline);
      }
    } else {
      var steps := StragglerOverlaps(cfg, deadline);
    }
  }
}
