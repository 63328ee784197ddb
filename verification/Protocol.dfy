/** One breaker and all its callers as a timed state machine. The lock makes every breaker
    operation atomic, but a call asks for admission in one step and reports in another, so
    any number of calls interleave and a report may meet a state other than the one that
    admitted its call. */
module Protocol {
  import opened Counting
  import opened Circuit

  /** An admitted call buffers the request body, sends, and reports; a body that cannot be
      read abandons the call without a report. */
  datatype Phase = Buffering | Sending | Reported | Abandoned

  datatype CallRecord = CallRecord(admittedAt: nat, epoch: nat, phase: Phase)

  datatype Event =
    | Admitted(call: nat, at: nat)
    | Refused(at: nat)
    | Sent(call: nat, at: nat)
    | Answered(call: nat, ok: bool, at: nat)
    | Dropped(call: nat, at: nat)
    | Opening(at: nat)
    | Closing(at: nat)

  /** `epoch` counts the openings so far; `probe` is the call that last entered HalfOpen. */
  datatype World = World(
    now: nat,
    breaker: Inner,
    calls: seq<CallRecord>,
    probe: Option<nat>,
    epoch: nat,
    log: seq<Event>)

  const INIT := World(0, FRESH, [], None, 0, [])

  datatype Step =
    | Tick(dt: nat)
    | TryAdmit
    | Abandon(call: nat)
    | Send(call: nat)
    | Report(call: nat, ok: bool)

  predicate InPhase(w: World, c: nat, phase: Phase) {
    c < |w.calls| && w.calls[c].phase == phase
  }

  predicate InFlight(w: World, c: nat) {
    InPhase(w, c, Buffering) || InPhase(w, c, Sending)
  }

  predicate Enabled(w: World, s: Step) {
    match s
    case Tick(_) => true
    case TryAdmit => true
    case Abandon(c) => InPhase(w, c, Buffering)
    case Send(c) => InPhase(w, c, Buffering)
    case Report(c, _) => InPhase(w, c, Sending)
  }

  function SetPhase(w: World, c: nat, phase: Phase): World
    requires c < |w.calls|
  {
    w.(calls := w.calls[c := w.calls[c].(phase := phase)])
  }

  function AdmitNext(cfg: BreakerConfig, w: World): World {
    if AdmitDecision(cfg, w.breaker, w.now) == ShortCircuit then
      w.(breaker := AfterAdmit(cfg, w.breaker, w.now), log := w.log + [Refused(w.now)])
    else
      w.(breaker := AfterAdmit(cfg, w.breaker, w.now),
         calls := w.calls + [CallRecord(w.now, w.epoch, Buffering)],
         probe := if w.breaker.state == Open then Some(|w.calls|) else w.probe,
         log := w.log + [Admitted(|w.calls|, w.now)])
  }

  /** Whether a report at this moment opens, respectively closes, the breaker. */
  predicate Opens(cfg: BreakerConfig, b: Inner, ok: bool, now: nat) {
    b.state != Open && AfterRecord(cfg, b, ok, now).state == Open
  }

  predicate Closes(b: Inner, ok: bool) {
    b.state == HalfOpen && ok
  }

  function ReportNext(cfg: BreakerConfig, w: World, c: nat, ok: bool): World
    requires c < |w.calls|
  {
    var w1 := SetPhase(w, c, Reported)
              .(breaker := AfterRecord(cfg, w.breaker, ok, w.now),
                log := w.log + [Answered(c, ok, w.now)]);
    if Opens(cfg, w.breaker, ok, w.now) then
      w1.(epoch := w.epoch + 1, log := w1.log + [Opening(w.now)])
    else if Closes(w.breaker, ok) then
      w1.(log := w1.log + [Closing(w.now)])
    else
      w1
  }

  function Next(cfg: BreakerConfig, w: World, s: Step): World
    requires Enabled(w, s)
  {
    match s
    case Tick(dt) => w.(now := w.now + dt)
    case TryAdmit => AdmitNext(cfg, w)
    case Abandon(c) => SetPhase(w, c, Abandoned).(log := w.log + [Dropped(c, w.now)])
    case Send(c) => SetPhase(w, c, Sending).(log := w.log + [Sent(c, w.now)])
    case Report(c, ok) => ReportNext(cfg, w, c, ok)
  }

  predicate IsRun(cfg: BreakerConfig, w: World, steps: seq<Step>)
    decreases |steps|
  {
    steps == [] || (Enabled(w, steps[0]) && IsRun(cfg, Next(cfg, w, steps[0]), steps[1..]))
  }

  function Exec(cfg: BreakerConfig, w: World, steps: seq<Step>): World
    requires IsRun(cfg, w, steps)
    decreases |steps|
  {
    if steps == [] then w else Exec(cfg, Next(cfg, w, steps[0]), steps[1..])
  }

  lemma {:induction false} RunConcat(cfg: BreakerConfig, w: World, s: seq<Step>, t: seq<Step>)
    requires IsRun(cfg, w, s) && IsRun(cfg, Exec(cfg, w, s), t)
    ensures IsRun(cfg, w, s + t) && Exec(cfg, w, s + t) == Exec(cfg, Exec(cfg, w, s), t)
    decreases |s|
  {
    if s == [] {
      assert s + t == t;
    } else {
      assert (s + t)[1..] == s[1..] + t;
      RunConcat(cfg, Next(cfg, w, s[0]), s[1..], t);
    }
  }

  lemma RunOne(cfg: BreakerConfig, w: World, s: Step)
    requires Enabled(w, s)
    ensures IsRun(cfg, w, [s]) && Exec(cfg, w, [s]) == Next(cfg, w, s)
  {
    assert [s][1..] == [];
    assert IsRun(cfg, Next(cfg, w, s), []);
  }

  lemma RunSnoc(cfg: BreakerConfig, w: World, steps: seq<Step>, s: Step)
    requires IsRun(cfg, w, steps) && Enabled(Exec(cfg, w, steps), s)
    ensures IsRun(cfg, w, steps + [s])
    ensures Exec(cfg, w, steps + [s]) == Next(cfg, Exec(cfg, w, steps), s)
  {
    RunOne(cfg, Exec(cfg, w, steps), s);
    RunConcat(cfg, w, steps, [s]);
  }

  // ---- The invariant of every reachable world ----

  ghost predicate ClockOk(cfg: BreakerConfig, w: World) {
    && (w.breaker.openedAt.Some? ==> w.breaker.openedAt.value <= w.now)
    && (w.breaker.state == HalfOpen ==>
          w.breaker.openedAt.Some? && w.breaker.openedAt.value + cfg.cooldown <= w.now)
    && forall c :: 0 <= c < |w.calls| ==> w.calls[c].admittedAt <= w.now && w.calls[c].epoch <= w.epoch
  }

  /** In HalfOpen the call that entered it has not reported. */
  ghost predicate ProbeOk(w: World) {
    w.breaker.state == HalfOpen ==>
      && w.probe.Some? && w.probe.value < |w.calls|
      && w.calls[w.probe.value].phase != Reported
      && w.calls[w.probe.value].epoch == w.epoch
  }

  ghost predicate Inv(cfg: BreakerConfig, w: World) {
    Consistent(cfg, w.breaker) && ClockOk(cfg, w) && ProbeOk(w)
  }

  lemma InvNext(cfg: BreakerConfig, w: World, s: Step)
    requires Inv(cfg, w) && Enabled(w, s)
    ensures Inv(cfg, Next(cfg, w, s))
  {
  }

  lemma {:induction false} InvExec(cfg: BreakerConfig, w: World, steps: seq<Step>)
    requires Inv(cfg, w) && IsRun(cfg, w, steps)
    ensures Inv(cfg, Exec(cfg, w, steps))
    decreases |steps|
  {
    if steps != [] {
      InvNext(cfg, w, steps[0]);
      InvExec(cfg, Next(cfg, w, steps[0]), steps[1..]);
    }
  }

  lemma {:induction false} ClockGrows(cfg: BreakerConfig, w: World, steps: seq<Step>)
    requires IsRun(cfg, w, steps)
    ensures w.now <= Exec(cfg, w, steps).now
    decreases |steps|
  {
    if steps != [] {
      ClockGrows(cfg, Next(cfg, w, steps[0]), steps[1..]);
    }
  }
}
