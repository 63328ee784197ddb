/** How soon callers of a backend that is back are served again. */
module Recovery {
  import opened Counting
  import opened Circuit
  import opened Protocol
  import opened SingleProbe

  /** The backend answers every call and no call is abandoned. */
  ghost predicate Healthy(steps: seq<Step>) {
    forall i :: 0 <= i < |steps| ==> !steps[i].Abandon? && (steps[i].Report? ==> steps[i].ok)
  }

  predicate IsAttempt(e: Event) {
    e.Admitted? || e.Refused?
  }

  /** Position i of the history holds the first attempt, from position n on, made at `due` or later. */
  ghost predicate FirstAttempt(log: seq<Event>, n: nat, due: nat, i: nat) {
    && n <= i < |log| && IsAttempt(log[i]) && log[i].at >= due
    && forall k :: n <= k < i && IsAttempt(log[k]) ==> log[k].at < due
  }

  /** Since position n: no attempt at `due` or later yet and the breaker still Open, or the first of
      them was admitted, and then the breaker waits for that probe's report or is Closed. */
  ghost predicate Recovering(cfg: BreakerConfig, w: World, n: nat, due: nat, deadline: nat, first: Option<nat>) {
    && n <= |w.log|
    && (if first.None? then
          && w.breaker.state == Open && w.breaker.openedAt.Some? && w.breaker.openedAt.value + cfg.cooldown == due
          && forall k :: n <= k < |w.log| && IsAttempt(w.log[k]) ==> w.log[k].at < due
        else
          && FirstAttempt(w.log, n, due, first.value) && w.log[first.value].Admitted?
          && w.breaker.state != Open
          && (w.breaker.state == HalfOpen ==>
                && w.probe.Some? && InFlight(w, w.probe.value)
                && w.calls[w.probe.value].admittedAt == w.log[first.value].at))
    && forall j :: n <= j < |w.log| && w.log[j].Refused? && w.log[j].at >= due ==>
         first.Some? && first.value < j && w.log[j].at <= w.log[first.value].at + deadline
  }

  lemma AttemptKeeps(cfg: BreakerConfig, w: World, n: nat, due: nat, deadline: nat, first: Option<nat>)
    returns (first1: Option<nat>)
    requires Inv(cfg, w) && Recovering(cfg, w, n, due, deadline, first) && WithinDeadline(w, deadline)
    ensures Recovering(cfg, AdmitNext(cfg, w), n, due, deadline, first1)
  {
    first1 := if w.breaker.state == Open && Waited(cfg, w.breaker, w.now) then Some(|w.log|) else first;
    if w.breaker.state == HalfOpen {
      assert InFlight(w, w.probe.value);
    }
  }

  lemma OtherKeeps(cfg: BreakerConfig, w: World, s: Step, n: nat, due: nat, deadline: nat, first: Option<nat>)
    requires Inv(cfg, w) && Recovering(cfg, w, n, due, deadline, first)
    requires Enabled(w, s) && !s.TryAdmit? && !s.Abandon? && (s.Report? ==> s.ok)
    ensures Recovering(cfg, Next(cfg, w, s), n, due, deadline, first)
  {
  }

  lemma {:induction false} RecoveringExec(
    cfg: BreakerConfig, w: World, steps: seq<Step>, n: nat, due: nat, deadline: nat, first: Option<nat>)
    returns (last: Option<nat>)
    requires Inv(cfg, w) && Recovering(cfg, w, n, due, deadline, first)
    requires IsRun(cfg, w, steps) && Timely(cfg, w, steps, deadline) && Healthy(steps)
    ensures Recovering(cfg, Exec(cfg, w, steps), n, due, deadline, last)
    ensures WithinDeadline(Exec(cfg, w, steps), deadline)
    decreases |steps|
  {
    last := first;
    if steps != [] {
      InvNext(cfg, w, steps[0]);
      if steps[0].TryAdmit? {
        last := AttemptKeeps(cfg, w, n, due, deadline, first);
      } else {
        OtherKeeps(cfg, w, steps[0], n, due, deadline, first);
      }
      last := RecoveringExec(cfg, Next(cfg, w, steps[0]), steps[1..], n, due, deadline, last);
    }
  }

  /** From any reachable Open state, if from then on the backend answers every call within the
      deadline and no call is abandoned: the first attempt a cooldown or more after the opening is
      admitted, nobody is refused later than the deadline after it, and by then the breaker is
      Closed. Any deadline will do, also one longer than the cooldown. */
  lemma RecoveryBound(cfg: BreakerConfig, before: seq<Step>, steps: seq<Step>, deadline: nat)
    requires IsRun(cfg, INIT, before) && Exec(cfg, INIT, before).breaker.state == Open
    requires IsRun(cfg, Exec(cfg, INIT, before), steps) && Timely(cfg, Exec(cfg, INIT, before), steps, deadline)
    requires Healthy(steps)
    ensures var w := Exec(cfg, INIT, before);
            var v := Exec(cfg, w, steps);
            && w.breaker.openedAt.Some?
            && var due := w.breaker.openedAt.value + cfg.cooldown;
               && (forall i: nat :: FirstAttempt(v.log, |w.log|, due, i) ==>
                     && v.log[i].Admitted?
                     && (v.now > v.log[i].at + deadline ==> v.breaker.state == Closed))
               && (forall j :: |w.log| <= j < |v.log| && v.log[j].Refused? && v.log[j].at >= due ==>
                     exists i: nat ::
                       FirstAttempt(v.log, |w.log|, due, i) && i < j && v.log[j].at <= v.log[i].at + deadline)
  {
    var w := Exec(cfg, INIT, before);
    InvExec(cfg, INIT, before);
    var due := w.breaker.openedAt.value + cfg.cooldown;
    var last := RecoveringExec(cfg, w, steps, |w.log|, due, deadline, None);
    Settled(cfg, Exec(cfg, w, steps), |w.log|, due, deadline, last);
  }

  lemma Settled(cfg: BreakerConfig, v: World, n: nat, due: nat, deadline: nat, last: Option<nat>)
    requires Recovering(cfg, v, n, due, deadline, last) && WithinDeadline(v, deadline)
    ensures forall i: nat :: FirstAttempt(v.log, n, due, i) ==>
              v.log[i].Admitted? && (v.now > v.log[i].at + deadline ==> v.breaker.state == Closed)
    ensures forall j :: n <= j < |v.log| && v.log[j].Refused? && v.log[j].at >= due ==>
              exists i: nat :: FirstAttempt(v.log, n, due, i) && i < j && v.log[j].at <= v.log[i].at + deadline
  {
    forall i: nat | FirstAttempt(v.log, n, due, i) ensures last == Some(i) {
    }
    if v.breaker.state == HalfOpen {
      assert InFlight(v, v.probe.value);
    }
  }
}
