/** What the event history of one breaker satisfies in every run, however calls interleave
    and however late they report. */
module CooldownSafety {
  import opened Counting
  import opened Arithmetic
  import opened Circuit
  import opened Protocol

  // ---- The state is a function of the history ----

  /** Admissions since the last opening, or None when no opening is pending: the breaker was
      never opened, or has been closed since. */
  function AdmittedSinceOpening(log: seq<Event>): Option<nat> {
    if log == [] then None
    else
      var rest := log[..|log| - 1];
      match log[|log| - 1]
      case Opening(_) => Some(0)
      case Closing(_) => None
      case Admitted(_, _) =>
        (match AdmittedSinceOpening(rest)
         case None => None
         case Some(n) => Some(n + 1))
      case _ => AdmittedSinceOpening(rest)
  }

  function StateOf(log: seq<Event>): State {
    match AdmittedSinceOpening(log)
    case None => Closed
    case Some(n) => if n == 0 then Open else HalfOpen
  }

  /** Length of the trailing run of failed reports since the last success, opening or closing. */
  function Streak(log: seq<Event>): nat {
    if log == [] then 0
    else
      var rest := log[..|log| - 1];
      match log[|log| - 1]
      case Answered(_, ok, _) => if ok then 0 else Streak(rest) + 1
      case Opening(_) => 0
      case Closing(_) => 0
      case _ => Streak(rest)
  }

  // ---- The properties of histories ----

  ghost predicate SettledBy(log: seq<Event>, cooldown: nat, t: nat) {
    forall i :: 0 <= i < |log| && log[i].Opening? ==> log[i].at + cooldown <= t
  }

  /** After an opening, every later admission and every later opening is a cooldown away. */
  ghost predicate Spaced(log: seq<Event>, cooldown: nat) {
    forall i, j :: 0 <= i < j < |log| && log[i].Opening? && (log[j].Opening? || log[j].Admitted?) ==>
      log[i].at + cooldown <= log[j].at
  }

  /** No moment of the history has seen two admissions since a pending opening. */
  ghost predicate OneAtATime(log: seq<Event>) {
    forall k :: 0 <= k <= |log| && AdmittedSinceOpening(log[..k]).Some? ==>
      AdmittedSinceOpening(log[..k]).value <= 1
  }

  ghost predicate HistoryOk(cfg: BreakerConfig, w: World) {
    && StateOf(w.log) == w.breaker.state
    && (w.breaker.state == Closed ==> w.breaker.consecutiveFailures == Streak(w.log))
    && OneAtATime(w.log)
    && Spaced(w.log, cfg.cooldown)
    && (w.breaker.state != Open ==> SettledBy(w.log, cfg.cooldown, w.now))
    && (w.breaker.state == Open && w.breaker.openedAt.Some? ==>
          SettledBy(w.log, 0, w.breaker.openedAt.value))
  }

  lemma Snoc(log: seq<Event>, e: Event)
    ensures (log + [e])[..|log|] == log && (log + [e])[|log|] == e
    ensures AdmittedSinceOpening(log + [e]) ==
            match e
            case Opening(_) => Some(0)
            case Closing(_) => None
            case Admitted(_, _) =>
              (match AdmittedSinceOpening(log) case None => None case Some(n) => Some(n + 1))
            case _ => AdmittedSinceOpening(log)
    ensures Streak(log + [e]) ==
            match e
            case Answered(_, ok, _) => if ok then 0 else Streak(log) + 1
            case Opening(_) => 0
            case Closing(_) => 0
            case _ => Streak(log)
  {
    assert (log + [e])[..|log|] == log;
  }

  lemma OneAtATimeSnoc(log: seq<Event>, e: Event)
    requires OneAtATime(log)
    requires e.Admitted? ==> AdmittedSinceOpening(log) != Some(1)
    ensures OneAtATime(log + [e])
  {
    Snoc(log, e);
    assert log[..|log|] == log;
    forall k | 0 <= k <= |log + [e]| && AdmittedSinceOpening((log + [e])[..k]).Some?
      ensures AdmittedSinceOpening((log + [e])[..k]).value <= 1
    {
      if k <= |log| {
        assert (log + [e])[..k] == log[..k];
      } else {
        assert (log + [e])[..k] == log + [e];
      }
    }
  }

  lemma AdmitKeepsHistory(cfg: BreakerConfig, w: World)
    requires Inv(cfg, w) && HistoryOk(cfg, w)
    ensures HistoryOk(cfg, AdmitNext(cfg, w))
  {
    var e := AdmitNext(cfg, w).log[|w.log|];
    assert AdmitNext(cfg, w).log == w.log + [e];
    Snoc(w.log, e);
    assert w.log[..|w.log|] == w.log;
    OneAtATimeSnoc(w.log, e);
  }

  lemma ReportKeepsHistory(cfg: BreakerConfig, w: World, c: nat, ok: bool)
    requires Inv(cfg, w) && HistoryOk(cfg, w) && InPhase(w, c, Sending)
    ensures HistoryOk(cfg, ReportNext(cfg, w, c, ok))
  {
    var log1 := w.log + [Answered(c, ok, w.now)];
    Snoc(w.log, Answered(c, ok, w.now));
    OneAtATimeSnoc(w.log, Answered(c, ok, w.now));
    if Opens(cfg, w.breaker, ok, w.now) {
      Snoc(log1, Opening(w.now));
      OneAtATimeSnoc(log1, Opening(w.now));
    } else if Closes(w.breaker, ok) {
      Snoc(log1, Closing(w.now));
      OneAtATimeSnoc(log1, Closing(w.now));
    }
  }

  lemma PhaseKeepsHistory(cfg: BreakerConfig, w: World, c: nat, phase: Phase, e: Event)
    requires HistoryOk(cfg, w) && c < |w.calls| && (e.Sent? || e.Dropped?)
    ensures HistoryOk(cfg, SetPhase(w, c, phase).(log := w.log + [e]))
  {
    Snoc(w.log, e);
    OneAtATimeSnoc(w.log, e);
  }

  lemma HistoryNext(cfg: BreakerConfig, w: World, s: Step)
    requires Inv(cfg, w) && HistoryOk(cfg, w) && Enabled(w, s)
    ensures HistoryOk(cfg, Next(cfg, w, s))
  {
    match s
    case Tick(_) =>
    case TryAdmit => AdmitKeepsHistory(cfg, w);
    case Abandon(c) => PhaseKeepsHistory(cfg, w, c, Abandoned, Dropped(c, w.now));
    case Send(c) => PhaseKeepsHistory(cfg, w, c, Sending, Sent(c, w.now));
    case Report(c, ok) => ReportKeepsHistory(cfg, w, c, ok);
  }

  lemma {:induction false} HistoryExec(cfg: BreakerConfig, w: World, steps: seq<Step>)
    requires Inv(cfg, w) && HistoryOk(cfg, w) && IsRun(cfg, w, steps)
    ensures HistoryOk(cfg, Exec(cfg, w, steps)) && Inv(cfg, Exec(cfg, w, steps))
    decreases |steps|
  {
    if steps != [] {
      InvNext(cfg, w, steps[0]);
      HistoryNext(cfg, w, steps[0]);
      HistoryExec(cfg, Next(cfg, w, steps[0]), steps[1..]);
    }
  }

  lemma RunHistory(cfg: BreakerConfig, steps: seq<Step>)
    requires IsRun(cfg, INIT, steps)
    ensures HistoryOk(cfg, Exec(cfg, INIT, steps)) && Inv(cfg, Exec(cfg, INIT, steps))
  {
    HistoryExec(cfg, INIT, steps);
  }

  // ---- Theorems over whole runs ----

  /** No call is admitted within a cooldown of any earlier opening, and openings are a
      cooldown apart, in every run. */
  lemma CooldownRespected(cfg: BreakerConfig, steps: seq<Step>, i: nat, j: nat)
    requires IsRun(cfg, INIT, steps)
    requires i < j < |Exec(cfg, INIT, steps).log|
    requires Exec(cfg, INIT, steps).log[i].Opening?
    requires Exec(cfg, INIT, steps).log[j].Opening? || Exec(cfg, INIT, steps).log[j].Admitted?
    ensures Exec(cfg, INIT, steps).log[j].at >= Exec(cfg, INIT, steps).log[i].at + cfg.cooldown
  {
    RunHistory(cfg, steps);
  }

  /** Between two admissions that both follow an opening, the breaker has closed or opened again. */
  lemma OneProbePerOpening(cfg: BreakerConfig, steps: seq<Step>, i: nat, j: nat, k: nat)
    requires IsRun(cfg, INIT, steps)
    requires i < j < k < |Exec(cfg, INIT, steps).log|
    requires Exec(cfg, INIT, steps).log[i].Opening?
    requires Exec(cfg, INIT, steps).log[j].Admitted? && Exec(cfg, INIT, steps).log[k].Admitted?
    ensures exists x ::
      i < x < k && (Exec(cfg, INIT, steps).log[x].Opening? || Exec(cfg, INIT, steps).log[x].Closing?)
  {
    RunHistory(cfg, steps);
    var log := Exec(cfg, INIT, steps).log;
    if forall x :: i < x < k ==> !log[x].Opening? && !log[x].Closing? {
      QuietAdmissions(log, i, j, k);
    }
  }

  /** With no opening or closing after position i, the pending opening at i stays pending. */
  lemma {:induction false} QuietGrowth(log: seq<Event>, i: nat, k: nat)
    requires i < k <= |log| && log[i].Opening?
    requires forall x :: i < x < k ==> !log[x].Opening? && !log[x].Closing?
    ensures AdmittedSinceOpening(log[..k]).Some?
  {
    assert log[..k][..k - 1] == log[..k - 1];
    if k > i + 1 {
      QuietGrowth(log, i, k - 1);
    }
  }

  lemma {:induction false} AdmissionsGrow(log: seq<Event>, i: nat, j: nat, k: nat)
    requires i < j <= k <= |log| && log[i].Opening?
    requires forall x :: i < x < k ==> !log[x].Opening? && !log[x].Closing?
    ensures AdmittedSinceOpening(log[..j]).Some? && AdmittedSinceOpening(log[..k]).Some?
    ensures AdmittedSinceOpening(log[..j]).value <= AdmittedSinceOpening(log[..k]).value
  {
    QuietGrowth(log, i, j);
    QuietGrowth(log, i, k);
    if j < k {
      AdmissionsGrow(log, i, j, k - 1);
      assert log[..k][..k - 1] == log[..k - 1];
    }
  }

  lemma QuietAdmissions(log: seq<Event>, i: nat, j: nat, k: nat)
    requires i < j < k < |log| && log[i].Opening? && log[j].Admitted? && log[k].Admitted?
    requires forall x :: i < x < k ==> !log[x].Opening? && !log[x].Closing?
    ensures AdmittedSinceOpening(log[..k + 1]).Some? && AdmittedSinceOpening(log[..k + 1]).value >= 2
  {
    QuietGrowth(log, i, j);
    AdmissionsGrow(log, i, j + 1, k);
    assert log[..j + 1][..j] == log[..j];
    assert log[..k + 1][..k] == log[..k];
  }

  function OpeningWithin(a: nat, b: nat): Event -> bool {
    (e: Event) => e.Opening? && a <= e.at <= b
  }

  /** Spaced openings are rare: those in a span fit a cooldown apart. The result is the position
      of the last of them. */
  lemma {:induction false} SpacedIsRare(log: seq<Event>, cooldown: nat, a: nat, b: nat) returns (last: nat)
    requires Spaced(log, cooldown) && Count(log, OpeningWithin(a, b)) > 0
    ensures last < |log| && OpeningWithin(a, b)(log[last])
    ensures (Count(log, OpeningWithin(a, b)) - 1) * cooldown <= log[last].at - a
  {
    var n := |log| - 1;
    var rest := log[..n];
    if Count(rest, OpeningWithin(a, b)) == 0 {
      last := n;
    } else {
      last := SpacedIsRare(rest, cooldown, a, b);
      if OpeningWithin(a, b)(log[n]) {
        assert log[last].at + cooldown <= log[n].at;
        OneMoreGap(Count(rest, OpeningWithin(a, b)), cooldown);
        last := n;
      }
    }
  }

  /** Any span of length `span` holds at most floor(span / cooldown) + 1 openings. */
  lemma OpeningsPerSpan(cfg: BreakerConfig, steps: seq<Step>, from: nat, span: nat)
    requires IsRun(cfg, INIT, steps) && cfg.cooldown > 0
    ensures Count(Exec(cfg, INIT, steps).log, OpeningWithin(from, from + span)) <= span / cfg.cooldown + 1
  {
    RunHistory(cfg, steps);
    var log := Exec(cfg, INIT, steps).log;
    var n := Count(log, OpeningWithin(from, from + span));
    if n > 0 {
      var last := SpacedIsRare(log, cfg.cooldown, from, from + span);
      QuotientBound(n - 1, cfg.cooldown, span);
    }
  }

  /** The breaker is the history: state and failure count are functions of the events, the
      32-bit count stays below the tripping run, and a report made while Closed opens the
      breaker exactly when it completes a run of Trip(cfg) failures. */
  lemma FailureStreak(cfg: BreakerConfig, steps: seq<Step>, c: nat, ok: bool)
    requires IsRun(cfg, INIT, steps)
    ensures var w := Exec(cfg, INIT, steps);
            && w.breaker.state == StateOf(w.log)
            && w.breaker.consecutiveFailures == (if StateOf(w.log) == Closed then Streak(w.log) else 0)
            && w.breaker.consecutiveFailures < Trip(cfg)
            && (w.breaker.openedAt.Some? <==> StateOf(w.log) != Closed)
    ensures var w := Exec(cfg, INIT, steps);
            InPhase(w, c, Sending) && StateOf(w.log) == Closed ==>
              (ReportNext(cfg, w, c, ok).breaker.state == Open <==> !ok && Streak(w.log) + 1 == Trip(cfg))
  {
    RunHistory(cfg, steps);
  }

  ghost predicate OnlyAnswers(steps: seq<Step>) {
    forall i :: 0 <= i < |steps| && steps[i].Report? ==> steps[i].ok
  }

  /** A backend that always answers, with whatever HTTP status, never leaves Closed. */
  lemma {:induction false} AnswersNeverTrip(cfg: BreakerConfig, w: World, steps: seq<Step>)
    requires w.breaker == FRESH && IsRun(cfg, w, steps) && OnlyAnswers(steps)
    ensures Exec(cfg, w, steps).breaker == FRESH
    ensures forall i :: |w.log| <= i < |Exec(cfg, w, steps).log| ==> !Exec(cfg, w, steps).log[i].Refused?
    ensures |w.log| <= |Exec(cfg, w, steps).log| && Exec(cfg, w, steps).log[..|w.log|] == w.log
    decreases |steps|
  {
    if steps != [] {
      var w1 := Next(cfg, w, steps[0]);
      assert OnlyAnswers(steps[1..]);
      assert w1.breaker == FRESH;
      AnswersNeverTrip(cfg, w1, steps[1..]);
    }
  }
}
