/** Rejected requests leave no trace: erase everything they did, and the rest of the run stays as
    it was. */
module Erasure {
  import opened Counting
  import opened Gateway
  import opened Pipeline
  import L = Limiter
  import M = Metrics

  /** Ended by a 401, or when not `unverifiedOnly` also by a 429. */
  predicate Rejected(r: Req, unverifiedOnly: bool) {
    r.stage == Done(Response(401, false)) || (!unverifiedOnly && r.stage == Done(Response(429, false)))
  }

  /** Rejected, or still on the way to it. */
  predicate MayBeRejected(r: Req, unverifiedOnly: bool) {
    || r.stage.Received? || Rejected(r, unverifiedOnly)
    || (!unverifiedOnly && (r.stage.Identified? || r.stage.OverLimit?))
  }

  /** A request past rejection is never rejected later. */
  lemma StaysPast(gw: Setup, g: System, a: Action, only: bool)
    requires Possible(gw, g, a) && OfRequest(a) && InOrder(gw, g.reqs[a.id])
    requires !MayBeRejected(g.reqs[a.id], only)
    ensures !MayBeRejected(Moved(gw, g, a), only)
  {
  }

  lemma {:induction false} EndsRejected(gw: Setup, g: System, actions: seq<Action>, i: nat, only: bool)
    requires Linked(gw, g) && AllInOrder(gw, g) && IsHistory(gw, g, actions) && i < |g.reqs|
    ensures i < |Play(gw, g, actions).reqs|
    ensures Rejected(Play(gw, g, actions).reqs[i], only) ==> MayBeRejected(g.reqs[i], only)
    decreases |actions|
  {
    if actions != [] {
      var a := actions[0];
      LinkedKept(gw, g, a);
      OrderKept(gw, g, a);
      if OfRequest(a) && a.id == i && !MayBeRejected(g.reqs[i], only) {
        StaysPast(gw, g, a, only);
      }
      EndsRejected(gw, Act(gw, g, a), actions[1..], i, only);
    }
  }

  /** The run without the actions of the requests in `ids`; they still arrive. */
  function Erase(actions: seq<Action>, ids: set<nat>): seq<Action> {
    if actions == [] then []
    else if OfRequest(actions[0]) && actions[0].id in ids then Erase(actions[1..], ids)
    else [actions[0]] + Erase(actions[1..], ids)
  }

  // ---- What stays the same ----

  /** Without some hits, but only without hits beyond the limit. */
  ghost predicate FewerHits(cfg: L.LimiterConfig, st: L.LimiterState, su: L.LimiterState) {
    forall key, window: nat ::
      var n, m := Count(st.log, L.CountedIn(key, window)), Count(su.log, L.CountedIn(key, window));
      m == n || cfg.limit <= m < n
  }

  ghost predicate SameLimits(cfg: L.LimiterConfig, st: L.LimiterState, su: L.LimiterState) {
    st.now == su.now && L.StoreOk(cfg, st) && L.StoreOk(cfg, su) && FewerHits(cfg, st, su)
  }

  /** Registries that agree in everything but rate_limited_total. */
  ghost predicate SameCounters(r: M.Registry, s: M.Registry) {
    && r.statusTotals == s.statusTotals && r.latencies == s.latencies
    && forall p ::
         M.CountersOf(r, p).(rateLimitedTotal := 0) == M.CountersOf(s, p).(rateLimitedTotal := 0)
  }

  /** Same clock, breakers, metrics and requests outside `ids`. */
  ghost predicate SameOutside(gw: Setup, g: System, h: System, ids: set<nat>, only: bool) {
    && g.now == h.now && g.worlds == h.worlds && |g.reqs| == |h.reqs|
    && (forall i :: 0 <= i < |g.reqs| && i !in ids ==> g.reqs[i] == h.reqs[i])
    && g.board.finishers == h.board.finishers && g.board.shorted == h.board.shorted
    && SameCounters(g.board.reg, h.board.reg)
    && g.limiter.now == h.limiter.now
    && (gw.limiter.Some? ==> SameLimits(gw.limiter.value, g.limiter, h.limiter))
    && (only ==> g.limiter == h.limiter && g.board == h.board)
  }

  // ---- One erased action ----

  /** A refused hit was beyond the limit. */
  lemma RefusedHit(cfg: L.LimiterConfig, st: L.LimiterState, su: L.LimiterState, s: L.LimiterStep)
    requires SameLimits(cfg, st, su) && s.Decide? && L.Permitted(cfg, st, s)
    requires L.DecisionAt(cfg, st, s.key, s.stampedAt, s.outcome).Limit?
    ensures SameLimits(cfg, L.LimiterNext(cfg, st, s), su)
  {
    var st1 := L.LimiterNext(cfg, st, s);
    L.LiveInOwnWindow(cfg, st, s.key);
    L.StoreKept(cfg, st, s);
    forall key, window: nat
      ensures var n, m := Count(st1.log, L.CountedIn(key, window)), Count(su.log, L.CountedIn(key, window));
              m == n || cfg.limit <= m < n
    {
      CountAppend(st.log, st1.log[|st.log|], L.CountedIn(key, window));
    }
  }

  lemma ErasedAction(gw: Setup, g: System, h: System, a: Action, ids: set<nat>, only: bool)
    requires SameOutside(gw, g, h, ids, only) && Possible(gw, g, a) && OfRequest(a) && a.id in ids
    requires MayBeRejected(g.reqs[a.id], only) && MayBeRejected(Moved(gw, g, a), only)
    ensures SameOutside(gw, Act(gw, g, a), h, ids, only)
  {
    if a.RateLimit? {
      RefusedHit(gw.limiter.value, g.limiter, h.limiter, L.Decide(KeyOf(g.reqs[a.id]), a.stampedAt, a.outcome));
    }
  }

  // ---- One kept action ----

  /** A kept hit is decided alike and counted on both sides. */
  lemma KeptHit(cfg: L.LimiterConfig, st: L.LimiterState, su: L.LimiterState, s: L.LimiterStep)
    requires SameLimits(cfg, st, su) && L.Permitted(cfg, st, s)
    ensures L.Permitted(cfg, su, s)
    ensures s.Decide? ==>
              L.DecisionAt(cfg, st, s.key, s.stampedAt, s.outcome) ==
              L.DecisionAt(cfg, su, s.key, s.stampedAt, s.outcome)
    ensures SameLimits(cfg, L.LimiterNext(cfg, st, s), L.LimiterNext(cfg, su, s))
  {
    var st1, su1 := L.LimiterNext(cfg, st, s), L.LimiterNext(cfg, su, s);
    L.StoreKept(cfg, st, s);
    L.StoreKept(cfg, su, s);
    if s.Decide? {
      L.LiveInOwnWindow(cfg, st, s.key);
      L.LiveInOwnWindow(cfg, su, s.key);
      var window := L.WindowIndex(cfg, st.now);
      assert Count(su.log, L.CountedIn(s.key, window)) == Count(st.log, L.CountedIn(s.key, window))
             || cfg.limit <= Count(su.log, L.CountedIn(s.key, window)) < Count(st.log, L.CountedIn(s.key, window));
      forall key, window: nat
        ensures var n, m := Count(st1.log, L.CountedIn(key, window)), Count(su1.log, L.CountedIn(key, window));
                m == n || cfg.limit <= m < n
      {
        CountAppend(st.log, st1.log[|st.log|], L.CountedIn(key, window));
        CountAppend(su.log, su1.log[|su.log|], L.CountedIn(key, window));
      }
    }
  }

  lemma KeptIncrement(r: M.Registry, s: M.Registry, f: M.Finisher)
    requires SameCounters(r, s)
    ensures SameCounters(M.Apply(r, f), M.Apply(s, f))
  {
    forall p ensures M.CountersOf(M.Apply(r, f), p).(rateLimitedTotal := 0) ==
                     M.CountersOf(M.Apply(s, f), p).(rateLimitedTotal := 0)
    {
      M.ApplyCounters(r, f, p);
      M.ApplyCounters(s, f, p);
      assert M.CountersOf(r, p).(rateLimitedTotal := 0) == M.CountersOf(s, p).(rateLimitedTotal := 0);
    }
  }

  lemma KeptRejection(r: M.Registry, s: M.Registry, tag: string)
    requires SameCounters(r, s)
    ensures SameCounters(M.AddRateLimited(r, tag), M.AddRateLimited(s, tag))
    ensures SameCounters(M.AddCircuitOpen(r, tag), M.AddCircuitOpen(s, tag))
  {
    forall p
      ensures M.CountersOf(M.AddRateLimited(r, tag), p).(rateLimitedTotal := 0) ==
              M.CountersOf(M.AddRateLimited(s, tag), p).(rateLimitedTotal := 0)
      ensures M.CountersOf(M.AddCircuitOpen(r, tag), p).(rateLimitedTotal := 0) ==
              M.CountersOf(M.AddCircuitOpen(s, tag), p).(rateLimitedTotal := 0)
    {
      assert M.CountersOf(r, p).(rateLimitedTotal := 0) == M.CountersOf(s, p).(rateLimitedTotal := 0);
    }
  }

  lemma KeptBoard(b: M.Board, c: M.Board, s: M.BoardStep)
    requires b.finishers == c.finishers && b.shorted == c.shorted && SameCounters(b.reg, c.reg)
    ensures var b1, c1 := BoardStepped(b, s), BoardStepped(c, s);
            b1.finishers == c1.finishers && b1.shorted == c1.shorted && SameCounters(b1.reg, c1.reg)
  {
    match s
    case Begin(_, _, _) =>
    case Advance(k) =>
      if M.Ready(b, s) {
        KeptIncrement(b.reg, c.reg, b.finishers[k]);
      }
    case RateLimited(tag) => KeptRejection(b.reg, c.reg, tag);
    case CircuitOpen(p) => KeptRejection(b.reg, c.reg, p);
  }

  lemma KeptPossible(gw: Setup, g: System, h: System, a: Action, ids: set<nat>, only: bool)
    requires SameOutside(gw, g, h, ids, only) && Possible(gw, g, a) && (OfRequest(a) ==> a.id !in ids)
    ensures Possible(gw, h, a) && LimiterAfter(gw, g, a).now == LimiterAfter(gw, h, a).now
    ensures OfRequest(a) ==> Moved(gw, g, a) == Moved(gw, h, a)
    ensures gw.limiter.Some? ==> SameLimits(gw.limiter.value, LimiterAfter(gw, g, a), LimiterAfter(gw, h, a))
  {
    if gw.limiter.Some? && a.Elapse? {
      KeptHit(gw.limiter.value, g.limiter, h.limiter, L.Wait(a.ms));
    } else if gw.limiter.Some? && a.RateLimit? {
      KeptHit(gw.limiter.value, g.limiter, h.limiter, L.Decide(KeyOf(g.reqs[a.id]), a.stampedAt, a.outcome));
    }
  }

  lemma KeptMetrics(gw: Setup, g: System, h: System, a: Action, ids: set<nat>, only: bool)
    requires SameOutside(gw, g, h, ids, only) && Possible(gw, g, a) && Possible(gw, h, a)
    requires OfRequest(a) ==> a.id !in ids
    ensures var b, c := BoardAfter(gw, g, a), BoardAfter(gw, h, a);
            b.finishers == c.finishers && b.shorted == c.shorted && SameCounters(b.reg, c.reg)
  {
    if a.CountRejection? {
      var stage := g.reqs[a.id].stage;
      KeptBoard(g.board, h.board, if stage.OverLimit? then M.RateLimited(stage.tag) else M.CircuitOpen(stage.prefix));
    } else if a.Reply? {
      KeptBoard(g.board, h.board, M.Begin(g.reqs[a.id].stage.prefix, Some(StatusClass(a.status)), a.nanos));
    } else if a.FinishStep? {
      KeptBoard(g.board, h.board, M.Advance(g.reqs[a.id].stage.finisher));
    }
  }

  lemma KeptAction(gw: Setup, g: System, h: System, a: Action, ids: set<nat>, only: bool)
    requires SameOutside(gw, g, h, ids, only) && Possible(gw, g, a) && (OfRequest(a) ==> a.id !in ids)
    ensures Possible(gw, h, a) && SameOutside(gw, Act(gw, g, a), Act(gw, h, a), ids, only)
  {
    KeptPossible(gw, g, h, a, ids, only);
    KeptMetrics(gw, g, h, a, ids, only);
  }

  // ---- Whole runs ----

  lemma {:induction false} EraseRun(
    gw: Setup, g: System, h: System, actions: seq<Action>, ids: set<nat>, only: bool)
    requires Linked(gw, g) && AllInOrder(gw, g) && SameOutside(gw, g, h, ids, only) && IsHistory(gw, g, actions)
    requires forall i <- ids :: i < |Play(gw, g, actions).reqs| && Rejected(Play(gw, g, actions).reqs[i], only)
    ensures IsHistory(gw, h, Erase(actions, ids))
    ensures SameOutside(gw, Play(gw, g, actions), Play(gw, h, Erase(actions, ids)), ids, only)
    decreases |actions|
  {
    if actions != [] {
      var a := actions[0];
      var g1 := Act(gw, g, a);
      LinkedKept(gw, g, a);
      OrderKept(gw, g, a);
      if OfRequest(a) && a.id in ids {
        EndsRejected(gw, g, actions, a.id, only);
        EndsRejected(gw, g1, actions[1..], a.id, only);
        ErasedAction(gw, g, h, a, ids, only);
        EraseRun(gw, g1, h, actions[1..], ids, only);
      } else {
        KeptAction(gw, g, h, a, ids, only);
        EraseRun(gw, g1, Act(gw, h, a), actions[1..], ids, only);
        assert Erase(actions, ids)[1..] == Erase(actions[1..], ids);
      }
    }
  }

  /** Erase all that any set of requests that ended in a 401 did: the result is a run with the same
      limiter, breakers and metrics, and the same history of every other request. */
  lemma UnverifiedLeaveNoTrace(gw: Setup, actions: seq<Action>, ids: set<nat>)
    requires IsHistory(gw, Boot(gw), actions)
    requires var g := Play(gw, Boot(gw), actions);
             forall i <- ids :: i < |g.reqs| && g.reqs[i].stage == Done(Response(401, false))
    ensures IsHistory(gw, Boot(gw), Erase(actions, ids))
    ensures var g, h := Play(gw, Boot(gw), actions), Play(gw, Boot(gw), Erase(actions, ids));
            && h == g.(reqs := h.reqs) && |h.reqs| == |g.reqs|
            && forall i :: 0 <= i < |g.reqs| && i !in ids ==> h.reqs[i] == g.reqs[i]
  {
    BootLinked(gw);
    EraseRun(gw, Boot(gw), Boot(gw), actions, ids, true);
  }

  /** Erase all that any set of requests that ended in a 401 or a 429 did, their hits on the limiter
      included: the result is a run with the same breakers, with the same decisions, sends and
      responses for every other request, and with the same metrics but for rate_limited_total. */
  lemma RejectedLeaveNoTrace(gw: Setup, actions: seq<Action>, ids: set<nat>)
    requires IsHistory(gw, Boot(gw), actions)
    requires var g := Play(gw, Boot(gw), actions); forall i <- ids :: i < |g.reqs| && Rejected(g.reqs[i], false)
    ensures IsHistory(gw, Boot(gw), Erase(actions, ids))
    ensures var g, h := Play(gw, Boot(gw), actions), Play(gw, Boot(gw), Erase(actions, ids));
            && h.worlds == g.worlds && |h.reqs| == |g.reqs| && SameCounters(g.board.reg, h.board.reg)
            && forall i :: 0 <= i < |g.reqs| && i !in ids ==> h.reqs[i] == g.reqs[i]
  {
    BootLinked(gw);
    EraseRun(gw, Boot(gw), Boot(gw), actions, ids, false);
  }
}
