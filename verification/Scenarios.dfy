/** Runs of the whole gateway, built request by request: they show that its limits are real. */
module Scenarios {
  import opened Counting
  import opened LimitKeys
  import opened Gateway
  import opened Routing
  import opened Text
  import C = Circuit
  import P = Protocol
  import L = Limiter
  import T = Token
  import Progress
  import Pipeline
  import Consequences
  import Components

  // ---- Building runs at their end ----

  ghost predicate Reached(gw: Setup, actions: seq<Action>, g: System) {
    IsHistory(gw, Boot(gw), actions) && Play(gw, Boot(gw), actions) == g
  }

  lemma {:induction false} PlaySnoc(gw: Setup, g: System, actions: seq<Action>, a: Action)
    requires IsHistory(gw, g, actions) && Possible(gw, Play(gw, g, actions), a)
    ensures IsHistory(gw, g, actions + [a])
    ensures Play(gw, g, actions + [a]) == Act(gw, Play(gw, g, actions), a)
    decreases |actions|
  {
    if actions == [] {
      assert (actions + [a])[1..] == [];
      assert IsHistory(gw, Act(gw, g, a), []);
    } else {
      assert (actions + [a])[1..] == actions[1..] + [a];
      PlaySnoc(gw, Act(gw, g, actions[0]), actions[1..], a);
    }
  }

  lemma Reach(gw: Setup, before: seq<Action>, g: System, a: Action) returns (actions: seq<Action>)
    requires Reached(gw, before, g) && Possible(gw, g, a)
    ensures Reached(gw, actions, Act(gw, g, a))
  {
    PlaySnoc(gw, Boot(gw), before, a);
    actions := before + [a];
  }

  // ---- A client that the gate lets through ----

  predicate Passes(gw: Setup, header: Option<string>, second: nat) {
    gw.auth.None? || T.CheckBearer(gw.auth.value, header, second).Some?
  }

  function ClientOf(gw: Setup, header: Option<string>, second: nat): Option<string> {
    if gw.auth.None? then None else T.CheckBearer(gw.auth.value, header, second)
  }

  /** A new request of the client has passed the gate. */
  lemma Enter(gw: Setup, before: seq<Action>, g: System, header: Option<string>, path: string)
    returns (actions: seq<Action>, g1: System)
    requires Reached(gw, before, g) && Passes(gw, header, g.now / 1000)
    ensures Reached(gw, actions, g1)
    ensures g1 == g.(reqs := g.reqs + [Req(header, path, ClientOf(gw, header, g.now / 1000), None, None, Identified)])
  {
    actions := Reach(gw, before, g, Arrive(header, path));
    var arrived := Act(gw, g, Arrive(header, path));
    actions := Reach(gw, actions, arrived, Authenticate(|g.reqs|));
    g1 := Act(gw, arrived, Authenticate(|g.reqs|));
  }

  /** A new request of the client is counted by a Redis that answers. */
  lemma Ask(gw: Setup, cfg: L.LimiterConfig, before: seq<Action>, g: System, header: Option<string>, path: string)
    returns (actions: seq<Action>, g1: System)
    requires Reached(gw, before, g) && Passes(gw, header, g.now / 1000)
    requires gw.limiter == Some(cfg) && g.limiter.now == g.now
    ensures Reached(gw, actions, g1) && g1.now == g.now && g1.board == g.board
    ensures var key := LimitKey(ClientOf(gw, header, g.now / 1000), "unkeyed");
            var d := L.DecisionAt(cfg, g.limiter, key, g.now, L.Replied);
            && g1.limiter == L.LimiterNext(cfg, g.limiter, L.Decide(key, g.now, L.Replied))
            && |g1.reqs| == |g.reqs| + 1 && g1.reqs[..|g.reqs|] == g.reqs
            && g1.reqs[|g.reqs|].path == path
            && g1.reqs[|g.reqs|].ticket == Some(Ticket(key, L.WindowIndex(cfg, g.now), d))
            && g1.reqs[|g.reqs|].stage == if d.Limit? then OverLimit(LimitedLabel(path)) else Cleared
  {
    var u: System;
    actions, u := Enter(gw, before, g, header, path);
    var a := RateLimit(|g.reqs|, g.now, L.Replied);
    actions := Reach(gw, actions, u, a);
    g1 := Act(gw, u, a);
  }

  // ---- One client, one budget ----

  /** n allowed requests of one client for one path, all in the second t. */
  ghost predicate Flooded(cfg: L.LimiterConfig, g: System, key: string, t: nat, path: string, n: nat) {
    && g.now == g.limiter.now == 1000 * t && L.StoreOk(cfg, g.limiter)
    && Count(g.limiter.log, L.CountedIn(key, L.WindowIndex(cfg, g.now))) == n
    && |g.reqs| == n
    && forall i :: 0 <= i < n ==> g.reqs[i].path == path && WasAllowed(g.reqs[i])
  }

  predicate WasAllowed(r: Req) {
    r.ticket.Some? && r.ticket.value.decision == L.Allow
  }

  /** What one more answered request of the key is told. */
  lemma HitDecision(cfg: L.LimiterConfig, st: L.LimiterState, key: string, n: nat)
    requires L.StoreOk(cfg, st) && n == Count(st.log, L.CountedIn(key, L.WindowIndex(cfg, st.now)))
    ensures L.DecisionAt(cfg, st, key, st.now, L.Replied) ==
            if n < cfg.limit then L.Allow else L.Limit(L.Window(cfg))
  {
    L.LiveInOwnWindow(cfg, st, key);
  }

  /** And how it counts. */
  lemma HitCounts(cfg: L.LimiterConfig, st: L.LimiterState, st1: L.LimiterState, key: string, window: nat)
    requires L.StoreOk(cfg, st) && window == L.WindowIndex(cfg, st.now)
    requires st1 == L.LimiterNext(cfg, st, L.Decide(key, st.now, L.Replied))
    ensures L.StoreOk(cfg, st1) && st1.now == st.now
    ensures Count(st1.log, L.CountedIn(key, window)) == Count(st.log, L.CountedIn(key, window)) + 1
  {
    L.StoreKept(cfg, st, L.Decide(key, st.now, L.Replied));
    CountAppend(st.log, st1.log[|st.log|], L.CountedIn(key, window));
  }

  lemma FloodStart(gw: Setup, cfg: L.LimiterConfig, key: string, t: nat, path: string)
    returns (actions: seq<Action>, g: System)
    ensures Reached(gw, actions, g) && Flooded(cfg, g, key, t, path, 0)
  {
    actions := Reach(gw, [], Boot(gw), Elapse(1000 * t));
    g := Act(gw, Boot(gw), Elapse(1000 * t));
  }

  /** One more request in a flood, allowed while there is budget left. */
  lemma FloodStep(
    gw: Setup, cfg: L.LimiterConfig, before: seq<Action>, u: System, header: Option<string>, t: nat, flood: string,
    path: string, n: nat)
    returns (actions: seq<Action>, g: System)
    requires gw.limiter == Some(cfg) && Passes(gw, header, t) && Reached(gw, before, u)
    requires Flooded(cfg, u, LimitKey(ClientOf(gw, header, t), "unkeyed"), t, flood, n)
    ensures Reached(gw, actions, g)
    ensures n < cfg.limit && path == flood ==>
              Flooded(cfg, g, LimitKey(ClientOf(gw, header, t), "unkeyed"), t, flood, n + 1)
    ensures |g.reqs| == n + 1 && g.reqs[..n] == u.reqs && g.reqs[n].path == path
    ensures n >= cfg.limit ==> g.reqs[n].stage == OverLimit(LimitedLabel(path))
  {
    var key := LimitKey(ClientOf(gw, header, t), "unkeyed");
    HitDecision(cfg, u.limiter, key, n);
    assert u.now / 1000 == t;
    actions, g := Ask(gw, cfg, before, u, header, path);
    HitCounts(cfg, u.limiter, g.limiter, key, L.WindowIndex(cfg, u.now));
    assert forall i :: 0 <= i < n ==> g.reqs[i] == g.reqs[..n][i] == u.reqs[i];
  }

  lemma {:induction false} Flood(
    gw: Setup, cfg: L.LimiterConfig, header: Option<string>, t: nat, path: string, n: nat)
    returns (actions: seq<Action>, g: System)
    requires gw.limiter == Some(cfg) && Passes(gw, header, t) && n <= cfg.limit
    ensures Reached(gw, actions, g)
    ensures Flooded(cfg, g, LimitKey(ClientOf(gw, header, t), "unkeyed"), t, path, n)
  {
    if n == 0 {
      actions, g := FloodStart(gw, cfg, LimitKey(ClientOf(gw, header, t), "unkeyed"), t, path);
    } else {
      var shorter, u := Flood(gw, cfg, header, t, path, n - 1);
      actions, g := FloodStep(gw, cfg, shorter, u, header, t, path, path, n - 1);
    }
  }

  /** For every gateway with a limiter, every client that passes the gate at second t, and any two
      paths: there is a run in which `limit` requests for the first path use up the budget, and the
      client's only request for the second, whatever backend it names, is refused with 429 and
      counted under the label cut from its path. */
  lemma OneBudgetForAllPaths(
    gw: Setup, cfg: L.LimiterConfig, header: Option<string>, t: nat, flood: string, victim: string)
    returns (actions: seq<Action>)
    requires gw.limiter == Some(cfg) && Passes(gw, header, t)
    ensures IsHistory(gw, Boot(gw), actions)
    ensures var g := Play(gw, Boot(gw), actions);
            && |g.reqs| == cfg.limit + 1
            && (forall i :: 0 <= i < cfg.limit ==> g.reqs[i].path == flood && WasAllowed(g.reqs[i]))
            && g.reqs[cfg.limit].path == victim && g.reqs[cfg.limit].stage == Done(Response(429, false))
            && LimitedLabel(victim) in g.board.reg.perPrefix
  {
    var before, u := Flood(gw, cfg, header, t, flood, cfg.limit);
    var asked, v := FloodStep(gw, cfg, before, u, header, t, flood, victim, cfg.limit);
    assert forall i :: 0 <= i < cfg.limit ==> v.reqs[i] == v.reqs[..cfg.limit][i] == u.reqs[i];
    actions := Reach(gw, asked, v, CountRejection(cfg.limit));
  }

  /** So every path segment, configured or not, becomes a label in some run. */
  lemma AnyLabelCounted(gw: Setup, cfg: L.LimiterConfig, header: Option<string>, t: nat, segment: string)
    returns (actions: seq<Action>)
    requires gw.limiter == Some(cfg) && Passes(gw, header, t) && IsSegment(segment)
    ensures IsHistory(gw, Boot(gw), actions)
    ensures segment in Play(gw, Boot(gw), actions).board.reg.perPrefix
  {
    AnyLabelReachable(segment);
    actions := OneBudgetForAllPaths(gw, cfg, header, t, "/" + segment + "/", "/" + segment + "/");
  }

  // ---- When labels can leave the table at all ----

  lemma {:induction false} LongerThanAll(keys: set<string>) returns (n: nat)
    ensures n >= 1 && forall k <- keys :: |k| < n
  {
    n := 1;
    if keys != {} {
      var k :| k in keys;
      var m := LongerThanAll(keys - {k});
      n := if m <= |k| then |k| + 1 else m;
    }
  }

  lemma {:induction false} RepeatSegment(n: nat)
    ensures |Repeat('x', n)| == n && '/' !in Repeat('x', n)
  {
    if n > 0 {
      RepeatSegment(n - 1);
    }
  }

  /** Somebody can pass the gate at some time. */
  ghost predicate Open(gw: Setup) {
    exists header, t: nat :: Passes(gw, header, t)
  }

  /** Without a limiter, or behind a gate that nobody passes, no request is refused with 429. */
  lemma NobodyLimited(gw: Setup, actions: seq<Action>)
    requires IsHistory(gw, Boot(gw), actions) && (gw.limiter.None? || !Open(gw))
    ensures var g := Play(gw, Boot(gw), actions);
            forall i :: 0 <= i < |g.reqs| ==> g.reqs[i].stage != Done(Response(429, false))
  {
    var g := Play(gw, Boot(gw), actions);
    BootLinked(gw);
    Pipeline.AuthenticAlways(gw, Boot(gw), actions);
    forall i | 0 <= i < |g.reqs| ensures g.reqs[i].stage != Done(Response(429, false)) {
      assert Pipeline.InOrder(gw, g.reqs[i]) && Pipeline.Authentic(gw, g, g.reqs[i]);
      if g.reqs[i].subject.Some? {
        var t: nat :| T.CheckBearer(gw.auth.value, g.reqs[i].header, t) == g.reqs[i].subject;
        assert Passes(gw, g.reqs[i].header, t);
      } else if gw.auth.None? {
        assert Passes(gw, None, 0);
      }
    }
  }

  /** The documented bound on labels holds in all runs of a gateway exactly when it has no limiter,
      or nobody ever passes its gate. */
  lemma LabelsAlwaysBoundedExactly(gw: Setup)
    ensures (forall actions :: IsHistory(gw, Boot(gw), actions) ==>
               Play(gw, Boot(gw), actions).board.reg.perPrefix.Keys <= gw.backends.Keys)
            <==> gw.limiter.None? || !Open(gw)
  {
    if gw.limiter.Some? && Open(gw) {
      var header, t: nat :| Passes(gw, header, t);
      var n := LongerThanAll(gw.backends.Keys);
      RepeatSegment(n);
      var actions := AnyLabelCounted(gw, gw.limiter.value, header, t, Repeat('x', n));
      assert Repeat('x', n) !in gw.backends;
    } else {
      forall actions | IsHistory(gw, Boot(gw), actions)
        ensures Play(gw, Boot(gw), actions).board.reg.perPrefix.Keys <= gw.backends.Keys
      {
        NobodyLimited(gw, actions);
        Consequences.LabelsBoundedExactly(gw, actions);
      }
    }
  }

  // ---- A breaker lost for good ----

  /** The breaker of p has value b, no call in flight, and the clocks agree. */
  ghost predicate Idle(gw: Setup, g: System, p: string, b: C.Inner) {
    && p in gw.backends && p in g.worlds && g.worlds[p].now == g.now == g.limiter.now
    && g.worlds[p].breaker == b && Progress.NothingInFlight(g.worlds[p])
  }

  /** A new request of the client is past the gate and the limiter, which need not have answered. */
  lemma Clear(gw: Setup, before: seq<Action>, g: System, header: Option<string>, path: string)
    returns (actions: seq<Action>, g1: System)
    requires Reached(gw, before, g) && Passes(gw, header, g.now / 1000) && g.limiter.now == g.now
    ensures Reached(gw, actions, g1)
    ensures g1.now == g1.limiter.now == g.now && g1.worlds == g.worlds
    ensures |g1.reqs| == |g.reqs| + 1 && g1.reqs[|g.reqs|].stage == Cleared && g1.reqs[|g.reqs|].path == path
  {
    var u: System;
    actions, u := Enter(gw, before, g, header, path);
    var a := RateLimit(|g.reqs|, g.now, L.Unreachable);
    actions := Reach(gw, actions, u, a);
    g1 := Act(gw, u, a);
  }

  lemma BarePath(p: string)
    requires IsSegment(p)
    ensures ParsePath(p).0 == p
  {
    RoutingRoundTrip(0, p, []);
    assert Repeat('/', 0) + p == p;
  }

  /** A new request for p is admitted by its breaker. */
  lemma GetAdmitted(gw: Setup, before: seq<Action>, g: System, header: Option<string>, p: string, b: C.Inner)
    returns (actions: seq<Action>, g1: System)
    requires Reached(gw, before, g) && Passes(gw, header, g.now / 1000) && Idle(gw, g, p, b) && IsSegment(p)
    requires C.AdmitDecision(gw.breaker, b, g.now) == C.Call
    ensures Reached(gw, actions, g1) && g1.now == g1.limiter.now == g.now
    ensures p in g1.worlds && g1.worlds[p] == P.AdmitNext(gw.breaker, g.worlds[p])
    ensures |g1.reqs| == |g.reqs| + 1 && g1.reqs[|g.reqs|].stage == Uploading(p, |g.worlds[p].calls|)
  {
    var u: System;
    actions, u := Clear(gw, before, g, header, p);
    BarePath(p);
    actions := Reach(gw, actions, u, Dispatch(|g.reqs|));
    g1 := Act(gw, u, Dispatch(|g.reqs|));
  }

  lemma CallFails(cfg: C.BreakerConfig, w: P.World)
    requires w.breaker.state == C.Closed && Progress.NothingInFlight(w)
    ensures var c := |w.calls|;
            var u := P.AdmitNext(cfg, w);
            && P.Enabled(u, P.Send(c))
            && var v := P.Next(cfg, u, P.Send(c));
               && P.Enabled(v, P.Report(c, false))
               && var x := P.Next(cfg, v, P.Report(c, false));
                  && x.now == w.now && Progress.NothingInFlight(x)
                  && x.breaker == C.AfterRecord(cfg, w.breaker, false, w.now)
  {
  }

  /** A new request for p is sent and its backend cannot be reached. */
  lemma Fail(gw: Setup, before: seq<Action>, g: System, header: Option<string>, p: string, b: C.Inner)
    returns (actions: seq<Action>, g1: System)
    requires Reached(gw, before, g) && Passes(gw, header, g.now / 1000) && Idle(gw, g, p, b) && IsSegment(p)
    requires b.state == C.Closed
    ensures Reached(gw, actions, g1) && g1.now == g.now
    ensures Idle(gw, g1, p, C.AfterRecord(gw.breaker, b, false, g.now))
  {
    var u: System;
    actions, u := GetAdmitted(gw, before, g, header, p, b);
    var id, c := |g.reqs|, |g.worlds[p].calls|;
    CallFails(gw.breaker, g.worlds[p]);
    actions := Reach(gw, actions, u, SendOut(id));
    var v := Act(gw, u, SendOut(id));
    assert v.worlds[p] == P.Next(gw.breaker, u.worlds[p], P.Send(c));
    actions := Reach(gw, actions, v, Reply(id, None, 0));
    g1 := Act(gw, v, Reply(id, None, 0));
    assert g1.worlds[p] == P.Next(gw.breaker, v.worlds[p], P.Report(c, false));
  }

  lemma {:induction false} FailTimes(gw: Setup, header: Option<string>, t: nat, p: string, n: nat)
    returns (actions: seq<Action>, g: System)
    requires Passes(gw, header, t) && p in gw.backends && IsSegment(p) && n <= C.Trip(gw.breaker)
    ensures Reached(gw, actions, g) && g.now == 1000 * t
    ensures Idle(gw, g, p, if n == C.Trip(gw.breaker) then C.JustOpened(1000 * t) else C.Inner(C.Closed, n, None))
  {
    if n == 0 {
      actions := Reach(gw, [], Boot(gw), Elapse(1000 * t));
      g := Act(gw, Boot(gw), Elapse(1000 * t));
    } else {
      var shorter, u := FailTimes(gw, header, t, p, n - 1);
      assert u.now / 1000 == t;
      actions, g := Fail(gw, shorter, u, header, p, C.Inner(C.Closed, n - 1, None));
    }
  }

  /** The backend fails, and the body of the probing request cannot be read. */
  lemma LoseProbe(gw: Setup, p: string, first: Option<string>, t1: nat, second: Option<string>, t2: nat)
    returns (actions: seq<Action>, g: System)
    requires p in gw.backends && IsSegment(p) && Passes(gw, first, t1) && Passes(gw, second, t2)
    requires t1 <= t2 && 1000 * t1 + gw.breaker.cooldown <= 1000 * t2
    ensures Reached(gw, actions, g)
    ensures p in g.worlds && g.worlds[p].breaker.state == C.HalfOpen && Progress.NothingInFlight(g.worlds[p])
  {
    var before, u := FailTimes(gw, first, t1, p, C.Trip(gw.breaker));
    var wait := Elapse(1000 * t2 - 1000 * t1);
    before := Reach(gw, before, u, wait);
    u := Act(gw, u, wait);
    assert u.now / 1000 == t2;
    var v: System;
    before, v := GetAdmitted(gw, before, u, second, p, C.JustOpened(1000 * t1));
    actions := Reach(gw, before, v, BodyFails(|u.reqs|));
    g := Act(gw, v, BodyFails(|u.reqs|));
    assert g.worlds[p] == P.Next(gw.breaker, v.worlds[p], P.Abandon(|u.worlds[p].calls|));
  }

  /** In every gateway, for every backend p and clients that pass the gate at two seconds a cooldown
      apart, there is a run after which p's breaker is half-open and nothing that can happen later
      ever changes it. */
  lemma GatewayWedgeReached(gw: Setup, p: string, first: Option<string>, t1: nat, second: Option<string>, t2: nat)
    returns (actions: seq<Action>)
    requires p in gw.backends && IsSegment(p) && Passes(gw, first, t1) && Passes(gw, second, t2)
    requires t1 <= t2 && 1000 * t1 + gw.breaker.cooldown <= 1000 * t2
    ensures IsHistory(gw, Boot(gw), actions)
    ensures var g := Play(gw, Boot(gw), actions);
            && p in g.worlds && g.worlds[p].breaker.state == C.HalfOpen
            && forall more :: IsHistory(gw, g, more) ==>
                 p in Play(gw, g, more).worlds && Play(gw, g, more).worlds[p].breaker == g.worlds[p].breaker
  {
    var g: System;
    actions, g := LoseProbe(gw, p, first, t1, second, t2);
    BootLinked(gw);
    Components.LinkedAlways(gw, Boot(gw), actions);
    forall more | IsHistory(gw, g, more)
      ensures p in Play(gw, g, more).worlds && Play(gw, g, more).worlds[p].breaker == g.worlds[p].breaker
    {
      Consequences.GatewayWedge(gw, g, more, p, 0);
    }
  }
}
