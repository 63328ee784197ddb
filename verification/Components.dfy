/** Every gateway run, seen from one component, is a run of that component alone: so what is
    proved of a lone breaker, limiter or registry holds inside every gateway. */
module Components {
  import opened Counting
  import opened Gateway
  import opened Routing
  import C = Circuit
  import P = Protocol
  import L = Limiter
  import M = Metrics
  import CooldownSafety

  // ---- What one action is to each component ----

  /** The step an action makes on the breaker of prefix p, if any. */
  function BreakerSteps(gw: Setup, g: System, a: Action, p: string): seq<P.Step>
    requires Possible(gw, g, a)
  {
    match a
    case Elapse(ms) => [P.Tick(ms)]
    case Dispatch(id) => if p != [] && ParsePath(g.reqs[id].path).0 == p then [P.TryAdmit] else []
    case BodyFails(id) => if g.reqs[id].stage.prefix == p then [P.Abandon(g.reqs[id].stage.call)] else []
    case SendOut(id) => if g.reqs[id].stage.prefix == p then [P.Send(g.reqs[id].stage.call)] else []
    case Reply(id, status, _) =>
      if g.reqs[id].stage.prefix == p then [P.Report(g.reqs[id].stage.call, status.Some?)] else []
    case _ => []
  }

  function LimiterSteps(gw: Setup, g: System, a: Action): seq<L.LimiterStep>
    requires Possible(gw, g, a)
  {
    match a
    case Elapse(ms) => [L.Wait(ms)]
    case RateLimit(id, stampedAt, outcome) =>
      if gw.limiter.Some? then [L.Decide(KeyOf(g.reqs[id]), stampedAt, outcome)] else []
    case _ => []
  }

  function BoardSteps(gw: Setup, g: System, a: Action): seq<M.BoardStep>
    requires Possible(gw, g, a)
  {
    match a
    case CountRejection(id) =>
      var stage := g.reqs[id].stage;
      [if stage.OverLimit? then M.RateLimited(stage.tag) else M.CircuitOpen(stage.prefix)]
    case Reply(id, status, nanos) => [M.Begin(g.reqs[id].stage.prefix, Some(StatusClass(status)), nanos)]
    case FinishStep(id) => [M.Advance(g.reqs[id].stage.finisher)]
    case _ => []
  }

  // ---- What a run is to each component ----

  function BreakerRun(gw: Setup, g: System, actions: seq<Action>, p: string): seq<P.Step>
    requires IsHistory(gw, g, actions)
    decreases |actions|
  {
    if actions == [] then []
    else BreakerSteps(gw, g, actions[0], p) + BreakerRun(gw, Act(gw, g, actions[0]), actions[1..], p)
  }

  function LimiterRun(gw: Setup, g: System, actions: seq<Action>): seq<L.LimiterStep>
    requires IsHistory(gw, g, actions)
    decreases |actions|
  {
    if actions == [] then []
    else LimiterSteps(gw, g, actions[0]) + LimiterRun(gw, Act(gw, g, actions[0]), actions[1..])
  }

  function BoardRun(gw: Setup, g: System, actions: seq<Action>): seq<M.BoardStep>
    requires IsHistory(gw, g, actions)
    decreases |actions|
  {
    if actions == [] then []
    else BoardSteps(gw, g, actions[0]) + BoardRun(gw, Act(gw, g, actions[0]), actions[1..])
  }

  // ---- Breakers ----

  lemma BreakerSees(gw: Setup, g: System, a: Action, p: string)
    requires Linked(gw, g) && Possible(gw, g, a) && p in g.worlds
    ensures p in Act(gw, g, a).worlds
    ensures var s := BreakerSteps(gw, g, a, p);
            if s == [] then Act(gw, g, a).worlds[p] == g.worlds[p]
            else |s| == 1 && P.Enabled(g.worlds[p], s[0])
                 && Act(gw, g, a).worlds[p] == P.Next(gw.breaker, g.worlds[p], s[0])
  {
    if a.BodyFails? || a.SendOut? || a.Reply? {
      assert CallLinked(g, g.reqs[a.id]);
    }
  }

  /** The projection of any interleaved multi-backend run onto one prefix is a run of a lone
      breaker that ends in the same world: same state, admissions and history. */
  lemma {:induction false} BreakerIndependence(gw: Setup, g: System, actions: seq<Action>, p: string)
    requires Linked(gw, g) && IsHistory(gw, g, actions) && p in g.worlds
    ensures var s := BreakerRun(gw, g, actions, p);
            && p in Play(gw, g, actions).worlds
            && P.IsRun(gw.breaker, g.worlds[p], s)
            && P.Exec(gw.breaker, g.worlds[p], s) == Play(gw, g, actions).worlds[p]
    decreases |actions|
  {
    if actions != [] {
      var a := actions[0];
      LinkedKept(gw, g, a);
      BreakerSees(gw, g, a, p);
      BreakerIndependence(gw, Act(gw, g, a), actions[1..], p);
      ConsBreaker(gw.breaker, g.worlds[p], BreakerSteps(gw, g, a, p),
                  BreakerRun(gw, Act(gw, g, a), actions[1..], p), Act(gw, g, a).worlds[p]);
    }
  }

  lemma ConsBreaker(cfg: C.BreakerConfig, w: P.World, s: seq<P.Step>, t: seq<P.Step>, v: P.World)
    requires if s == [] then v == w else |s| == 1 && P.Enabled(w, s[0]) && v == P.Next(cfg, w, s[0])
    requires P.IsRun(cfg, v, t)
    ensures P.IsRun(cfg, w, s + t) && P.Exec(cfg, w, s + t) == P.Exec(cfg, v, t)
  {
    if s == [] {
      assert s + t == t;
    } else {
      assert (s + t)[1..] == t;
    }
  }

  /** Every prefix with a backend has a breaker, in every state of the gateway. */
  lemma {:induction false} LinkedAlways(gw: Setup, g: System, actions: seq<Action>)
    requires Linked(gw, g) && IsHistory(gw, g, actions)
    ensures Linked(gw, Play(gw, g, actions))
    ensures Play(gw, g, actions).worlds.Keys == gw.backends.Keys
    decreases |actions|
  {
    if actions != [] {
      LinkedKept(gw, g, actions[0]);
      LinkedAlways(gw, Act(gw, g, actions[0]), actions[1..]);
    }
  }

  // ---- The limiter ----

  lemma LimiterSees(gw: Setup, g: System, a: Action, cfg: L.LimiterConfig)
    requires Possible(gw, g, a) && gw.limiter == Some(cfg)
    ensures var s := LimiterSteps(gw, g, a);
            if s == [] then Act(gw, g, a).limiter == g.limiter
            else |s| == 1 && L.Permitted(cfg, g.limiter, s[0])
                 && Act(gw, g, a).limiter == L.LimiterNext(cfg, g.limiter, s[0])
  {
  }

  lemma {:induction false} LimiterProjection(gw: Setup, g: System, actions: seq<Action>, cfg: L.LimiterConfig)
    requires IsHistory(gw, g, actions) && gw.limiter == Some(cfg)
    ensures var s := LimiterRun(gw, g, actions);
            && L.IsLimiterRun(cfg, g.limiter, s)
            && L.LimiterExec(cfg, g.limiter, s) == Play(gw, g, actions).limiter
    decreases |actions|
  {
    if actions != [] {
      var a := actions[0];
      LimiterSees(gw, g, a, cfg);
      LimiterProjection(gw, Act(gw, g, a), actions[1..], cfg);
      var s, t := LimiterSteps(gw, g, a), LimiterRun(gw, Act(gw, g, a), actions[1..]);
      if s == [] {
        assert s + t == t;
      } else {
        assert (s + t)[1..] == t;
      }
    }
  }

  // ---- The registry ----

  lemma BoardSees(gw: Setup, g: System, a: Action)
    requires FinishersLinked(g) && Possible(gw, g, a)
    ensures var s := BoardSteps(gw, g, a);
            if s == [] then Act(gw, g, a).board == g.board
            else |s| == 1 && M.Ready(g.board, s[0]) && Act(gw, g, a).board == M.BoardNext(g.board, s[0])
  {
    if a.FinishStep? {
      assert FinisherLinked(g, g.reqs[a.id]);
    }
  }

  lemma {:induction false} BoardProjection(gw: Setup, g: System, actions: seq<Action>)
    requires Linked(gw, g) && IsHistory(gw, g, actions)
    ensures var s := BoardRun(gw, g, actions);
            M.IsBoardRun(g.board, s) && M.BoardExec(g.board, s) == Play(gw, g, actions).board
    decreases |actions|
  {
    if actions != [] {
      var a := actions[0];
      LinkedKept(gw, g, a);
      BoardSees(gw, g, a);
      BoardProjection(gw, Act(gw, g, a), actions[1..]);
      var s, t := BoardSteps(gw, g, a), BoardRun(gw, Act(gw, g, a), actions[1..]);
      if s == [] {
        assert s + t == t;
      } else {
        assert (s + t)[1..] == t;
      }
    }
  }

  // ---- A corollary: the cooldown holds in the gateway ----

  /** In every gateway run, no request reaches a backend's admission within a cooldown of any
      earlier opening of its breaker, whatever the other backends do. */
  lemma GatewayCooldown(gw: Setup, actions: seq<Action>, p: string)
    requires IsHistory(gw, Boot(gw), actions) && p in gw.backends
    ensures p in Play(gw, Boot(gw), actions).worlds
    ensures CooldownSafety.Spaced(Play(gw, Boot(gw), actions).worlds[p].log, gw.breaker.cooldown)
    ensures CooldownSafety.OneAtATime(Play(gw, Boot(gw), actions).worlds[p].log)
  {
    BootLinked(gw);
    BreakerIndependence(gw, Boot(gw), actions, p);
    CooldownSafety.RunHistory(gw.breaker, BreakerRun(gw, Boot(gw), actions, p));
  }
}
