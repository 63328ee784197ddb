/** The request pipeline as a machine over all requests at once: authenticate, rate-limit,
    dispatch to a breaker, buffer, send, report, and finish the metrics. Every atomic action of
    the code is one step; steps of different requests interleave freely. */
module Gateway {
  import opened Counting
  import opened LimitKeys
  import opened Routing
  import C = Circuit
  import P = Protocol
  import L = Limiter
  import M = Metrics
  import T = Token

  /** The deployed gateway: a backend per prefix, a breaker per backend, metrics, and optionally
      the bearer gate and the limiter. */
  datatype Setup = Setup(
    backends: map<string, string>,
    breaker: C.BreakerConfig,
    auth: Option<T.AuthState>,
    limiter: Option<L.LimiterConfig>)

  /** What the limiter said about a request. */
  datatype Ticket = Ticket(key: string, window: nat, decision: L.Decision)

  /** `proxied` tells the backend's answers from the gateway's own responses. */
  datatype Response = Response(status: nat, proxied: bool)

  datatype Stage =
    | Received
    | Identified
    | OverLimit(tag: string)
    | Cleared
    | ShortCircuited(prefix: string)
    | Uploading(prefix: string, call: nat)
    | Awaiting(prefix: string, call: nat)
    | Finishing(prefix: string, finisher: nat, response: Response)
    | Done(response: Response)

  datatype Req = Req(
    header: Option<string>,
    path: string,
    subject: Option<string>,
    ticket: Option<Ticket>,
    sentTo: Option<string>,
    stage: Stage)

  /** One clock, in milliseconds, drives the limiter and every breaker. */
  datatype System = System(
    now: nat,
    limiter: L.LimiterState,
    worlds: map<string, P.World>,
    board: M.Board,
    reqs: seq<Req>)

  function Boot(gw: Setup): System {
    System(0, L.START, map p | p in gw.backends :: P.INIT, M.BLANK, [])
  }

  datatype Action =
    | Elapse(ms: nat)
    | Arrive(header: Option<string>, path: string)
    | Authenticate(id: nat)
    | RateLimit(id: nat, stampedAt: nat, outcome: L.Outcome)
    | Dispatch(id: nat)
    | CountRejection(id: nat)
    | BodyFails(id: nat)
    | SendOut(id: nat)
    | Reply(id: nat, status: Option<nat>, nanos: nat)
    | FinishStep(id: nat)

  /** What the steps of one request need: its stage, and values the environment may supply. */
  predicate Possible(gw: Setup, g: System, a: Action) {
    match a
    case Elapse(_) => true
    case Arrive(_, _) => true
    case Authenticate(id) => id < |g.reqs| && g.reqs[id].stage.Received?
    case RateLimit(id, stampedAt, outcome) =>
      && id < |g.reqs| && g.reqs[id].stage.Identified?
      && (gw.limiter.Some? ==>
            L.Permitted(gw.limiter.value, g.limiter, L.Decide(KeyOf(g.reqs[id]), stampedAt, outcome)))
    case Dispatch(id) => id < |g.reqs| && g.reqs[id].stage.Cleared?
    case CountRejection(id) => id < |g.reqs| && (g.reqs[id].stage.OverLimit? || g.reqs[id].stage.ShortCircuited?)
    case BodyFails(id) => id < |g.reqs| && g.reqs[id].stage.Uploading?
    case SendOut(id) => id < |g.reqs| && g.reqs[id].stage.Uploading?
    case Reply(id, status, _) =>
      && id < |g.reqs| && g.reqs[id].stage.Awaiting?
      && (status.Some? ==> 100 <= status.value < 1000)
    case FinishStep(id) => id < |g.reqs| && g.reqs[id].stage.Finishing?
  }

  /** The gateway never learns the client address: the fallback key is a constant. */
  function KeyOf(r: Req): string {
    LimitKey(r.subject, "unkeyed")
  }

  // ---- What an action does to its request ----

  function Respond(r: Req, status: nat): Req {
    r.(stage := Done(Response(status, false)))
  }

  function AfterAuthenticate(gw: Setup, g: System, r: Req): Req {
    if gw.auth.None? then r.(stage := Identified)
    else
      match T.CheckBearer(gw.auth.value, r.header, g.now / 1000)
      case None => Respond(r, 401)
      case Some(subject) => r.(subject := Some(subject), stage := Identified)
  }

  function AfterRateLimit(cfg: L.LimiterConfig, st: L.LimiterState, r: Req, stampedAt: nat, outcome: L.Outcome): Req {
    var d := L.DecisionAt(cfg, st, KeyOf(r), stampedAt, outcome);
    r.(ticket := Some(Ticket(KeyOf(r), L.WindowIndex(cfg, stampedAt), d)),
       stage := if d.Limit? then OverLimit(LimitedLabel(r.path)) else Cleared)
  }

  /** The path names a prefix with a backend, and so with a breaker. */
  predicate Routable(gw: Setup, g: System, r: Req) {
    var p := ParsePath(r.path).0;
    p != [] && p in gw.backends && p in g.worlds
  }

  function AfterDispatch(gw: Setup, g: System, r: Req): Req {
    var p := ParsePath(r.path).0;
    if !Routable(gw, g, r) then Respond(r, 404)
    else if C.AdmitDecision(gw.breaker, g.worlds[p].breaker, g.worlds[p].now) == C.ShortCircuit
    then r.(stage := ShortCircuited(p))
    else r.(stage := Uploading(p, |g.worlds[p].calls|))
  }

  /** 502 for a transport failure, the backend's status otherwise. */
  function ReplyResponse(status: Option<nat>): Response {
    match status
    case None => Response(502, false)
    case Some(s) => Response(s, true)
  }

  function StatusClass(status: Option<nat>): nat {
    match status
    case None => 5
    case Some(s) => s / 100
  }

  /** The last increment of its finisher ends a request. */
  function AfterFinish(g: System, r: Req): Req
    requires r.stage.Finishing?
  {
    var k := r.stage.finisher;
    if k < |g.board.finishers| && g.board.finishers[k].pc + 1 >= M.DONE then r.(stage := Done(r.stage.response)) else r
  }

  /** Actions that belong to one request. */
  predicate OfRequest(a: Action) {
    !a.Elapse? && !a.Arrive?
  }

  function Moved(gw: Setup, g: System, a: Action): Req
    requires Possible(gw, g, a) && OfRequest(a)
  {
    var r := g.reqs[a.id];
    match a
    case Authenticate(_) => AfterAuthenticate(gw, g, r)
    case RateLimit(_, stampedAt, outcome) =>
      if gw.limiter.None? then r.(stage := Cleared)
      else AfterRateLimit(gw.limiter.value, g.limiter, r, stampedAt, outcome)
    case Dispatch(_) => AfterDispatch(gw, g, r)
    case CountRejection(_) => Respond(r, if r.stage.OverLimit? then 429 else 503)
    case BodyFails(_) => Respond(r, 400)
    case SendOut(_) => r.(sentTo := Some(r.stage.prefix), stage := Awaiting(r.stage.prefix, r.stage.call))
    case Reply(_, status, _) =>
      r.(stage := Finishing(r.stage.prefix, |g.board.finishers|, ReplyResponse(status)))
    case FinishStep(_) => AfterFinish(g, r)
  }

  // ---- What an action does to the components ----

  function LimiterAfter(gw: Setup, g: System, a: Action): L.LimiterState
    requires Possible(gw, g, a)
  {
    match a
    case Elapse(ms) => g.limiter.(now := g.limiter.now + ms)
    case RateLimit(id, stampedAt, outcome) =>
      if gw.limiter.None? then g.limiter
      else L.LimiterNext(gw.limiter.value, g.limiter, L.Decide(KeyOf(g.reqs[id]), stampedAt, outcome))
    case _ => g.limiter
  }

  function BreakerStepped(gw: Setup, worlds: map<string, P.World>, p: string, s: P.Step): map<string, P.World> {
    if p in worlds && P.Enabled(worlds[p], s) then worlds[p := P.Next(gw.breaker, worlds[p], s)] else worlds
  }

  /** The breaker is asked at dispatch and told the outcome at the reply. */
  function WorldsAfter(gw: Setup, g: System, a: Action): map<string, P.World>
    requires Possible(gw, g, a)
  {
    match a
    case Elapse(ms) => map p | p in g.worlds :: P.Next(gw.breaker, g.worlds[p], P.Tick(ms))
    case Dispatch(id) =>
      var p := ParsePath(g.reqs[id].path).0;
      if Routable(gw, g, g.reqs[id]) then g.worlds[p := P.AdmitNext(gw.breaker, g.worlds[p])] else g.worlds
    case BodyFails(id) =>
      BreakerStepped(gw, g.worlds, g.reqs[id].stage.prefix, P.Abandon(g.reqs[id].stage.call))
    case SendOut(id) =>
      BreakerStepped(gw, g.worlds, g.reqs[id].stage.prefix, P.Send(g.reqs[id].stage.call))
    case Reply(id, status, _) =>
      BreakerStepped(gw, g.worlds, g.reqs[id].stage.prefix, P.Report(g.reqs[id].stage.call, status.Some?))
    case _ => g.worlds
  }

  function BoardStepped(b: M.Board, s: M.BoardStep): M.Board {
    if M.Ready(b, s) then M.BoardNext(b, s) else b
  }

  /** Rejections are counted at once; an answered request starts a metrics finisher and then
      makes its increments one at a time. */
  function BoardAfter(gw: Setup, g: System, a: Action): M.Board
    requires Possible(gw, g, a)
  {
    match a
    case CountRejection(id) =>
      var stage := g.reqs[id].stage;
      BoardStepped(g.board, if stage.OverLimit? then M.RateLimited(stage.tag) else M.CircuitOpen(stage.prefix))
    case Reply(id, status, nanos) =>
      BoardStepped(g.board, M.Begin(g.reqs[id].stage.prefix, Some(StatusClass(status)), nanos))
    case FinishStep(id) => BoardStepped(g.board, M.Advance(g.reqs[id].stage.finisher))
    case _ => g.board
  }

  function RequestsAfter(gw: Setup, g: System, a: Action): seq<Req>
    requires Possible(gw, g, a)
  {
    match a
    case Elapse(_) => g.reqs
    case Arrive(header, path) => g.reqs + [Req(header, path, None, None, None, Received)]
    case _ => g.reqs[a.id := Moved(gw, g, a)]
  }

  function Act(gw: Setup, g: System, a: Action): System
    requires Possible(gw, g, a)
  {
    System(
      if a.Elapse? then g.now + a.ms else g.now,
      LimiterAfter(gw, g, a),
      WorldsAfter(gw, g, a),
      BoardAfter(gw, g, a),
      RequestsAfter(gw, g, a))
  }

  predicate IsHistory(gw: Setup, g: System, actions: seq<Action>)
    decreases |actions|
  {
    actions == [] || (Possible(gw, g, actions[0]) && IsHistory(gw, Act(gw, g, actions[0]), actions[1..]))
  }

  function Play(gw: Setup, g: System, actions: seq<Action>): System
    requires IsHistory(gw, g, actions)
    decreases |actions|
  {
    if actions == [] then g else Play(gw, Act(gw, g, actions[0]), actions[1..])
  }

  // ---- Requests and components stay in step ----

  /** The breaker call a request holds, and the metrics finisher it runs. */
  function CallOf(r: Req): Option<(string, nat)> {
    match r.stage
    case Uploading(p, c) => Some((p, c))
    case Awaiting(p, c) => Some((p, c))
    case _ => None
  }

  function FinisherOf(r: Req): Option<nat> {
    match r.stage
    case Finishing(_, k, _) => Some(k)
    case _ => None
  }

  ghost predicate ClocksAgree(gw: Setup, g: System) {
    && g.worlds.Keys == gw.backends.Keys && g.limiter.now == g.now
    && forall p <- g.worlds :: g.worlds[p].now == g.now
  }

  /** A request that is uploading or awaiting holds a call in that very phase. */
  ghost predicate CallLinked(g: System, r: Req) {
    match r.stage
    case Uploading(p, c) => p in g.worlds && P.InPhase(g.worlds[p], c, P.Buffering)
    case Awaiting(p, c) => p in g.worlds && P.InPhase(g.worlds[p], c, P.Sending)
    case _ => true
  }

  ghost predicate CallsLinked(g: System) {
    && (forall i :: 0 <= i < |g.reqs| ==> CallLinked(g, g.reqs[i]))
    && (forall i, j :: 0 <= i < j < |g.reqs| && CallOf(g.reqs[i]).Some? ==> CallOf(g.reqs[i]) != CallOf(g.reqs[j]))
  }

  ghost predicate FinisherLinked(g: System, r: Req) {
    match r.stage
    case Finishing(p, k, _) =>
      k < |g.board.finishers| && g.board.finishers[k].pc < M.DONE && g.board.finishers[k].prefix == p
    case _ => true
  }

  ghost predicate FinishersLinked(g: System) {
    && (forall i :: 0 <= i < |g.reqs| ==> FinisherLinked(g, g.reqs[i]))
    && (forall i, j :: 0 <= i < j < |g.reqs| && FinisherOf(g.reqs[i]).Some? ==>
          FinisherOf(g.reqs[i]) != FinisherOf(g.reqs[j]))
  }

  ghost predicate Linked(gw: Setup, g: System) {
    ClocksAgree(gw, g) && CallsLinked(g) && FinishersLinked(g)
  }

  // ---- Every action keeps them in step ----

  lemma ClocksKept(gw: Setup, g: System, a: Action)
    requires ClocksAgree(gw, g) && Possible(gw, g, a)
    ensures ClocksAgree(gw, Act(gw, g, a))
  {
  }

  /** One request moves on, the others keep their calls. */
  lemma PutCall(g: System, g1: System, id: nat)
    requires CallsLinked(g) && id < |g.reqs| == |g1.reqs| && g1.reqs == g.reqs[id := g1.reqs[id]]
    requires forall j :: 0 <= j < |g.reqs| && j != id ==> CallLinked(g1, g.reqs[j])
    requires CallLinked(g1, g1.reqs[id])
    requires CallOf(g1.reqs[id]).Some? ==>
               forall j :: 0 <= j < |g.reqs| && j != id ==> CallOf(g.reqs[j]) != CallOf(g1.reqs[id])
    ensures CallsLinked(g1)
  {
    forall i, j | 0 <= i < j < |g1.reqs| && CallOf(g1.reqs[i]).Some?
      ensures CallOf(g1.reqs[i]) != CallOf(g1.reqs[j])
    {
      if i != id && j != id {
        assert g1.reqs[i] == g.reqs[i] && g1.reqs[j] == g.reqs[j];
      }
    }
  }

  /** A step on one call leaves every other call's phase alone. */
  lemma OtherCalls(gw: Setup, g: System, g1: System, p: string, s: P.Step, id: nat)
    requires CallsLinked(g) && id < |g.reqs| && g1.worlds == BreakerStepped(gw, g.worlds, p, s)
    requires (s.Abandon? || s.Send? || s.Report?) && CallOf(g.reqs[id]) == Some((p, s.call))
    ensures forall j :: 0 <= j < |g.reqs| && j != id ==>
              CallLinked(g1, g.reqs[j]) && CallOf(g.reqs[j]) != CallOf(g.reqs[id])
  {
    forall j | 0 <= j < |g.reqs| && j != id
      ensures CallLinked(g1, g.reqs[j]) && CallOf(g.reqs[j]) != CallOf(g.reqs[id])
    {
      assert CallLinked(g, g.reqs[j]);
    }
  }

  lemma DispatchKeepsCalls(gw: Setup, g: System, a: Action)
    requires CallsLinked(g) && Possible(gw, g, a) && a.Dispatch?
    ensures CallsLinked(Act(gw, g, a))
  {
    var g1 := Act(gw, g, a);
    forall j | 0 <= j < |g.reqs| && j != a.id
      ensures CallLinked(g1, g.reqs[j])
      ensures CallOf(g1.reqs[a.id]).Some? ==> CallOf(g.reqs[j]) != CallOf(g1.reqs[a.id])
    {
      assert CallLinked(g, g.reqs[j]);
    }
    PutCall(g, g1, a.id);
  }

  lemma CallStepsKeepCalls(gw: Setup, g: System, a: Action)
    requires CallsLinked(g) && Possible(gw, g, a) && (a.BodyFails? || a.SendOut? || a.Reply?)
    ensures CallsLinked(Act(gw, g, a))
  {
    var g1, r := Act(gw, g, a), g.reqs[a.id];
    var s := match a
      case BodyFails(_) => P.Abandon(r.stage.call)
      case SendOut(_) => P.Send(r.stage.call)
      case Reply(_, status, _) => P.Report(r.stage.call, status.Some?);
    assert CallLinked(g, r);
    OtherCalls(gw, g, g1, r.stage.prefix, s, a.id);
    PutCall(g, g1, a.id);
  }

  lemma OthersKeepCalls(gw: Setup, g: System, a: Action)
    requires CallsLinked(g) && Possible(gw, g, a) && (!OfRequest(a) || WorldsAfter(gw, g, a) == g.worlds)
    requires OfRequest(a) ==> CallOf(Moved(gw, g, a)).None?
    ensures CallsLinked(Act(gw, g, a))
  {
    var g1 := Act(gw, g, a);
    forall j | 0 <= j < |g.reqs| ensures CallLinked(g1, g.reqs[j]) {
      assert CallLinked(g, g.reqs[j]);
    }
    if OfRequest(a) {
      PutCall(g, g1, a.id);
    }
  }

  lemma CallsKept(gw: Setup, g: System, a: Action)
    requires CallsLinked(g) && Possible(gw, g, a)
    ensures CallsLinked(Act(gw, g, a))
  {
    if a.Dispatch? {
      DispatchKeepsCalls(gw, g, a);
    } else if a.BodyFails? || a.SendOut? || a.Reply? {
      CallStepsKeepCalls(gw, g, a);
    } else {
      OthersKeepCalls(gw, g, a);
    }
  }

  /** The same for finishers: one request moves on, the others keep theirs. */
  lemma PutFinisher(g: System, g1: System, id: nat)
    requires FinishersLinked(g) && id < |g.reqs| == |g1.reqs| && g1.reqs == g.reqs[id := g1.reqs[id]]
    requires forall j :: 0 <= j < |g.reqs| && j != id ==> FinisherLinked(g1, g.reqs[j])
    requires FinisherLinked(g1, g1.reqs[id])
    requires FinisherOf(g1.reqs[id]).Some? ==>
               forall j :: 0 <= j < |g.reqs| && j != id ==> FinisherOf(g.reqs[j]) != FinisherOf(g1.reqs[id])
    ensures FinishersLinked(g1)
  {
    forall i, j | 0 <= i < j < |g1.reqs| && FinisherOf(g1.reqs[i]).Some?
      ensures FinisherOf(g1.reqs[i]) != FinisherOf(g1.reqs[j])
    {
      if i != id && j != id {
        assert g1.reqs[i] == g.reqs[i] && g1.reqs[j] == g.reqs[j];
      }
    }
  }

  lemma FinishersKept(gw: Setup, g: System, a: Action)
    requires FinishersLinked(g) && Possible(gw, g, a)
    ensures FinishersLinked(Act(gw, g, a))
  {
    var g1 := Act(gw, g, a);
    if OfRequest(a) {
      assert FinisherLinked(g, g.reqs[a.id]);
      forall j | 0 <= j < |g.reqs| && j != a.id
        ensures FinisherLinked(g1, g.reqs[j])
        ensures FinisherOf(g1.reqs[a.id]).Some? ==> FinisherOf(g.reqs[j]) != FinisherOf(g1.reqs[a.id])
      {
        assert FinisherLinked(g, g.reqs[j]);
      }
      PutFinisher(g, g1, a.id);
    } else {
      forall i | 0 <= i < |g1.reqs| ensures FinisherLinked(g1, g1.reqs[i]) {
        assert i < |g.reqs| ==> FinisherLinked(g, g.reqs[i]);
      }
    }
  }

  lemma LinkedKept(gw: Setup, g: System, a: Action)
    requires Linked(gw, g) && Possible(gw, g, a)
    ensures Linked(gw, Act(gw, g, a))
  {
    ClocksKept(gw, g, a);
    CallsKept(gw, g, a);
    FinishersKept(gw, g, a);
  }

  lemma BootLinked(gw: Setup)
    ensures Linked(gw, Boot(gw))
  {
  }
}
