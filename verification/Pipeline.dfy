/** What the composed pipeline guarantees about each request and each client. */
module Pipeline {
  import opened Counting
  import opened LimitKeys
  import opened Gateway
  import opened Components
  import L = Limiter
  import T = Token
  import C = Circuit
  import P = Protocol
  import Routing

  /** The limiter, if there is one, let the request pass. */
  predicate PassedLimiter(gw: Setup, r: Req) {
    gw.limiter.Some? ==> r.ticket.Some? && !r.ticket.value.decision.Limit?
  }

  /** The path of the request names prefix p and p has a backend. */
  predicate Routed(gw: Setup, r: Req, p: string) {
    p != [] && p == Routing.ParsePath(r.path).0 && p in gw.backends
  }

  /** Past the gate and the limiter. */
  predicate Vetted(gw: Setup, r: Req) {
    (gw.auth.Some? ==> r.subject.Some?) && PassedLimiter(gw, r)
  }

  predicate HasRoute(gw: Setup, r: Req) {
    Routed(gw, r, Routing.ParsePath(r.path).0)
  }

  /** The order of the pipeline, as every request shows it: nothing happens to an unverified
      request but a 401, no ticket without a limiter, no send before the limiter passed, and a send
      only to the backend that the path names. */
  predicate InOrder(gw: Setup, r: Req) {
    && (gw.auth.Some? && r.subject.None? ==> r.stage.Received? || r.stage == Done(Response(401, false)))
    && (r.ticket.Some? ==> gw.limiter.Some? && r.ticket.value.key == KeyOf(r))
    && (r.sentTo.Some? ==> Vetted(gw, r) && Routed(gw, r, r.sentTo.value))
    && StageInOrder(gw, r)
  }

  predicate StageInOrder(gw: Setup, r: Req) {
    match r.stage
    case Received => r.subject.None? && r.ticket.None? && r.sentTo.None?
    case Identified => r.ticket.None? && r.sentTo.None?
    case OverLimit(tag) => WasLimited(r) && r.sentTo.None? && tag == Routing.LimitedLabel(r.path)
    case Cleared => Vetted(gw, r) && r.sentTo.None?
    case ShortCircuited(p) => Vetted(gw, r) && Routed(gw, r, p) && r.sentTo.None?
    case Uploading(p, _) => Vetted(gw, r) && Routed(gw, r, p) && r.sentTo.None?
    case Awaiting(p, _) => r.sentTo == Some(p)
    case Finishing(p, _, response) => r.sentTo == Some(p) && (response.proxied || response.status == 502)
    case Done(response) => ResponseInOrder(gw, r, response)
  }

  predicate WasLimited(r: Req) {
    r.ticket.Some? && r.ticket.value.decision.Limit?
  }

  /** Each response of the gateway's own is given in exactly one situation. */
  predicate ResponseInOrder(gw: Setup, r: Req, response: Response) {
    && (response.proxied || response.status == 502 <==> r.sentTo.Some?)
    && (response == Response(401, false) <==> gw.auth.Some? && r.subject.None?)
    && (response == Response(401, false) ==> r.ticket.None?)
    && (response == Response(429, false) <==> WasLimited(r))
    && (response == Response(404, false) <==> Vetted(gw, r) && !HasRoute(gw, r))
    && (response == Response(400, false) || response == Response(503, false) <==>
          Vetted(gw, r) && HasRoute(gw, r) && r.sentTo.None?)
  }

  ghost predicate AllInOrder(gw: Setup, g: System) {
    forall i :: 0 <= i < |g.reqs| ==> InOrder(gw, g.reqs[i])
  }

  /** Up to the decision whether to forward the request. */
  lemma DecidedInOrder(gw: Setup, g: System, a: Action)
    requires Possible(gw, g, a) && (a.Authenticate? || a.RateLimit? || a.Dispatch? || a.CountRejection?)
    requires InOrder(gw, g.reqs[a.id]) && g.worlds.Keys == gw.backends.Keys
    ensures InOrder(gw, Moved(gw, g, a))
  {
  }

  /** And from there on. */
  lemma ForwardedInOrder(gw: Setup, g: System, a: Action)
    requires Possible(gw, g, a) && (a.BodyFails? || a.SendOut? || a.Reply? || a.FinishStep?)
    requires InOrder(gw, g.reqs[a.id])
    ensures InOrder(gw, Moved(gw, g, a))
  {
  }

  lemma MovedInOrder(gw: Setup, g: System, a: Action)
    requires Possible(gw, g, a) && OfRequest(a) && InOrder(gw, g.reqs[a.id]) && g.worlds.Keys == gw.backends.Keys
    ensures InOrder(gw, Moved(gw, g, a))
  {
    if a.Authenticate? || a.RateLimit? || a.Dispatch? || a.CountRejection? {
      DecidedInOrder(gw, g, a);
    } else {
      ForwardedInOrder(gw, g, a);
    }
  }

  lemma OrderKept(gw: Setup, g: System, a: Action)
    requires AllInOrder(gw, g) && Possible(gw, g, a) && g.worlds.Keys == gw.backends.Keys
    ensures AllInOrder(gw, Act(gw, g, a))
  {
    if OfRequest(a) {
      MovedInOrder(gw, g, a);
    }
  }

  // ---- Tickets and the limiter's log ----

  function AllowedReq(key: string, window: nat): Req -> bool {
    (r: Req) => r.ticket == Some(Ticket(key, window, L.Allow))
  }

  function FailedReq(key: string, window: nat): Req -> bool {
    (r: Req) => r.ticket == Some(Ticket(key, window, L.FailOpen))
  }

  /** The tickets of one key and window match the limiter's decisions for it. */
  ghost predicate TicketsMatch(g: System, key: string, window: nat) {
    && Count(g.reqs, AllowedReq(key, window)) == Count(g.limiter.log, L.AllowedIn(key, window))
    && Count(g.reqs, FailedReq(key, window)) == Count(g.limiter.log, L.FailedOpenIn(key, window))
  }

  lemma TicketUnchanged(gw: Setup, g: System, a: Action)
    requires Possible(gw, g, a) && OfRequest(a) && !(a.RateLimit? && gw.limiter.Some?)
    ensures Act(gw, g, a).reqs[a.id].ticket == g.reqs[a.id].ticket
    ensures Act(gw, g, a).limiter == g.limiter
  {
  }

  /** What a limiter step does to the log and to the request. */
  lemma RateLimitEffect(gw: Setup, g: System, a: Action) returns (hit: L.Hit)
    requires Possible(gw, g, a) && a.RateLimit? && gw.limiter.Some?
    ensures Act(gw, g, a).limiter.log == g.limiter.log + [hit]
    ensures Act(gw, g, a).reqs == g.reqs[a.id := Act(gw, g, a).reqs[a.id]]
    ensures Act(gw, g, a).reqs[a.id].ticket == Some(Ticket(hit.key, hit.window, hit.decision))
  {
    var cfg := gw.limiter.value;
    var d := L.DecisionAt(cfg, g.limiter, KeyOf(g.reqs[a.id]), a.stampedAt, a.outcome);
    hit := L.Hit(KeyOf(g.reqs[a.id]), L.WindowIndex(cfg, a.stampedAt), g.limiter.now / 1000, a.outcome, d);
  }

  lemma MatchOneMore(g: System, g1: System, id: nat, hit: L.Hit, key: string, window: nat)
    requires TicketsMatch(g, key, window) && id < |g.reqs| && g.reqs[id].ticket.None?
    requires |g1.reqs| == |g.reqs| && g1.reqs == g.reqs[id := g1.reqs[id]] && g1.limiter.log == g.limiter.log + [hit]
    requires g1.reqs[id].ticket == Some(Ticket(hit.key, hit.window, hit.decision))
    ensures TicketsMatch(g1, key, window)
  {
    CountAppend(g.limiter.log, hit, L.AllowedIn(key, window));
    CountAppend(g.limiter.log, hit, L.FailedOpenIn(key, window));
    CountUpdate(g.reqs, id, g1.reqs[id], AllowedReq(key, window));
    CountUpdate(g.reqs, id, g1.reqs[id], FailedReq(key, window));
  }

  lemma MatchSameTicket(g: System, g1: System, id: nat, key: string, window: nat)
    requires TicketsMatch(g, key, window) && id < |g.reqs| == |g1.reqs|
    requires g1.reqs == g.reqs[id := g1.reqs[id]] && g1.limiter.log == g.limiter.log
    requires g1.reqs[id].ticket == g.reqs[id].ticket
    ensures TicketsMatch(g1, key, window)
  {
    CountUpdate(g.reqs, id, g1.reqs[id], AllowedReq(key, window));
    CountUpdate(g.reqs, id, g1.reqs[id], FailedReq(key, window));
  }

  lemma TicketsKept(gw: Setup, g: System, a: Action, key: string, window: nat)
    requires AllInOrder(gw, g) && TicketsMatch(g, key, window) && Possible(gw, g, a)
    ensures TicketsMatch(Act(gw, g, a), key, window)
  {
    var g1 := Act(gw, g, a);
    if a.RateLimit? && gw.limiter.Some? {
      assert InOrder(gw, g.reqs[a.id]);
      var hit := RateLimitEffect(gw, g, a);
      MatchOneMore(g, g1, a.id, hit, key, window);
    } else if a.Arrive? {
      CountAppend(g.reqs, g1.reqs[|g.reqs|], AllowedReq(key, window));
      CountAppend(g.reqs, g1.reqs[|g.reqs|], FailedReq(key, window));
    } else if OfRequest(a) {
      TicketUnchanged(gw, g, a);
      MatchSameTicket(g, g1, a.id, key, window);
    }
  }

  lemma {:induction false} PipelineInvariant(gw: Setup, g: System, actions: seq<Action>, key: string, window: nat)
    requires Linked(gw, g) && AllInOrder(gw, g) && TicketsMatch(g, key, window) && IsHistory(gw, g, actions)
    ensures AllInOrder(gw, Play(gw, g, actions)) && TicketsMatch(Play(gw, g, actions), key, window)
    decreases |actions|
  {
    if actions != [] {
      LinkedKept(gw, g, actions[0]);
      OrderKept(gw, g, actions[0]);
      TicketsKept(gw, g, actions[0], key, window);
      PipelineInvariant(gw, Act(gw, g, actions[0]), actions[1..], key, window);
    }
  }

  // ---- Theorems over whole runs ----

  /** In every run every request keeps the pipeline's order: with the gate on, only verified
      requests go anywhere; a gateway 401 took no rate-limit budget; a 429 is
      given exactly for a refusal of the limiter, and a 404 exactly to a request past gate and limiter
      whose path names no backend; a 400 or 503 was admitted to routing and never sent; and exactly a
      502 or a proxied answer means a send, to the backend that the path names. */
  lemma PipelineOrder(gw: Setup, actions: seq<Action>)
    requires IsHistory(gw, Boot(gw), actions)
    ensures AllInOrder(gw, Play(gw, Boot(gw), actions))
  {
    BootLinked(gw);
    PipelineInvariant(gw, Boot(gw), actions, "", 0);
  }

  /** The subject of a request was read from its own header by the gate, at some earlier moment. */
  ghost predicate Authentic(gw: Setup, g: System, r: Req) {
    r.subject.Some? ==>
      gw.auth.Some? && exists t: nat :: t <= g.now / 1000 && T.CheckBearer(gw.auth.value, r.header, t) == r.subject
  }

  ghost predicate AllAuthentic(gw: Setup, g: System) {
    forall i :: 0 <= i < |g.reqs| ==> Authentic(gw, g, g.reqs[i])
  }

  lemma SubjectKept(gw: Setup, g: System, a: Action)
    requires Possible(gw, g, a) && OfRequest(a) && !a.Authenticate?
    ensures Act(gw, g, a).reqs[a.id].subject == g.reqs[a.id].subject
    ensures Act(gw, g, a).reqs[a.id].header == g.reqs[a.id].header
  {
  }

  lemma AuthenticKept(gw: Setup, g: System, a: Action)
    requires AllAuthentic(gw, g) && AllInOrder(gw, g) && Possible(gw, g, a)
    ensures AllAuthentic(gw, Act(gw, g, a))
  {
    var g1 := Act(gw, g, a);
    if OfRequest(a) {
      assert Authentic(gw, g, g.reqs[a.id]);
      if a.Authenticate? {
        assert InOrder(gw, g.reqs[a.id]);
        AuthenticateAuthentic(gw, g, a);
      } else {
        SubjectKept(gw, g, a);
      }
    }
    forall i | 0 <= i < |g1.reqs| && i < |g.reqs| && (OfRequest(a) ==> i != a.id)
      ensures Authentic(gw, g1, g1.reqs[i])
    {
      assert Authentic(gw, g, g.reqs[i]) && g1.reqs[i] == g.reqs[i];
    }
  }

  lemma AuthenticateAuthentic(gw: Setup, g: System, a: Action)
    requires Possible(gw, g, a) && a.Authenticate? && g.reqs[a.id].subject.None?
    ensures Authentic(gw, Act(gw, g, a), Act(gw, g, a).reqs[a.id])
  {
    var r1 := Act(gw, g, a).reqs[a.id];
    if r1.subject.Some? {
      assert T.CheckBearer(gw.auth.value, r1.header, g.now / 1000) == r1.subject;
    }
  }

  lemma {:induction false} AuthenticAlways(gw: Setup, g: System, actions: seq<Action>)
    requires Linked(gw, g) && AllInOrder(gw, g) && AllAuthentic(gw, g) && IsHistory(gw, g, actions)
    ensures AllAuthentic(gw, Play(gw, g, actions)) && AllInOrder(gw, Play(gw, g, actions))
    decreases |actions|
  {
    if actions != [] {
      LinkedKept(gw, g, actions[0]);
      OrderKept(gw, g, actions[0]);
      AuthenticKept(gw, g, actions[0]);
      AuthenticAlways(gw, Act(gw, g, actions[0]), actions[1..]);
    }
  }

  /** With the gate on, in every run, a request was sent to a backend only if its own header held
      a token that the gate accepted for its subject. */
  lemma NoSendWithoutToken(gw: Setup, actions: seq<Action>, i: nat)
    requires IsHistory(gw, Boot(gw), actions) && gw.auth.Some?
    requires i < |Play(gw, Boot(gw), actions).reqs|
    requires Play(gw, Boot(gw), actions).reqs[i].sentTo.Some?
    ensures var g := Play(gw, Boot(gw), actions);
            && g.reqs[i].subject.Some?
            && exists t: nat ::
                 t <= g.now / 1000 && T.CheckBearer(gw.auth.value, g.reqs[i].header, t) == g.reqs[i].subject
  {
    BootLinked(gw);
    AuthenticAlways(gw, Boot(gw), actions);
    var g := Play(gw, Boot(gw), actions);
    assert InOrder(gw, g.reqs[i]) && Authentic(gw, g, g.reqs[i]);
  }

  // ---- Whom the limiter and the breakers ever hear of ----

  function HasTicket(): Req -> bool {
    (r: Req) => r.ticket.Some?
  }

  /** Requests past the limiter that were put to p's breaker. */
  function AskedFor(gw: Setup, p: string): Req -> bool {
    (r: Req) => Vetted(gw, r) && Routed(gw, r, p) && !r.stage.Received? && !r.stage.Identified? && !r.stage.Cleared?
  }

  function IsAsk(): P.Event -> bool {
    (e: P.Event) => e.Admitted? || e.Refused?
  }

  ghost predicate HitsMatch(g: System) {
    |g.limiter.log| == Count(g.reqs, HasTicket())
  }

  ghost predicate AsksMatch(gw: Setup, g: System, p: string) {
    p in g.worlds && Count(g.worlds[p].log, IsAsk()) == Count(g.reqs, AskedFor(gw, p))
  }

  lemma HitsKept(gw: Setup, g: System, a: Action)
    requires AllInOrder(gw, g) && HitsMatch(g) && Possible(gw, g, a)
    ensures HitsMatch(Act(gw, g, a))
  {
    if a.Arrive? {
      CountAppend(g.reqs, Act(gw, g, a).reqs[|g.reqs|], HasTicket());
    } else if OfRequest(a) {
      assert InOrder(gw, g.reqs[a.id]);
      CountUpdate(g.reqs, a.id, Moved(gw, g, a), HasTicket());
      TicketTaken(gw, g, a);
    }
  }

  lemma TicketTaken(gw: Setup, g: System, a: Action)
    requires Possible(gw, g, a) && OfRequest(a)
    requires a.RateLimit? ==> g.reqs[a.id].ticket.None?
    ensures |LimiterAfter(gw, g, a).log| + Indicator(g.reqs[a.id].ticket.Some?) ==
            |g.limiter.log| + Indicator(Moved(gw, g, a).ticket.Some?)
  {
  }

  lemma AskStep(cfg: C.BreakerConfig, w: P.World, s: P.Step)
    requires P.Enabled(w, s)
    ensures Count(P.Next(cfg, w, s).log, IsAsk()) == Count(w.log, IsAsk()) + Indicator(s.TryAdmit?)
  {
    var log := P.Next(cfg, w, s).log;
    if !s.Tick? {
      assert log[..|w.log| + 1] == w.log + [log[|w.log|]];
      CountAppend(w.log, log[|w.log|], IsAsk());
      if |log| == |w.log| + 2 {
        assert log == log[..|w.log| + 1] + [log[|w.log| + 1]];
        CountAppend(log[..|w.log| + 1], log[|w.log| + 1], IsAsk());
      } else {
        assert log == log[..|w.log| + 1];
      }
    }
  }

  /** Only dispatch puts a request to a breaker. */
  lemma MovedAsks(gw: Setup, g: System, a: Action, p: string)
    requires Possible(gw, g, a) && OfRequest(a) && InOrder(gw, g.reqs[a.id]) && g.worlds.Keys == gw.backends.Keys
    requires p in g.worlds
    ensures AskedFor(gw, p)(Moved(gw, g, a)) <==>
            AskedFor(gw, p)(g.reqs[a.id]) || BreakerSteps(gw, g, a, p) == [P.TryAdmit]
    ensures AskedFor(gw, p)(g.reqs[a.id]) ==> !a.Dispatch?
  {
  }

  lemma AsksCounted(gw: Setup, g: System, a: Action, p: string)
    requires Possible(gw, g, a) && AllInOrder(gw, g) && g.worlds.Keys == gw.backends.Keys && p in g.worlds
    ensures Count(RequestsAfter(gw, g, a), AskedFor(gw, p)) ==
            Count(g.reqs, AskedFor(gw, p)) + Indicator(BreakerSteps(gw, g, a, p) == [P.TryAdmit])
  {
    if a.Arrive? {
      CountAppend(g.reqs, Req(a.header, a.path, None, None, None, Received), AskedFor(gw, p));
    } else if OfRequest(a) {
      assert InOrder(gw, g.reqs[a.id]);
      MovedAsks(gw, g, a, p);
      CountUpdate(g.reqs, a.id, Moved(gw, g, a), AskedFor(gw, p));
    }
  }

  lemma AsksKept(gw: Setup, g: System, a: Action, p: string)
    requires Linked(gw, g) && AllInOrder(gw, g) && AsksMatch(gw, g, p) && Possible(gw, g, a)
    ensures AsksMatch(gw, Act(gw, g, a), p)
  {
    var s := BreakerSteps(gw, g, a, p);
    BreakerSees(gw, g, a, p);
    if s != [] {
      AskStep(gw.breaker, g.worlds[p], s[0]);
    }
    AsksCounted(gw, g, a, p);
  }

  lemma {:induction false} MatchesAlways(gw: Setup, g: System, actions: seq<Action>, p: string)
    requires Linked(gw, g) && AllInOrder(gw, g) && HitsMatch(g) && AsksMatch(gw, g, p) && IsHistory(gw, g, actions)
    ensures HitsMatch(Play(gw, g, actions)) && AsksMatch(gw, Play(gw, g, actions), p)
    decreases |actions|
  {
    if actions != [] {
      LinkedKept(gw, g, actions[0]);
      OrderKept(gw, g, actions[0]);
      HitsKept(gw, g, actions[0]);
      AsksKept(gw, g, actions[0], p);
      MatchesAlways(gw, Act(gw, g, actions[0]), actions[1..], p);
    }
  }

  /** In every run the limiter's hits are exactly the requests with a ticket, and the admissions and
      refusals of p's breaker are exactly the requests put to it; a 401 is none of either and a 429
      is none of the latter. */
  lemma RejectedAreUncounted(gw: Setup, actions: seq<Action>, p: string)
    requires IsHistory(gw, Boot(gw), actions) && p in gw.backends
    ensures var g := Play(gw, Boot(gw), actions);
            && HitsMatch(g) && AsksMatch(gw, g, p)
            && forall i :: 0 <= i < |g.reqs| ==>
                 && (g.reqs[i].stage == Done(Response(401, false)) ==>
                       !HasTicket()(g.reqs[i]) && !AskedFor(gw, p)(g.reqs[i]))
                 && (g.reqs[i].stage == Done(Response(429, false)) ==> !AskedFor(gw, p)(g.reqs[i]))
  {
    var g := Play(gw, Boot(gw), actions);
    BootLinked(gw);
    MatchesAlways(gw, Boot(gw), actions, p);
    PipelineOrder(gw, actions);
    forall i | 0 <= i < |g.reqs|
      ensures g.reqs[i].stage == Done(Response(401, false)) ==>
                !HasTicket()(g.reqs[i]) && !AskedFor(gw, p)(g.reqs[i])
      ensures g.reqs[i].stage == Done(Response(429, false)) ==> !AskedFor(gw, p)(g.reqs[i])
    {
      assert InOrder(gw, g.reqs[i]);
    }
  }

  /** Requests of one client sent to a backend on a decision of one window. */
  function SentBy(subject: Option<string>, window: nat): Req -> bool {
    (r: Req) => r.sentTo.Some? && r.subject == subject && r.ticket.Some? && r.ticket.value.window == window
  }

  function FailedOpenBy(subject: Option<string>, window: nat): Req -> bool {
    (r: Req) => r.subject == subject && r.ticket.Some? && r.ticket.value.window == window
                && r.ticket.value.decision == L.FailOpen
  }

  /** In every gateway run, each client is sent to backends at most `limit` times a window, over
      all backends together, plus the times the limiter failed open for it. Clients without a
      subject are one client. */
  lemma ComposedQuota(gw: Setup, actions: seq<Action>, subject: Option<string>, window: nat)
    requires IsHistory(gw, Boot(gw), actions) && gw.limiter.Some?
    ensures var g := Play(gw, Boot(gw), actions);
            Count(g.reqs, SentBy(subject, window)) <=
              gw.limiter.value.limit + Count(g.reqs, FailedOpenBy(subject, window))
  {
    var g := Play(gw, Boot(gw), actions);
    var cfg := gw.limiter.value;
    var key := LimitKey(subject, "unkeyed");
    BootLinked(gw);
    PipelineInvariant(gw, Boot(gw), actions, key, window);
    LimiterProjection(gw, Boot(gw), actions, cfg);
    L.LimiterInvariant(cfg, L.START, LimiterRun(gw, Boot(gw), actions));
    L.AllowsPerWindow(cfg, g.limiter.log, key, window);
    SentIsAllowedOrFailed(gw, g, subject, window);
  }

  lemma SentIsAllowedOrFailed(gw: Setup, g: System, subject: Option<string>, window: nat)
    requires AllInOrder(gw, g) && gw.limiter.Some?
    ensures Count(g.reqs, SentBy(subject, window)) <=
            Count(g.reqs, AllowedReq(LimitKey(subject, "unkeyed"), window)) + Count(g.reqs, FailedOpenBy(subject, window))
  {
    var key := LimitKey(subject, "unkeyed");
    forall i | 0 <= i < |g.reqs| && SentBy(subject, window)(g.reqs[i])
      ensures AllowedReq(key, window)(g.reqs[i]) || FailedOpenBy(subject, window)(g.reqs[i])
    {
      assert InOrder(gw, g.reqs[i]);
    }
    CountCover(g.reqs, SentBy(subject, window), AllowedReq(key, window), FailedOpenBy(subject, window));
  }
}
