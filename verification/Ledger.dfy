/** The metrics of a gateway, read against the responses it gave. */
module Ledger {
  import opened Counting
  import opened Gateway
  import opened Components
  import opened Pipeline
  import opened Routing
  import M = Metrics

  /** Requests answered after a send to prefix p: its 502s and its proxied responses. */
  function AnsweredFor(p: string): Req -> bool {
    (r: Req) => r.stage.Done? && r.sentTo == Some(p)
  }

  function FinishingFor(p: string): Req -> bool {
    (r: Req) => r.stage.Finishing? && r.stage.prefix == p
  }

  function RateLimitedReq(): Req -> bool {
    (r: Req) => r.stage == Done(Response(429, false))
  }

  /** Requests refused with a 429 that is counted under the label. */
  function LimitedAs(tag: string): Req -> bool {
    (r: Req) => r.stage == Done(Response(429, false)) && LimitedLabel(r.path) == tag
  }

  function ShortCircuitedFor(p: string): Req -> bool {
    (r: Req) => r.stage == Done(Response(503, false)) && ParsePath(r.path).0 == p
  }

  /** Each group of requests has as many entries in the registry's bookkeeping. */
  ghost predicate Tallied(g: System, p: string) {
    && Count(g.reqs, AnsweredFor(p)) == Count(g.board.finishers, M.Finished(p))
    && Count(g.reqs, FinishingFor(p)) == Count(g.board.finishers, M.InProgress(p))
    && Count(g.reqs, RateLimitedReq()) == |g.board.limited|
    && Count(g.reqs, LimitedAs(p)) == Count(g.board.limited, M.Is(p))
    && Count(g.reqs, ShortCircuitedFor(p)) == Count(g.board.shorted, M.Is(p))
  }

  /** The groups a request belongs to, as a change of one request moves the counts. */
  lemma Regroup(g: System, g1: System, id: nat, p: string)
    requires id < |g.reqs| == |g1.reqs| && g1.reqs == g.reqs[id := g1.reqs[id]]
    ensures Count(g1.reqs, AnsweredFor(p)) + Indicator(AnsweredFor(p)(g.reqs[id])) ==
            Count(g.reqs, AnsweredFor(p)) + Indicator(AnsweredFor(p)(g1.reqs[id]))
    ensures Count(g1.reqs, FinishingFor(p)) + Indicator(FinishingFor(p)(g.reqs[id])) ==
            Count(g.reqs, FinishingFor(p)) + Indicator(FinishingFor(p)(g1.reqs[id]))
    ensures Count(g1.reqs, RateLimitedReq()) + Indicator(RateLimitedReq()(g.reqs[id])) ==
            Count(g.reqs, RateLimitedReq()) + Indicator(RateLimitedReq()(g1.reqs[id]))
    ensures Count(g1.reqs, LimitedAs(p)) + Indicator(LimitedAs(p)(g.reqs[id])) ==
            Count(g.reqs, LimitedAs(p)) + Indicator(LimitedAs(p)(g1.reqs[id]))
    ensures Count(g1.reqs, ShortCircuitedFor(p)) + Indicator(ShortCircuitedFor(p)(g.reqs[id])) ==
            Count(g.reqs, ShortCircuitedFor(p)) + Indicator(ShortCircuitedFor(p)(g1.reqs[id]))
  {
    CountUpdate(g.reqs, id, g1.reqs[id], AnsweredFor(p));
    CountUpdate(g.reqs, id, g1.reqs[id], FinishingFor(p));
    CountUpdate(g.reqs, id, g1.reqs[id], RateLimitedReq());
    CountUpdate(g.reqs, id, g1.reqs[id], LimitedAs(p));
    CountUpdate(g.reqs, id, g1.reqs[id], ShortCircuitedFor(p));
  }

  /** In no group. */
  predicate Ungrouped(r: Req, p: string) {
    !AnsweredFor(p)(r) && !FinishingFor(p)(r) && !RateLimitedReq()(r) && !LimitedAs(p)(r)
    && !ShortCircuitedFor(p)(r)
  }

  lemma QuietUngrouped(gw: Setup, g: System, a: Action, p: string)
    requires a.Authenticate? || a.RateLimit? || a.Dispatch? || a.BodyFails? || a.SendOut?
    requires Possible(gw, g, a) && InOrder(gw, g.reqs[a.id])
    ensures Ungrouped(g.reqs[a.id], p) && Ungrouped(Moved(gw, g, a), p)
  {
  }

  lemma QuietTallied(g: System, g1: System, id: nat, p: string)
    requires Tallied(g, p) && id < |g.reqs| == |g1.reqs| && g1.reqs == g.reqs[id := g1.reqs[id]]
    requires g1.board == g.board && Ungrouped(g.reqs[id], p) && Ungrouped(g1.reqs[id], p)
    ensures Tallied(g1, p)
  {
    Regroup(g, g1, id, p);
  }

  lemma QuietKeepsTally(gw: Setup, g: System, a: Action, p: string)
    requires Tallied(g, p) && Possible(gw, g, a) && AllInOrder(gw, g)
    requires a.Authenticate? || a.RateLimit? || a.Dispatch? || a.BodyFails? || a.SendOut?
    ensures Tallied(Act(gw, g, a), p)
  {
    assert InOrder(gw, g.reqs[a.id]);
    QuietUngrouped(gw, g, a, p);
    QuietTallied(g, Act(gw, g, a), a.id, p);
  }

  lemma LimitedTallied(g: System, g1: System, id: nat, p: string, tag: string)
    requires Tallied(g, p) && id < |g.reqs| == |g1.reqs| && g1.reqs == g.reqs[id := g1.reqs[id]]
    requires Ungrouped(g.reqs[id], p) && g1.reqs[id].sentTo.None?
    requires g1.reqs[id].stage == Done(Response(429, false)) && LimitedLabel(g1.reqs[id].path) == tag
    requires g1.board.finishers == g.board.finishers
    requires g1.board.limited == g.board.limited + [tag] && g1.board.shorted == g.board.shorted
    ensures Tallied(g1, p)
  {
    Regroup(g, g1, id, p);
    CountAppend(g.board.limited, tag, M.Is(p));
  }

  lemma ShortCircuitTallied(g: System, g1: System, id: nat, p: string, q: string)
    requires Tallied(g, p) && id < |g.reqs| == |g1.reqs| && g1.reqs == g.reqs[id := g1.reqs[id]]
    requires Ungrouped(g.reqs[id], p) && g1.reqs[id].sentTo.None?
    requires g1.reqs[id].stage == Done(Response(503, false)) && ParsePath(g1.reqs[id].path).0 == q
    requires g1.board.finishers == g.board.finishers
    requires g1.board.shorted == g.board.shorted + [q] && g1.board.limited == g.board.limited
    ensures Tallied(g1, p)
  {
    Regroup(g, g1, id, p);
    CountAppend(g.board.shorted, q, M.Is(p));
  }

  lemma RejectKeepsTally(gw: Setup, g: System, a: Action, p: string)
    requires Tallied(g, p) && Possible(gw, g, a) && AllInOrder(gw, g) && a.CountRejection?
    ensures Tallied(Act(gw, g, a), p)
  {
    var r := g.reqs[a.id];
    assert InOrder(gw, r);
    if r.stage.OverLimit? {
      LimitedTallied(g, Act(gw, g, a), a.id, p, r.stage.tag);
    } else {
      ShortCircuitTallied(g, Act(gw, g, a), a.id, p, r.stage.prefix);
    }
  }

  lemma ReplyEffect(gw: Setup, g: System, a: Action)
    requires Possible(gw, g, a) && a.Reply?
    ensures Act(gw, g, a).board ==
            g.board.(finishers :=
              g.board.finishers + [M.Finisher(g.reqs[a.id].stage.prefix, Some(StatusClass(a.status)), a.nanos, 0)])
    ensures Act(gw, g, a).reqs[a.id].stage.Finishing?
    ensures Act(gw, g, a).reqs[a.id].stage.prefix == g.reqs[a.id].stage.prefix
  {
  }

  lemma ReplyKeepsTally(gw: Setup, g: System, a: Action, p: string)
    requires Tallied(g, p) && Possible(gw, g, a) && a.Reply?
    ensures Tallied(Act(gw, g, a), p)
  {
    var f := M.Finisher(g.reqs[a.id].stage.prefix, Some(StatusClass(a.status)), a.nanos, 0);
    ReplyEffect(gw, g, a);
    Regroup(g, Act(gw, g, a), a.id, p);
    CountAppend(g.board.finishers, f, M.Finished(p));
    CountAppend(g.board.finishers, f, M.InProgress(p));
  }

  /** The last increment turns a finishing request into an answered one. */
  lemma FinishEffect(gw: Setup, g: System, a: Action)
    requires Possible(gw, g, a) && a.FinishStep? && FinishersLinked(g) && InOrder(gw, g.reqs[a.id])
    ensures var k := g.reqs[a.id].stage.finisher;
            var r, r1 := g.reqs[a.id], Act(gw, g, a).reqs[a.id];
            && k < |g.board.finishers|
            && var f := g.board.finishers[k];
               && f.pc < M.DONE && f.prefix == r.stage.prefix && r.sentTo == Some(f.prefix)
               && Act(gw, g, a).board.finishers == g.board.finishers[k := f.(pc := f.pc + 1)]
               && Act(gw, g, a).board.limited == g.board.limited && Act(gw, g, a).board.shorted == g.board.shorted
               && r1 == (if f.pc + 1 == M.DONE then r.(stage := Done(r.stage.response)) else r)
               && (r.stage.response.proxied || r.stage.response.status == 502)
  {
    assert FinisherLinked(g, g.reqs[a.id]);
  }

  lemma FinishKeepsTally(gw: Setup, g: System, a: Action, p: string)
    requires Tallied(g, p) && Possible(gw, g, a) && a.FinishStep? && FinishersLinked(g) && AllInOrder(gw, g)
    ensures Tallied(Act(gw, g, a), p)
  {
    assert InOrder(gw, g.reqs[a.id]);
    FinishEffect(gw, g, a);
    FinishTallied(g, Act(gw, g, a), a.id, g.reqs[a.id].stage.finisher, p);
  }

  lemma FinishTallied(g: System, g1: System, id: nat, k: nat, p: string)
    requires Tallied(g, p) && id < |g.reqs| == |g1.reqs| && g1.reqs == g.reqs[id := g1.reqs[id]]
    requires k < |g.board.finishers| && g.board.finishers[k].pc < M.DONE
    requires g.reqs[id].stage.Finishing? && g.reqs[id].stage.prefix == g.board.finishers[k].prefix
    requires g.reqs[id].sentTo == g1.reqs[id].sentTo == Some(g.board.finishers[k].prefix)
    requires var f := g.board.finishers[k]; g1.board.finishers == g.board.finishers[k := f.(pc := f.pc + 1)]
    requires g1.board.limited == g.board.limited && g1.board.shorted == g.board.shorted
    requires if g.board.finishers[k].pc + 1 == M.DONE
             then && g1.reqs[id].stage.Done?
                  && (g1.reqs[id].stage.response.proxied || g1.reqs[id].stage.response.status == 502)
             else g1.reqs[id] == g.reqs[id]
    ensures Tallied(g1, p)
  {
    var f := g.board.finishers[k];
    assert !RateLimitedReq()(g1.reqs[id]) && !ShortCircuitedFor(p)(g1.reqs[id]);
    Regroup(g, g1, id, p);
    CountUpdate(g.board.finishers, k, f.(pc := f.pc + 1), M.Finished(p));
    CountUpdate(g.board.finishers, k, f.(pc := f.pc + 1), M.InProgress(p));
  }

  lemma ArriveKeepsTally(gw: Setup, g: System, a: Action, p: string)
    requires Tallied(g, p) && a.Arrive?
    ensures Tallied(Act(gw, g, a), p)
  {
    var r := Req(a.header, a.path, None, None, None, Received);
    CountAppend(g.reqs, r, AnsweredFor(p));
    CountAppend(g.reqs, r, FinishingFor(p));
    CountAppend(g.reqs, r, RateLimitedReq());
    CountAppend(g.reqs, r, LimitedAs(p));
    CountAppend(g.reqs, r, ShortCircuitedFor(p));
  }

  lemma TallyKept(gw: Setup, g: System, a: Action, p: string)
    requires Tallied(g, p) && Possible(gw, g, a) && FinishersLinked(g) && AllInOrder(gw, g)
    ensures Tallied(Act(gw, g, a), p)
  {
    match a
    case Elapse(_) =>
    case Arrive(_, _) => ArriveKeepsTally(gw, g, a, p);
    case CountRejection(_) => RejectKeepsTally(gw, g, a, p);
    case Reply(_, _, _) => ReplyKeepsTally(gw, g, a, p);
    case FinishStep(_) => FinishKeepsTally(gw, g, a, p);
    case _ => QuietKeepsTally(gw, g, a, p);
  }

  lemma ClassedKept(gw: Setup, g: System, a: Action)
    requires M.AllClassed(g.board) && Possible(gw, g, a) && FinishersLinked(g) && AllInOrder(gw, g)
    ensures M.AllClassed(Act(gw, g, a).board)
  {
    if a.Reply? {
      ReplyEffect(gw, g, a);
    } else if a.FinishStep? {
      assert InOrder(gw, g.reqs[a.id]);
      FinishEffect(gw, g, a);
    }
  }

  lemma {:induction false} TallyAlways(gw: Setup, g: System, actions: seq<Action>, p: string)
    requires Linked(gw, g) && AllInOrder(gw, g) && Tallied(g, p) && M.AllClassed(g.board)
    requires IsHistory(gw, g, actions)
    ensures Tallied(Play(gw, g, actions), p) && M.AllClassed(Play(gw, g, actions).board)
    decreases |actions|
  {
    if actions != [] {
      LinkedKept(gw, g, actions[0]);
      OrderKept(gw, g, actions[0]);
      TallyKept(gw, g, actions[0], p);
      ClassedKept(gw, g, actions[0]);
      TallyAlways(gw, Act(gw, g, actions[0]), actions[1..], p);
    }
  }

  /** The registry of a gateway run at any moment: the prefix's requests_total, status classes and
      histogram count lie between the responses given after a send and those plus the ones being
      finished; with none being finished all three are exactly the 502s plus the proxied responses. */
  ghost predicate Accounted(g: System, p: string) {
    var requests := M.CountersOf(g.board.reg, p).requestsTotal;
    var classes := M.ClassSum(g.board.reg, p, 10);
    var observed := M.HistogramOf(g.board.reg, p).count;
    var answered, finishing := Count(g.reqs, AnsweredFor(p)), Count(g.reqs, FinishingFor(p));
    && answered + finishing >= requests >= classes >= observed >= answered
    && (finishing == 0 ==> requests == classes == observed == answered)
  }

  lemma GatewayMetrics(gw: Setup, actions: seq<Action>, p: string, tags: seq<string>)
    requires IsHistory(gw, Boot(gw), actions)
    ensures Accounted(Play(gw, Boot(gw), actions), p)
    ensures var g := Play(gw, Boot(gw), actions);
            && M.CountersOf(g.board.reg, p).circuitOpenTotal == Count(g.reqs, ShortCircuitedFor(p))
            && M.CountersOf(g.board.reg, p).rateLimitedTotal == Count(g.reqs, LimitedAs(p))
            && (M.Distinct(tags) && (forall l <- g.board.reg.perPrefix :: l in tags) ==>
                  M.LimitedTotal(g.board.reg, tags) == Count(g.reqs, RateLimitedReq()))
  {
    var g := Play(gw, Boot(gw), actions);
    BootLinked(gw);
    TallyAlways(gw, Boot(gw), actions, p);
    BoardProjection(gw, Boot(gw), actions);
    M.BlankOk();
    M.BoardInvariant(M.BLANK, BoardRun(gw, Boot(gw), actions));
    Settle(g, p, tags);
  }

  lemma Settle(g: System, p: string, tags: seq<string>)
    requires M.BoardOk(g.board) && M.AllClassed(g.board) && Tallied(g, p)
    ensures Accounted(g, p)
    ensures M.CountersOf(g.board.reg, p).circuitOpenTotal == Count(g.reqs, ShortCircuitedFor(p))
    ensures M.CountersOf(g.board.reg, p).rateLimitedTotal == Count(g.reqs, LimitedAs(p))
    ensures M.Distinct(tags) && (forall l <- g.board.reg.perPrefix :: l in tags) ==>
              M.LimitedTotal(g.board.reg, tags) == Count(g.reqs, RateLimitedReq())
  {
    M.MetricsAccounting(g.board, p);
    CountZero(g.board.finishers, M.Unclassed(p));
    assert M.CountersOf(g.board.reg, p).circuitOpenTotal == Count(g.board.shorted, M.Is(p));
    if M.Distinct(tags) && forall l <- g.board.reg.perPrefix :: l in tags {
      M.RejectionsAddUp(g.board, tags, p);
    }
  }
}
