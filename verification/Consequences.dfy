/** The component theorems as a client of the whole gateway meets them. */
module Consequences {
  import opened Counting
  import opened Gateway
  import opened Components
  import opened Routing
  import C = Circuit
  import P = Protocol
  import M = Metrics
  import Progress
  import Pipeline
  import Ledger
  import Outage

  // ---- A dead backend ----

  /** Requests sent to prefix p. */
  function SentTo(p: string): Req -> bool {
    (r: Req) => r.sentTo == Some(p)
  }

  /** Along the run, every reply of p's backend is a transport failure and at most k of its calls
      are admitted and unresolved at once. */
  ghost predicate DeadBackend(gw: Setup, g: System, actions: seq<Action>, p: string, k: nat)
    requires IsHistory(gw, g, actions)
    decreases |actions|
  {
    && p in g.worlds && Count(g.worlds[p].calls, Progress.IsLive()) <= k
    && (actions == [] ||
        (&& (actions[0].Reply? && g.reqs[actions[0].id].stage.prefix == p ==> actions[0].status.None?)
         && DeadBackend(gw, Act(gw, g, actions[0]), actions[1..], p, k)))
  }

  lemma {:induction false} DeadProjection(gw: Setup, g: System, actions: seq<Action>, p: string, k: nat)
    requires Linked(gw, g) && IsHistory(gw, g, actions) && DeadBackend(gw, g, actions, p, k)
    ensures P.IsRun(gw.breaker, g.worlds[p], BreakerRun(gw, g, actions, p))
    ensures Outage.EveryReportFails(BreakerRun(gw, g, actions, p))
    ensures Outage.AtMostInFlight(gw.breaker, g.worlds[p], BreakerRun(gw, g, actions, p), k)
    decreases |actions|
  {
    BreakerIndependence(gw, g, actions, p);
    if actions != [] {
      var a := actions[0];
      LinkedKept(gw, g, a);
      BreakerSees(gw, g, a, p);
      DeadProjection(gw, Act(gw, g, a), actions[1..], p, k);
      ConsDead(gw.breaker, g.worlds[p], BreakerSteps(gw, g, a, p),
               BreakerRun(gw, Act(gw, g, a), actions[1..], p), Act(gw, g, a).worlds[p], k);
    }
  }

  lemma {:induction false} ConsDead(
    cfg: C.BreakerConfig, w: P.World, s: seq<P.Step>, t: seq<P.Step>, v: P.World, k: nat)
    requires if s == [] then v == w else |s| == 1 && P.Enabled(w, s[0]) && v == P.Next(cfg, w, s[0])
    requires s != [] && s[0].Report? ==> !s[0].ok
    requires Count(w.calls, Progress.IsLive()) <= k
    requires P.IsRun(cfg, v, t) && Outage.EveryReportFails(t) && Outage.AtMostInFlight(cfg, v, t, k)
    ensures P.IsRun(cfg, w, s + t) && Outage.EveryReportFails(s + t) && Outage.AtMostInFlight(cfg, w, s + t, k)
  {
    ConsBreaker(cfg, w, s, t, v);
    if s == [] {
      assert s + t == t;
    } else {
      assert (s + t)[1..] == t;
    }
  }

  /** The Send steps of p's breaker are the requests sent to p. */
  lemma OneSend(gw: Setup, g: System, a: Action, p: string)
    requires Possible(gw, g, a) && (a.SendOut? ==> g.reqs[a.id].sentTo.None?)
    ensures Count(Act(gw, g, a).reqs, SentTo(p)) ==
            Count(g.reqs, SentTo(p)) + Count(BreakerSteps(gw, g, a, p), Outage.IsSend())
  {
    var g1 := Act(gw, g, a);
    if a.Arrive? {
      CountAppend(g.reqs, g1.reqs[|g.reqs|], SentTo(p));
    } else if OfRequest(a) {
      SentUnchanged(gw, g, a);
      CountUpdate(g.reqs, a.id, g1.reqs[a.id], SentTo(p));
    }
    SendSteps(gw, g, a, p);
  }

  lemma SendSteps(gw: Setup, g: System, a: Action, p: string)
    requires Possible(gw, g, a)
    ensures Count(BreakerSteps(gw, g, a, p), Outage.IsSend()) ==
            Indicator(a.SendOut? && g.reqs[a.id].stage.prefix == p)
  {
    SendStepShape(gw, g, a, p);
    CountShort(BreakerSteps(gw, g, a, p), Outage.IsSend());
  }

  lemma SendStepShape(gw: Setup, g: System, a: Action, p: string)
    requires Possible(gw, g, a)
    ensures var s := BreakerSteps(gw, g, a, p);
            && |s| <= 1
            && (|s| == 1 && s[0].Send? <==> a.SendOut? && g.reqs[a.id].stage.prefix == p)
  {
  }

  lemma SentUnchanged(gw: Setup, g: System, a: Action)
    requires Possible(gw, g, a) && OfRequest(a)
    ensures Act(gw, g, a).reqs[a.id].sentTo ==
            if a.SendOut? then Some(g.reqs[a.id].stage.prefix) else g.reqs[a.id].sentTo
  {
  }

  lemma {:induction false} SendsCounted(gw: Setup, g: System, actions: seq<Action>, p: string)
    requires Linked(gw, g) && Pipeline.AllInOrder(gw, g) && IsHistory(gw, g, actions)
    ensures Count(Play(gw, g, actions).reqs, SentTo(p)) ==
            Count(g.reqs, SentTo(p)) + Count(BreakerRun(gw, g, actions, p), Outage.IsSend())
    decreases |actions|
  {
    if actions != [] {
      var a := actions[0];
      if a.SendOut? {
        assert Pipeline.InOrder(gw, g.reqs[a.id]);
      }
      OneSend(gw, g, a, p);
      LinkedKept(gw, g, a);
      Pipeline.OrderKept(gw, g, a);
      SendsCounted(gw, Act(gw, g, a), actions[1..], p);
      CountConcat(BreakerSteps(gw, g, a, p), BreakerRun(gw, Act(gw, g, a), actions[1..], p), Outage.IsSend());
    }
  }

  /** From any reachable gateway state in which p's breaker is Closed, while p's backend is dead
      and at most k of its calls are unresolved at once, at most Trip + k - 1 requests, plus one
      per cooldown elapsed, are sent to it, whatever clients and other backends do. */
  lemma GatewayOutage(gw: Setup, before: seq<Action>, actions: seq<Action>, p: string, k: nat)
    requires IsHistory(gw, Boot(gw), before) && gw.breaker.cooldown > 0 && p in gw.backends
    requires IsHistory(gw, Play(gw, Boot(gw), before), actions)
    requires var g := Play(gw, Boot(gw), before);
             DeadBackend(gw, g, actions, p, k) && g.worlds[p].breaker.state == C.Closed
    ensures var g := Play(gw, Boot(gw), before);
            var h := Play(gw, g, actions);
            Count(h.reqs, SentTo(p)) - Count(g.reqs, SentTo(p)) <=
              C.Trip(gw.breaker) + k - 1 + (h.now - g.now) / gw.breaker.cooldown
  {
    Invariants(gw, before, p);
    OutageWithin(gw, Play(gw, Boot(gw), before), actions, p, k);
  }

  /** What holds of every reachable state. */
  lemma Invariants(gw: Setup, before: seq<Action>, p: string)
    requires IsHistory(gw, Boot(gw), before) && p in gw.backends
    ensures var g := Play(gw, Boot(gw), before);
            Linked(gw, g) && Pipeline.AllInOrder(gw, g) && p in g.worlds && P.Inv(gw.breaker, g.worlds[p])
  {
    BootLinked(gw);
    LinkedAlways(gw, Boot(gw), before);
    BreakerIndependence(gw, Boot(gw), before, p);
    P.InvExec(gw.breaker, P.INIT, BreakerRun(gw, Boot(gw), before, p));
    Pipeline.PipelineOrder(gw, before);
  }

  lemma OutageWithin(gw: Setup, g: System, actions: seq<Action>, p: string, k: nat)
    requires Linked(gw, g) && Pipeline.AllInOrder(gw, g) && gw.breaker.cooldown > 0
    requires IsHistory(gw, g, actions) && DeadBackend(gw, g, actions, p, k)
    requires P.Inv(gw.breaker, g.worlds[p]) && g.worlds[p].breaker.state == C.Closed
    ensures var h := Play(gw, g, actions);
            Count(h.reqs, SentTo(p)) - Count(g.reqs, SentTo(p)) <=
              C.Trip(gw.breaker) + k - 1 + (h.now - g.now) / gw.breaker.cooldown
  {
    DeadProjection(gw, g, actions, p, k);
    BreakerIndependence(gw, g, actions, p);
    LinkedAlways(gw, g, actions);
    SendsCounted(gw, g, actions, p);
    Outage.OutageFrom(gw.breaker, g.worlds[p], BreakerRun(gw, g, actions, p), k);
  }

  // ---- A lost probe ----

  /** Once p's breaker is half-open with no call in flight, no action of any client ever changes
      it again: every later request to p is short-circuited, for good. */
  lemma GatewayWedge(gw: Setup, g: System, actions: seq<Action>, p: string, id: nat)
    requires Linked(gw, g) && IsHistory(gw, g, actions) && p in gw.backends && p in g.worlds && p != []
    requires g.worlds[p].breaker.state == C.HalfOpen && Progress.NothingInFlight(g.worlds[p])
    ensures var h := Play(gw, g, actions);
            && p in h.worlds && h.worlds[p].breaker == g.worlds[p].breaker
            && (Possible(gw, h, Dispatch(id)) && ParsePath(h.reqs[id].path).0 == p ==>
                  Act(gw, h, Dispatch(id)).reqs[id].stage == ShortCircuited(p))
  {
    BreakerIndependence(gw, g, actions, p);
    Progress.WedgedForever(gw.breaker, g.worlds[p], BreakerRun(gw, g, actions, p));
  }

  // ---- Labels ----

  /** The requests behind every label of a registry. */
  lemma LabelSources(gw: Setup, g: System, tag: string)
    requires Pipeline.AllInOrder(gw, g) && Ledger.Tallied(g, tag) && M.BoardOk(g.board) && M.LabelsOk(g.board)
    ensures Count(g.reqs, Ledger.LimitedAs(tag)) > 0 ==> tag in g.board.reg.perPrefix
    ensures tag in g.board.reg.perPrefix ==> tag in gw.backends || Count(g.reqs, Ledger.LimitedAs(tag)) > 0
  {
    var b := g.board;
    if Count(g.reqs, Ledger.LimitedAs(tag)) > 0 {
      var i := CountWitness(b.limited, M.Is(tag));
    }
    if tag in b.limited {
      var i :| 0 <= i < |b.limited| && b.limited[i] == tag;
      CountPositive(b.limited, i, M.Is(tag));
    } else if tag in b.shorted {
      var i :| 0 <= i < |b.shorted| && b.shorted[i] == tag;
      CountPositive(b.shorted, i, M.Is(tag));
      var j := CountWitness(g.reqs, Ledger.ShortCircuitedFor(tag));
      assert Pipeline.InOrder(gw, g.reqs[j]);
    } else if tag in b.reg.perPrefix {
      CountCover(b.finishers, M.Past(tag, 1), M.Finished(tag), M.InProgress(tag));
      CountedHasRoute(gw, g, tag);
    }
  }

  lemma CountedHasRoute(gw: Setup, g: System, p: string)
    requires Pipeline.AllInOrder(gw, g)
    requires Count(g.reqs, Ledger.AnsweredFor(p)) + Count(g.reqs, Ledger.FinishingFor(p)) > 0
    ensures p in gw.backends
  {
    if Count(g.reqs, Ledger.AnsweredFor(p)) > 0 {
      var j := CountWitness(g.reqs, Ledger.AnsweredFor(p));
      assert Pipeline.InOrder(gw, g.reqs[j]);
    } else {
      var j := CountWitness(g.reqs, Ledger.FinishingFor(p));
      assert Pipeline.InOrder(gw, g.reqs[j]);
    }
  }

  /** Every 429 so far was given for a path whose 429 label is a configured prefix. */
  ghost predicate LimitedInTable(gw: Setup, g: System) {
    forall i :: 0 <= i < |g.reqs| && g.reqs[i].stage == Done(Response(429, false)) ==>
      LimitedLabel(g.reqs[i].path) in gw.backends
  }

  /** In every run the counter labels are within the route table exactly when every request that
      was refused with 429 had a path whose first segment, followed by a slash, is a configured
      prefix. */
  lemma LabelsBoundedExactly(gw: Setup, actions: seq<Action>)
    requires IsHistory(gw, Boot(gw), actions)
    ensures var g := Play(gw, Boot(gw), actions);
            g.board.reg.perPrefix.Keys <= gw.backends.Keys <==> LimitedInTable(gw, g)
  {
    var g := Play(gw, Boot(gw), actions);
    BootLinked(gw);
    Pipeline.PipelineOrder(gw, actions);
    BoardProjection(gw, Boot(gw), actions);
    M.BlankOk();
    M.BoardInvariant(M.BLANK, BoardRun(gw, Boot(gw), actions));
    M.LabelsInvariant(M.BLANK, BoardRun(gw, Boot(gw), actions));
    forall tag ensures Ledger.Tallied(g, tag) {
      Ledger.TallyAlways(gw, Boot(gw), actions, tag);
    }
    LabelsSettle(gw, g);
  }

  lemma LabelsSettle(gw: Setup, g: System)
    requires Pipeline.AllInOrder(gw, g) && M.BoardOk(g.board) && M.LabelsOk(g.board)
    requires forall tag :: Ledger.Tallied(g, tag)
    ensures g.board.reg.perPrefix.Keys <= gw.backends.Keys <==> LimitedInTable(gw, g)
  {
    var labels := g.board.reg.perPrefix.Keys;
    if labels <= gw.backends.Keys {
      forall i | 0 <= i < |g.reqs| && g.reqs[i].stage == Done(Response(429, false))
        ensures LimitedLabel(g.reqs[i].path) in gw.backends
      {
        var tag := LimitedLabel(g.reqs[i].path);
        CountPositive(g.reqs, i, Ledger.LimitedAs(tag));
        LabelSources(gw, g, tag);
      }
    }
    if LimitedInTable(gw, g) {
      forall tag | tag in labels ensures tag in gw.backends {
        LabelSources(gw, g, tag);
        if Count(g.reqs, Ledger.LimitedAs(tag)) > 0 {
          var i := CountWitness(g.reqs, Ledger.LimitedAs(tag));
        }
      }
    }
  }
}
