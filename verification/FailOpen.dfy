/** A dead Redis never costs a request: a gateway whose every counter operation fails behaves as
    a gateway built without a limiter. */
module FailOpen {
  import opened Counting
  import opened Gateway
  import L = Limiter

  ghost predicate RedisNeverAnswers(actions: seq<Action>) {
    forall i :: 0 <= i < |actions| && actions[i].RateLimit? ==> actions[i].outcome != L.Replied
  }

  function Unlimited(gw: Setup): Setup {
    gw.(limiter := None)
  }

  predicate SameReq(r: Req, s: Req) {
    r.(ticket := None) == s.(ticket := None)
  }

  /** Same clock, breakers and metrics, and requests that differ at most in their tickets. */
  ghost predicate Alike(g: System, h: System) {
    && g.now == h.now && g.worlds == h.worlds && g.board == h.board && |g.reqs| == |h.reqs|
    && forall i :: 0 <= i < |g.reqs| ==> SameReq(g.reqs[i], h.reqs[i])
  }

  /** The components and the moving request of two gateways that differ in the limiter. */
  lemma MovedAlike(gw: Setup, g: System, h: System, a: Action)
    requires Alike(g, h) && Possible(gw, g, a) && Possible(Unlimited(gw), h, a)
    requires a.RateLimit? ==> a.outcome != L.Replied
    ensures WorldsAfter(gw, g, a) == WorldsAfter(Unlimited(gw), h, a)
    ensures BoardAfter(gw, g, a) == BoardAfter(Unlimited(gw), h, a)
    ensures OfRequest(a) ==> SameReq(Moved(gw, g, a), Moved(Unlimited(gw), h, a))
  {
    if OfRequest(a) {
      assert SameReq(g.reqs[a.id], h.reqs[a.id]);
    }
  }

  lemma ActAlike(gw: Setup, g: System, h: System, a: Action)
    requires Alike(g, h) && Possible(gw, g, a)
    requires a.RateLimit? ==> a.outcome != L.Replied
    ensures Possible(Unlimited(gw), h, a) && Alike(Act(gw, g, a), Act(Unlimited(gw), h, a))
  {
    if OfRequest(a) {
      assert SameReq(g.reqs[a.id], h.reqs[a.id]);
    }
    MovedAlike(gw, g, h, a);
  }

  lemma {:induction false} PlayAlike(gw: Setup, g: System, h: System, actions: seq<Action>)
    requires Alike(g, h) && IsHistory(gw, g, actions) && RedisNeverAnswers(actions)
    ensures IsHistory(Unlimited(gw), h, actions)
    ensures Alike(Play(gw, g, actions), Play(Unlimited(gw), h, actions))
    decreases |actions|
  {
    if actions != [] {
      ActAlike(gw, g, h, actions[0]);
      PlayAlike(gw, Act(gw, g, actions[0]), Act(Unlimited(gw), h, actions[0]), actions[1..]);
    }
  }

  predicate NotLimited(r: Req) {
    !r.stage.OverLimit? && r.stage != Done(Response(429, false))
    && (r.stage.Finishing? ==> r.stage.response != Response(429, false))
  }

  lemma MovedNotLimited(gw: Setup, g: System, a: Action)
    requires Possible(gw, g, a) && OfRequest(a) && NotLimited(g.reqs[a.id])
    requires a.RateLimit? ==> a.outcome != L.Replied
    ensures NotLimited(Moved(gw, g, a))
  {
  }

  lemma {:induction false} NeverLimited(gw: Setup, g: System, actions: seq<Action>)
    requires IsHistory(gw, g, actions) && RedisNeverAnswers(actions)
    requires forall i :: 0 <= i < |g.reqs| ==> NotLimited(g.reqs[i])
    ensures forall i :: 0 <= i < |Play(gw, g, actions).reqs| ==> NotLimited(Play(gw, g, actions).reqs[i])
    decreases |actions|
  {
    if actions != [] {
      var a := actions[0];
      if OfRequest(a) {
        MovedNotLimited(gw, g, a);
      }
      NeverLimited(gw, Act(gw, g, a), actions[1..]);
    }
  }

  /** For every run in which Redis never answers, the gateway without a limiter can take the same
      actions and gives the same responses, sends, breaker states and metrics. */
  lemma FailOpenEquivalence(gw: Setup, actions: seq<Action>)
    requires IsHistory(gw, Boot(gw), actions) && RedisNeverAnswers(actions)
    ensures IsHistory(Unlimited(gw), Boot(Unlimited(gw)), actions)
    ensures Alike(Play(gw, Boot(gw), actions), Play(Unlimited(gw), Boot(Unlimited(gw)), actions))
    ensures forall i :: 0 <= i < |Play(gw, Boot(gw), actions).reqs| ==>
              Play(gw, Boot(gw), actions).reqs[i].stage != Done(Response(429, false))
  {
    PlayAlike(gw, Boot(gw), Boot(Unlimited(gw)), actions);
    NeverLimited(gw, Boot(gw), actions);
  }

  // ---- The converse ----

  /** The same action with a counter operation that fails at once. */
  function Unanswered(now: nat, a: Action): Action {
    if a.RateLimit? then RateLimit(a.id, now, L.Unreachable) else a
  }

  /** A run of the gateway without a limiter, replayed against a Redis that is down. */
  function Downed(gw: Setup, h: System, actions: seq<Action>): seq<Action>
    requires IsHistory(gw, h, actions)
    decreases |actions|
  {
    if actions == [] then []
    else [Unanswered(h.now, actions[0])] + Downed(gw, Act(gw, h, actions[0]), actions[1..])
  }

  lemma UnansweredAlike(gw: Setup, g: System, h: System, b: Action)
    requires Alike(g, h) && g.limiter.now == g.now && Possible(Unlimited(gw), h, b)
    ensures var a := Unanswered(h.now, b);
            && Possible(gw, g, a) && Alike(Act(gw, g, a), Act(Unlimited(gw), h, b))
            && Act(gw, g, a).limiter.now == Act(gw, g, a).now
  {
    var a := Unanswered(h.now, b);
    if OfRequest(b) {
      assert SameReq(g.reqs[b.id], h.reqs[b.id]);
    }
    ActAlike(gw, g, h, a);
    assert Act(Unlimited(gw), h, a) == Act(Unlimited(gw), h, b);
  }

  lemma {:induction false} ReplayAlike(gw: Setup, g: System, h: System, actions: seq<Action>)
    requires Alike(g, h) && g.limiter.now == g.now && IsHistory(Unlimited(gw), h, actions)
    ensures var down := Downed(Unlimited(gw), h, actions);
            && RedisNeverAnswers(down) && IsHistory(gw, g, down)
            && Alike(Play(gw, g, down), Play(Unlimited(gw), h, actions))
    decreases |actions|
  {
    if actions != [] {
      var b := actions[0];
      var a := Unanswered(h.now, b);
      UnansweredAlike(gw, g, h, b);
      ReplayAlike(gw, Act(gw, g, a), Act(Unlimited(gw), h, b), actions[1..]);
      var rest := Downed(Unlimited(gw), Act(Unlimited(gw), h, b), actions[1..]);
      assert ([a] + rest)[1..] == rest;
    }
  }

  /** Conversely every run of the gateway without a limiter is, with the counter operations failing
      at once, a run of the gateway whose Redis is down, with the same effects. */
  lemma FailOpenConverse(gw: Setup, actions: seq<Action>)
    requires IsHistory(Unlimited(gw), Boot(Unlimited(gw)), actions)
    ensures var down := Downed(Unlimited(gw), Boot(Unlimited(gw)), actions);
            && RedisNeverAnswers(down) && IsHistory(gw, Boot(gw), down)
            && Alike(Play(gw, Boot(gw), down), Play(Unlimited(gw), Boot(Unlimited(gw)), actions))
  {
    ReplayAlike(gw, Boot(gw), Boot(Unlimited(gw)), actions);
  }
}
