/** The circuit breaker of one backend: the value it guards, its two transitions,
    and the object whose methods perform them in place under the lock. */
module Circuit {
  import opened Counting
  import opened Config

  newtype u32 = x: int | 0 <= x < 0x1_0000_0000

  datatype State = Closed | Open | HalfOpen

  datatype Admit = Call | ShortCircuit

  /** `cooldown` and every time below are in ticks of one monotone clock. */
  datatype BreakerConfig = BreakerConfig(failureThreshold: u32, cooldown: nat)

  datatype Inner = Inner(state: State, consecutiveFailures: nat, openedAt: Option<nat>)

  const FRESH := Inner(Closed, 0, None)

  /** The failure run that opens the breaker: a threshold of 0 acts as 1, because the
      comparison follows the increment. */
  function Trip(cfg: BreakerConfig): (n: nat)
    ensures 1 <= n < 0x1_0000_0000
  {
    if cfg.failureThreshold == 0 then 1 else cfg.failureThreshold as nat
  }

  /** Time since an instant, zero when the instant is not in the past. */
  function Elapsed(since: nat, now: nat): nat {
    if since <= now then now - since else 0
  }

  predicate Waited(cfg: BreakerConfig, b: Inner, now: nat) {
    b.openedAt.Some? && Elapsed(b.openedAt.value, now) >= cfg.cooldown
  }

  function AdmitDecision(cfg: BreakerConfig, b: Inner, now: nat): Admit {
    match b.state
    case Closed => Call
    case Open => if Waited(cfg, b, now) then Call else ShortCircuit
    case HalfOpen => ShortCircuit
  }

  function AfterAdmit(cfg: BreakerConfig, b: Inner, now: nat): Inner {
    if b.state == Open && Waited(cfg, b, now) then b.(state := HalfOpen) else b
  }

  function JustOpened(now: nat): Inner {
    Inner(Open, 0, Some(now))
  }

  function AfterRecord(cfg: BreakerConfig, b: Inner, success: bool, now: nat): Inner {
    match b.state
    case Closed =>
      if success then b.(consecutiveFailures := 0)
      else if b.consecutiveFailures + 1 >= cfg.failureThreshold as nat then JustOpened(now)
      else b.(consecutiveFailures := b.consecutiveFailures + 1)
    case HalfOpen => if success then FRESH else JustOpened(now)
    case Open => b
  }

  /** What every reachable breaker value satisfies. The failure count stays below the
      tripping run, and the opening time is kept exactly while the breaker is not closed. */
  predicate Consistent(cfg: BreakerConfig, b: Inner) {
    && b.consecutiveFailures < Trip(cfg)
    && (b.state != Closed ==> b.consecutiveFailures == 0)
    && (b.openedAt.Some? <==> b.state != Closed)
  }

  class CircuitBreaker {
    const cfg: BreakerConfig
    var state: State
    var consecutiveFailures: u32
    var openedAt: Option<nat>

    ghost function View(): Inner
      reads this
    {
      Inner(state, consecutiveFailures as nat, openedAt)
    }

    ghost predicate Valid()
      reads this
    {
      Consistent(cfg, View())
    }

    constructor (cfg: BreakerConfig)
      ensures Valid() && this.cfg == cfg && View() == FRESH
    {
      this.cfg := cfg;
      state := Closed;
      consecutiveFailures := 0;
      openedAt := None;
    }

    method TryAdmit(now: nat) returns (a: Admit)
      requires Valid()
      modifies this`state
      ensures Valid()
      ensures a == AdmitDecision(cfg, old(View()), now)
      ensures View() == AfterAdmit(cfg, old(View()), now)
    {
      match state
      case Closed =>
        a := Call;
      case Open =>
        var waited := openedAt.Some? && Elapsed(openedAt.value, now) >= cfg.cooldown;
        if waited {
          state := HalfOpen;
          a := Call;
        } else {
          a := ShortCircuit;
        }
      case HalfOpen =>
        a := ShortCircuit;
    }

    /** The increment is a 32-bit one: that it verifies means it never overflows. */
    method Record(success: bool, now: nat)
      requires Valid()
      modifies this
      ensures Valid()
      ensures View() == AfterRecord(cfg, old(View()), success, now)
    {
      match state
      case Closed =>
        if success {
          consecutiveFailures := 0;
        } else {
          consecutiveFailures := consecutiveFailures + 1;
          if consecutiveFailures >= cfg.failureThreshold {
            OpenNow(now);
          }
        }
      case HalfOpen =>
        if success {
          state := Closed;
          consecutiveFailures := 0;
          openedAt := None;
        } else {
          OpenNow(now);
        }
      case Open =>
    }

    method OpenNow(now: nat)
      modifies this
      ensures View() == JustOpened(now)
    {
      state := Open;
      consecutiveFailures := 0;
      openedAt := Some(now);
    }
  }

  function Prefixes(routes: seq<Route>): set<string> {
    set r | r in routes :: r.prefix
  }

  /** One breaker object per route prefix. A later route with the same prefix replaces the
      earlier breaker; no two prefixes share one, so no call on one can change another. */
  method NewBreakers(routes: seq<Route>, cfg: BreakerConfig) returns (m: map<string, CircuitBreaker>)
    ensures m.Keys == Prefixes(routes)
    ensures forall p <- m :: fresh(m[p]) && m[p].Valid() && m[p].cfg == cfg && m[p].View() == FRESH
    ensures forall p <- m, q <- m :: p != q ==> m[p] != m[q]
  {
    m := map[];
    for i := 0 to |routes|
      invariant m.Keys == Prefixes(routes[..i])
      invariant forall p <- m :: fresh(m[p]) && m[p].Valid() && m[p].cfg == cfg && m[p].View() == FRESH
      invariant forall p <- m, q <- m :: p != q ==> m[p] != m[q]
    {
      var b := new CircuitBreaker(cfg);
      m := m[routes[i].prefix := b];
      assert routes[..i + 1] == routes[..i] + [routes[i]];
    }
    assert routes[..|routes|] == routes;
  }
}
