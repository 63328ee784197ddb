/** The names of the Redis counters, and why two counters never share one. */
module LimitKeys {
  import opened Counting

  function Digit(d: nat): char
    requires d < 10
  {
    ('0' as int + d) as char
  }

  function Decimal(n: nat): string {
    if n < 10 then [Digit(n)] else Decimal(n / 10) + [Digit(n % 10)]
  }

  /** Reading back a decimal numeral. */
  function ParseDecimal(s: string): int {
    if s == [] then 0 else 10 * ParseDecimal(s[..|s| - 1]) + (s[|s| - 1] as int - '0' as int)
  }

  lemma {:induction false} DecimalParses(n: nat)
    ensures ParseDecimal(Decimal(n)) == n
    ensures Decimal(n) != [] && forall i :: 0 <= i < |Decimal(n)| ==> '0' <= Decimal(n)[i] <= '9'
  {
    if n >= 10 {
      DecimalParses(n / 10);
      assert Decimal(n)[..|Decimal(n)| - 1] == Decimal(n / 10);
    } else {
      assert Decimal(n)[..0] == [];
    }
  }

  /** The key a request is limited under. */
  function LimitKey(subject: Option<string>, clientIp: string): string {
    match subject
    case Some(s) => "sub:" + s
    case None => "ip:" + clientIp
  }

  function WindowKey(keyPrefix: string, key: string, window: nat): string {
    "rl" + keyPrefix + ":" + key + ":" + Decimal(window)
  }

  lemma ColonInside(a: string, x: string, b: string, y: string)
    requires a + ":" + x == b + ":" + y && |a| < |b|
    ensures ':' in x && ':' in b
  {
    var s := a + ":" + x;
    assert s[|a|] == ':' && s[|b|] == ':';
    assert x[|b| - |a| - 1] == s[|b|];
    assert b[|a|] == s[|a|];
  }

  /** A string splits in only one way into a part, a colon, and a colon-free part. */
  lemma LastColonUnique(a: string, x: string, b: string, y: string)
    requires a + ":" + x == b + ":" + y
    requires ':' !in x && ':' !in y
    ensures a == b && x == y
  {
    if |a| < |b| {
      ColonInside(a, x, b, y);
    } else if |b| < |a| {
      ColonInside(b, y, a, x);
    } else {
      var s, t := a + ":" + x, b + ":" + y;
      assert a == s[..|a|] == t[..|b|] == b;
      assert x == s[|a| + 1..] == t[|b| + 1..] == y;
    }
  }

  /** Within one namespace, distinct (key, window) pairs have distinct counters, whatever
      characters the keys hold. */
  lemma WindowKeyInjective(keyPrefix: string, k1: string, w1: nat, k2: string, w2: nat)
    requires WindowKey(keyPrefix, k1, w1) == WindowKey(keyPrefix, k2, w2)
    ensures k1 == k2 && w1 == w2
  {
    DecimalParses(w1);
    DecimalParses(w2);
    var ns := "rl" + keyPrefix + ":";
    LastColonUnique(ns + k1, Decimal(w1), ns + k2, Decimal(w2));
    assert (ns + k1)[|ns|..] == k1 && (ns + k2)[|ns|..] == k2;
  }

  /** Subjects never collide with each other or with addresses. */
  lemma LimitKeyInjective(s1: Option<string>, ip1: string, s2: Option<string>, ip2: string)
    requires LimitKey(s1, ip1) == LimitKey(s2, ip2)
    ensures s1 == s2 && (s1.None? ==> ip1 == ip2)
  {
    var k1, k2 := LimitKey(s1, ip1), LimitKey(s2, ip2);
    assert s1.Some? ==> k1[0] == 's' && k1[4..] == s1.value;
    assert s2.Some? ==> k2[0] == 's' && k2[4..] == s2.value;
    assert s1.None? ==> k1[0] == 'i' && k1[3..] == ip1;
    assert s2.None? ==> k2[0] == 'i' && k2[3..] == ip2;
  }

  /** The whole name identifies the client and the window. */
  lemma CounterNamesNeverCollide(
    keyPrefix: string, s1: Option<string>, ip1: string, w1: nat, s2: Option<string>, ip2: string, w2: nat)
    ensures WindowKey(keyPrefix, LimitKey(s1, ip1), w1) == WindowKey(keyPrefix, LimitKey(s2, ip2), w2) <==>
            s1 == s2 && (s1.None? ==> ip1 == ip2) && w1 == w2
  {
    if WindowKey(keyPrefix, LimitKey(s1, ip1), w1) == WindowKey(keyPrefix, LimitKey(s2, ip2), w2) {
      WindowKeyInjective(keyPrefix, LimitKey(s1, ip1), w1, LimitKey(s2, ip2), w2);
      LimitKeyInjective(s1, ip1, s2, ip2);
    }
  }

  // ---- Namespaces ----

  /** A client of namespace p1 and a client of namespace p2 that are counted together. */
  ghost predicate SharedCounter(p1: string, p2: string) {
    exists s1, ip1, w1: nat, s2, ip2, w2: nat ::
      WindowKey(p1, LimitKey(s1, ip1), w1) == WindowKey(p2, LimitKey(s2, ip2), w2)
  }

  /** The same for the keys of the gateway, whose address fallback is the constant `ip`. */
  ghost predicate SharedCounterAt(p1: string, p2: string, ip: string) {
    exists s1, w1: nat, s2, w2: nat :: WindowKey(p1, LimitKey(s1, ip), w1) == WindowKey(p2, LimitKey(s2, ip), w2)
  }

  /** Namespace p2 goes on like the keys of the given kind in namespace p1. */
  predicate Continues(p1: string, kind: string, p2: string) {
    p1 + ":" + kind + ":" <= p2 + ":"
  }

  lemma KeyKind(s: Option<string>, ip: string)
    ensures s.Some? ==> "sub:" <= LimitKey(s, ip)
    ensures s.None? ==> "ip:" <= LimitKey(s, ip)
  {
  }

  /** A key that holds another key after a colon is longer than its own kind. */
  lemma KindFits(x: string, k1: string, k2: string)
    requires k1 == x + ":" + k2
    ensures "sub:" <= k1 ==> "sub:" <= x + ":"
    ensures "ip:" <= k1 ==> "ip:" <= x + ":"
  {
    assert k1[|x|] == ':' && (x + ":") == k1[..|x| + 1];
  }

  /** Two names are equal exactly when the windows are, and the longer namespace is the shorter
      one, a colon and the head of the other key. */
  lemma SameName(p1: string, k1: string, w1: nat, p2: string, k2: string, w2: nat) returns (x: string)
    requires WindowKey(p1, k1, w1) == WindowKey(p2, k2, w2) && |p1| < |p2|
    ensures p2 == p1 + ":" + x && k1 == x + ":" + k2
  {
    DecimalParses(w1);
    DecimalParses(w2);
    var a, b := "rl" + p1 + ":" + k1, "rl" + p2 + ":" + k2;
    LastColonUnique(a, Decimal(w1), b, Decimal(w2));
    assert a[2..] == p1 + ":" + k1 && b[2..] == p2 + ":" + k2;
    var t := p2 + ":" + k2;
    x := p2[|p1| + 1..];
    assert p2 == t[..|p2|] && p1 + ":" == t[..|p1| + 1];
    assert k1 == t[|p1| + 1..];
  }

  lemma SharedOneWay(
    p1: string, s1: Option<string>, ip1: string, w1: nat, p2: string, s2: Option<string>, ip2: string, w2: nat)
    requires WindowKey(p1, LimitKey(s1, ip1), w1) == WindowKey(p2, LimitKey(s2, ip2), w2) && |p1| < |p2|
    ensures if s1.Some? then Continues(p1, "sub", p2) else Continues(p1, "ip", p2) && ':' in ip1
  {
    var x := SameName(p1, LimitKey(s1, ip1), w1, p2, LimitKey(s2, ip2), w2);
    KeyKind(s1, ip1);
    KeyKind(s2, ip2);
    KindFits(x, LimitKey(s1, ip1), LimitKey(s2, ip2));
    assert p2 + ":" == p1 + ":" + (x + ":");
    if s1.None? {
      assert p1 + ":" + "ip" + ":" == p1 + ":" + "ip:";
      assert LimitKey(s1, ip1)[3..] == ip1;
      var colon := if s2.Some? then |x| + 4 else |x| + 3;
      assert LimitKey(s1, ip1)[colon] == ':';
      assert ip1[colon - 3] == ':';
    } else {
      assert p1 + ":" + "sub" + ":" == p1 + ":" + "sub:";
    }
  }

  /** One client of each namespace, counted together. */
  lemma ContinuedShares(p1: string, kind: string, p2: string) returns (rest: string)
    requires Continues(p1, kind, p2)
    ensures WindowKey(p1, kind + ":" + rest, 0) == WindowKey(p2, LimitKey(Some(""), ""), 0)
  {
    var head := p1 + ":" + kind + ":";
    var t := p2 + ":" + "sub:";
    rest := t[|head|..];
    assert head == (p2 + ":")[..|head|] == t[..|head|];
    assert t == head + rest;
    assert p1 + ":" + (kind + ":" + rest) == t;
    assert WindowKey(p1, kind + ":" + rest, 0) == "rl" + t + ":" + Decimal(0);
    assert WindowKey(p2, "sub:", 0) == "rl" + t + ":" + Decimal(0);
    assert LimitKey(Some(""), "") == "sub:";
  }

  lemma SubjectsShare(p1: string, p2: string, ip: string)
    requires Continues(p1, "sub", p2)
    ensures SharedCounterAt(p1, p2, ip) && SharedCounterAt(p2, p1, ip)
  {
    var rest := ContinuedShares(p1, "sub", p2);
    assert LimitKey(Some(rest), ip) == "sub" + ":" + rest;
    assert WindowKey(p1, LimitKey(Some(rest), ip), 0) == WindowKey(p2, LimitKey(Some(""), ip), 0);
  }

  lemma AddressesShare(p1: string, p2: string)
    requires Continues(p1, "ip", p2)
    ensures SharedCounter(p1, p2) && SharedCounter(p2, p1)
  {
    var rest := ContinuedShares(p1, "ip", p2);
    assert LimitKey(None, rest) == "ip" + ":" + rest;
    assert WindowKey(p1, LimitKey(None, rest), 0) == WindowKey(p2, LimitKey(Some(""), ""), 0);
  }

  lemma SameLength(p1: string, k1: string, w1: nat, p2: string, k2: string, w2: nat)
    requires WindowKey(p1, k1, w1) == WindowKey(p2, k2, w2) && |p1| == |p2|
    ensures p1 == p2
  {
    var s, t := WindowKey(p1, k1, w1), WindowKey(p2, k2, w2);
    assert p1 == s[2..2 + |p1|] && p2 == t[2..2 + |p2|];
  }

  /** Two namespaces share a counter exactly when one goes on, after a colon, like a subject or
      an address key of the other. */
  lemma NamespacesShareExactly(p1: string, p2: string)
    requires p1 != p2
    ensures SharedCounter(p1, p2) <==>
            || Continues(p1, "sub", p2) || Continues(p1, "ip", p2)
            || Continues(p2, "sub", p1) || Continues(p2, "ip", p1)
  {
    forall s1, ip1, w1: nat, s2, ip2, w2: nat
      | WindowKey(p1, LimitKey(s1, ip1), w1) == WindowKey(p2, LimitKey(s2, ip2), w2)
      ensures || Continues(p1, "sub", p2) || Continues(p1, "ip", p2)
              || Continues(p2, "sub", p1) || Continues(p2, "ip", p1)
    {
      NamespacesMeet(p1, s1, ip1, w1, p2, s2, ip2, w2);
    }
    if Continues(p1, "sub", p2) {
      SubjectsShare(p1, p2, "");
    } else if Continues(p2, "sub", p1) {
      SubjectsShare(p2, p1, "");
    } else if Continues(p1, "ip", p2) {
      AddressesShare(p1, p2);
    } else if Continues(p2, "ip", p1) {
      AddressesShare(p2, p1);
    }
  }

  lemma NamespacesMeet(
    p1: string, s1: Option<string>, ip1: string, w1: nat, p2: string, s2: Option<string>, ip2: string, w2: nat)
    requires p1 != p2 && WindowKey(p1, LimitKey(s1, ip1), w1) == WindowKey(p2, LimitKey(s2, ip2), w2)
    ensures || Continues(p1, "sub", p2) || (Continues(p1, "ip", p2) && ':' in ip1)
            || Continues(p2, "sub", p1) || (Continues(p2, "ip", p1) && ':' in ip2)
  {
    if |p1| < |p2| {
      SharedOneWay(p1, s1, ip1, w1, p2, s2, ip2, w2);
    } else if |p2| < |p1| {
      SharedOneWay(p2, s2, ip2, w2, p1, s1, ip1, w1);
    } else {
      SameLength(p1, LimitKey(s1, ip1), w1, p2, LimitKey(s2, ip2), w2);
    }
  }

  /** With a constant address fallback that holds no colon, as the gateway's, only subject keys
      can cross over. */
  lemma GatewayNamespacesShareExactly(p1: string, p2: string, ip: string)
    requires p1 != p2 && ':' !in ip
    ensures SharedCounterAt(p1, p2, ip) <==> Continues(p1, "sub", p2) || Continues(p2, "sub", p1)
  {
    forall s1, w1: nat, s2, w2: nat | WindowKey(p1, LimitKey(s1, ip), w1) == WindowKey(p2, LimitKey(s2, ip), w2)
      ensures Continues(p1, "sub", p2) || Continues(p2, "sub", p1)
    {
      NamespacesMeet(p1, s1, ip, w1, p2, s2, ip, w2);
    }
    if Continues(p1, "sub", p2) {
      SubjectsShare(p1, p2, ip);
    } else if Continues(p2, "sub", p1) {
      SubjectsShare(p2, p1, ip);
    }
  }

  /** So namespaces without a colon share nothing. */
  lemma PlainNamespacesIsolate(p1: string, p2: string)
    requires p1 != p2 && ':' !in p1 && ':' !in p2
    ensures !SharedCounter(p1, p2)
  {
    NamespacesShareExactly(p1, p2);
    forall kind | kind == "sub" || kind == "ip" ensures !Continues(p1, kind, p2) && !Continues(p2, kind, p1) {
      ColonNeeded(p1, kind, p2);
      ColonNeeded(p2, kind, p1);
    }
  }

  lemma ColonNeeded(p1: string, kind: string, p2: string)
    requires ':' !in p2 && kind != []
    ensures !Continues(p1, kind, p2)
  {
    assert (p1 + ":" + kind + ":")[|p1|] == ':';
  }
}
