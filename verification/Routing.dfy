/** From a request path to a backend target. */
module Routing {
  import opened Counting
  import opened Text
  import opened Config

  /** The prefix and the remaining path of a request path. */
  function ParsePath(path: string): (string, string) {
    var trimmed := TrimStart(path, '/');
    match SplitOnce(trimmed, '/')
    case Some((p, r)) => (p, "/" + r)
    case None => (trimmed, "/")
  }

  /** The label under which a 429 for this path is counted. */
  function LimitedLabel(path: string): string {
    match SplitOnce(TrimStart(path, '/'), '/')
    case Some((p, _)) => p
    case None => ""
  }

  function Target(backend: string, suffix: string, query: Option<string>): string {
    backend + suffix + (match query case Some(q) => "?" + q case None => "")
  }

  predicate IsSegment(p: string) {
    p != [] && '/' !in p
  }

  lemma ValidPrefixIsSegment(p: string)
    requires PrefixOk(p)
    ensures IsSegment(p) && '|' !in p
  {
  }

  /** Slashes, the prefix, a slash and the rest parse to the prefix and the rest. */
  lemma RoutingRoundTrip(n: nat, p: string, rest: string)
    requires IsSegment(p)
    ensures ParsePath(Repeat('/', n) + p + "/" + rest) == (p, "/" + rest)
    ensures ParsePath(Repeat('/', n) + p) == (p, "/")
  {
    assert Repeat('/', n) + p + "/" + rest == Repeat('/', n) + (p + "/" + rest);
    TrimStartRepeat('/', n, p + "/" + rest);
    SplitOnceFirst(p, '/', rest);
    TrimStartRepeat('/', n, p);
    SplitOnceExactly(p, '/');
  }

  predicate Spells(path: string, n: nat, p: string, rest: string) {
    path == Repeat('/', n) + p || path == Repeat('/', n) + p + "/" + rest
  }

  /** The paths that belong to a prefix. */
  ghost predicate Claims(p: string, path: string) {
    exists n: nat, rest: string :: Spells(path, n, p, rest)
  }

  lemma ParsedClaims(path: string, n: nat)
    requires path == Repeat('/', n) + TrimStart(path, '/')
    ensures Claims(ParsePath(path).0, path)
  {
    var trimmed := TrimStart(path, '/');
    SplitOnceExactly(trimmed, '/');
    var p := ParsePath(path).0;
    match SplitOnce(trimmed, '/')
    case Some((a, rest)) =>
      assert Repeat('/', n) + (a + "/" + rest) == Repeat('/', n) + a + "/" + rest;
      assert Spells(path, n, p, rest);
    case None =>
      assert Spells(path, n, p, "");
  }

  /** Parsing finds prefix p exactly in the paths that belong to p. */
  lemma RoutingExactly(path: string, p: string)
    requires IsSegment(p)
    ensures ParsePath(path).0 == p <==> Claims(p, path)
  {
    if Claims(p, path) {
      var n: nat, rest: string :| Spells(path, n, p, rest);
      RoutingRoundTrip(n, p, rest);
    }
    if ParsePath(path).0 == p {
      var n := TrimStartDrops(path, '/');
      ParsedClaims(path, n);
    }
  }

  /** No path belongs to two prefixes. */
  lemma PrefixesDisjoint(p: string, q: string, path: string)
    requires IsSegment(p) && IsSegment(q) && Claims(p, path) && Claims(q, path)
    ensures p == q
  {
    RoutingExactly(path, p);
    RoutingExactly(path, q);
  }

  /** For every accepted route, the target is the backend without a trailing slash, then the
      remaining path with exactly its leading slash, then the query. */
  lemma TargetShape(r: Route, n: nat, rest: string, query: Option<string>)
    requires RouteOk(r)
    ensures var path := Repeat('/', n) + r.prefix + "/" + rest;
            var b := Normal(r).backend;
            var target := Target(b, ParsePath(path).1, query);
            && ParsePath(path).0 == r.prefix
            && b != [] && target[|b| - 1] != '/' && target[|b|] == '/'
            && target == b + "/" + rest + (match query case Some(q) => "?" + q case None => "")
  {
    ValidPrefixIsSegment(r.prefix);
    RoutingRoundTrip(n, r.prefix, rest);
    NormalizedBackend(r);
    var b := Normal(r).backend;
    assert b + ("/" + rest) == b + "/" + rest;
  }

  /** The 429 label is the route prefix exactly for paths with a slash after the prefix, and for
      the empty path. */
  lemma LimitedLabelExactly(path: string)
    ensures LimitedLabel(path) == ParsePath(path).0 <==>
            '/' in TrimStart(path, '/') || TrimStart(path, '/') == []
  {
    SplitOnceExactly(TrimStart(path, '/'), '/');
  }

  /** Any segment at all can be made a label, configured or not. */
  lemma AnyLabelReachable(p: string)
    requires IsSegment(p)
    ensures LimitedLabel("/" + p + "/") == p
  {
    assert Repeat('/', 1) == "/" + Repeat('/', 0) == "/";
    assert "/" + p + "/" == Repeat('/', 1) + (p + "/" + "");
    TrimStartRepeat('/', 1, p + "/" + "");
    SplitOnceFirst(p, '/', "");
  }
}
