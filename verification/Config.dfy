/** Startup validation of the configuration. */
module Config {
  import opened Counting
  import opened Text

  datatype Route = Route(prefix: string, backend: string)

  datatype AuthSection = AuthSection(keysDir: Option<string>, issuer: Option<string>, issuerKey: Option<string>)

  /** `routes` lists the route map in key order. */
  datatype GatewayConfig = GatewayConfig(
    routes: seq<Route>,
    auth: AuthSection,
    redisUrl: string,
    limit: nat,
    windowSecs: nat,
    failureThreshold: nat,
    cooldownSecs: nat,
    timeoutSecs: nat)

  datatype ConfigError =
    | HalfSpecifiedIssuer
    | KeysDirMissing
    | NoRoutes
    | ZeroLimit
    | ZeroWindow
    | EmptyRedisUrl
    | ZeroThreshold
    | ZeroCooldown
    | ZeroTimeout
    | InvalidPrefix(prefix: string)
    | InvalidBackend(prefix: string, backend: string)

  datatype Outcome = Accepted(routes: seq<Route>) | Rejected(error: ConfigError)

  predicate PrefixChar(c: char) {
    'a' <= c <= 'z' || 'A' <= c <= 'Z' || '0' <= c <= '9' || c == '-' || c == '_'
  }

  predicate PrefixOk(prefix: string) {
    prefix != [] && forall i :: 0 <= i < |prefix| ==> PrefixChar(prefix[i])
  }

  predicate BackendOk(backend: string) {
    ("http://" <= backend || "https://" <= backend) && |backend| > |"http://"|
  }

  predicate IssuesOwnTokens(auth: AuthSection) {
    auth.issuer.None? && auth.issuerKey.None?
  }

  /** The checks outside the route table, as one condition. */
  predicate SectionsOk(cfg: GatewayConfig) {
    && (cfg.auth.issuer.Some? <==> cfg.auth.issuerKey.Some?)
    && (IssuesOwnTokens(cfg.auth) || cfg.auth.keysDir.Some?)
    && cfg.routes != [] && cfg.limit > 0 && cfg.windowSecs > 0 && cfg.redisUrl != []
    && cfg.failureThreshold > 0 && cfg.cooldownSecs > 0 && cfg.timeoutSecs > 0
  }

  predicate RouteOk(r: Route) {
    PrefixOk(r.prefix) && BackendOk(r.backend)
  }

  function Normal(r: Route): Route {
    Route(r.prefix, TrimEnd(r.backend, '/'))
  }

  /** The checks outside the route table in the order of the startup code, with their errors. */
  function SectionChecks(cfg: GatewayConfig): seq<(bool, ConfigError)> {
    [(cfg.auth.issuer.Some? <==> cfg.auth.issuerKey.Some?, HalfSpecifiedIssuer),
     (IssuesOwnTokens(cfg.auth) || cfg.auth.keysDir.Some?, KeysDirMissing),
     (cfg.routes != [], NoRoutes),
     (cfg.limit > 0, ZeroLimit),
     (cfg.windowSecs > 0, ZeroWindow),
     (cfg.redisUrl != [], EmptyRedisUrl),
     (cfg.failureThreshold > 0, ZeroThreshold),
     (cfg.cooldownSecs > 0, ZeroCooldown),
     (cfg.timeoutSecs > 0, ZeroTimeout)]
  }

  predicate FailsFirst(checks: seq<(bool, ConfigError)>, i: nat, e: ConfigError) {
    i < |checks| && !checks[i].0 && checks[i].1 == e && forall j :: 0 <= j < i ==> checks[j].0
  }

  /** No error when every check holds, and otherwise the error of the first that does not. */
  function SectionError(cfg: GatewayConfig): (e: Option<ConfigError>)
    ensures e.None? <==> SectionsOk(cfg)
    ensures e.Some? ==> exists i: nat :: FailsFirst(SectionChecks(cfg), i, e.value)
  {
    if cfg.auth.issuer.Some? != cfg.auth.issuerKey.Some? then
      assert FailsFirst(SectionChecks(cfg), 0, HalfSpecifiedIssuer);
      Some(HalfSpecifiedIssuer)
    else if !IssuesOwnTokens(cfg.auth) && cfg.auth.keysDir.None? then
      assert FailsFirst(SectionChecks(cfg), 1, KeysDirMissing);
      Some(KeysDirMissing)
    else if cfg.routes == [] then
      assert FailsFirst(SectionChecks(cfg), 2, NoRoutes);
      Some(NoRoutes)
    else if cfg.limit == 0 then
      assert FailsFirst(SectionChecks(cfg), 3, ZeroLimit);
      Some(ZeroLimit)
    else if cfg.windowSecs == 0 then
      assert FailsFirst(SectionChecks(cfg), 4, ZeroWindow);
      Some(ZeroWindow)
    else if cfg.redisUrl == [] then
      assert FailsFirst(SectionChecks(cfg), 5, EmptyRedisUrl);
      Some(EmptyRedisUrl)
    else if cfg.failureThreshold == 0 then
      assert FailsFirst(SectionChecks(cfg), 6, ZeroThreshold);
      Some(ZeroThreshold)
    else if cfg.cooldownSecs == 0 then
      assert FailsFirst(SectionChecks(cfg), 7, ZeroCooldown);
      Some(ZeroCooldown)
    else if cfg.timeoutSecs == 0 then
      assert FailsFirst(SectionChecks(cfg), 8, ZeroTimeout);
      Some(ZeroTimeout)
    else None
  }

  /** Accepts exactly the configurations whose every check holds, keeping order and prefixes and
      trimming slashes from backends; a rejection names the first check that fails. */
  method Validate(cfg: GatewayConfig) returns (r: Outcome)
    ensures r.Accepted? <==> SectionsOk(cfg) && forall i :: 0 <= i < |cfg.routes| ==> RouteOk(cfg.routes[i])
    ensures r.Accepted? ==>
              |r.routes| == |cfg.routes| && forall i :: 0 <= i < |r.routes| ==> r.routes[i] == Normal(cfg.routes[i])
    ensures !SectionsOk(cfg) ==> r == Rejected(SectionError(cfg).value)
    ensures r.Rejected? && SectionsOk(cfg) ==>
              exists i :: 0 <= i < |cfg.routes|
                && (forall j :: 0 <= j < i ==> RouteOk(cfg.routes[j]))
                && !RouteOk(cfg.routes[i])
                && r.error == if PrefixOk(cfg.routes[i].prefix)
                              then InvalidBackend(cfg.routes[i].prefix, cfg.routes[i].backend)
                              else InvalidPrefix(cfg.routes[i].prefix)
  {
    var e := SectionError(cfg);
    if e.Some? {
      return Rejected(e.value);
    }
    var routes: seq<Route> := [];
    for i := 0 to |cfg.routes|
      invariant |routes| == i
      invariant forall j :: 0 <= j < i ==> RouteOk(cfg.routes[j]) && routes[j] == Normal(cfg.routes[j])
    {
      var route := cfg.routes[i];
      if !PrefixOk(route.prefix) {
        return Rejected(InvalidPrefix(route.prefix));
      }
      if !BackendOk(route.backend) {
        return Rejected(InvalidBackend(route.prefix, route.backend));
      }
      routes := routes + [Normal(route)];
    }
    r := Accepted(routes);
  }

  /** Where the scheme of a backend URL ends. */
  function SchemeEnd(backend: string): nat
    requires BackendOk(backend)
  {
    if "http://" <= backend then 7 else 8
  }

  /** A normalized backend never ends in a slash, and keeps its scheme exactly when something
      other than slashes follows the scheme: "https://" passes validation and loses it. */
  lemma NormalizedBackend(r: Route)
    requires RouteOk(r)
    ensures var b := Normal(r).backend;
            && b != [] && b[|b| - 1] != '/'
            && (r.backend[..SchemeEnd(r.backend)] <= b <==>
                exists i :: SchemeEnd(r.backend) <= i < |r.backend| && r.backend[i] != '/')
  {
    var s, k := r.backend, SchemeEnd(r.backend);
    var b := Normal(r).backend;
    TrimEndExactly(s, '/');
    assert s[0] == 'h' && s[k - 1] == '/';
    if |b| > k {
      assert s[|b| - 1] == b[|b| - 1];
      assert s[..k] <= b;
    }
  }

  lemma SchemeCanBeLost()
    ensures RouteOk(Route("crm", "https://")) && Normal(Route("crm", "https://")).backend == "https:"
  {
    var s := "https://";
    assert s[..7] == "https:/" && s[..7][..6] == "https:";
    assert TrimEnd("https:", '/') == "https:";
    assert TrimEnd("https:/", '/') == TrimEnd("https:", '/');
    assert TrimEnd(s, '/') == TrimEnd("https:/", '/');
  }
}
