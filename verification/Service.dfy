/** Backends: their declarations, the registry of these, and http routing. */
module Service {
  import opened Common

  /** One route of an http backend. */
  datatype Route = Route(
    host: Option<string>,
    prefix: Option<string>,
    upstream: Option<string>,
    unix: Option<string>,
    tls: bool,
    sni: Option<string>,
    stripPrefix: bool,
    hostHeader: Option<string>)

  datatype BackendSpec = Http(routes: seq<Route>) | Tcp(upstream: string) | Unix(path: string)

  /** Why a declaration was refused; every one is the caller's mistake. */
  datatype Fault =
    | NoRoutes(port: Port)
    | BadRoute(port: Port, reason: RouteFault)
    | EmptyUpstream(port: Port)
    | EmptyPath(port: Port)
    | PortClaimedTwice(port: Port)

  datatype RouteFault = EmptyTarget | NoTarget | TwoTargets

  function ValidateRoute(r: Route): Option<RouteFault> {
    match (r.upstream, r.unix)
    case (Some(u), None) => if u == "" then Some(EmptyTarget) else None
    case (None, Some(_)) => None
    case (None, None) => Some(NoTarget)
    case (Some(_), Some(_)) => Some(TwoTargets)
  }

  /** The first fault of a route table. */
  function ValidateRoutes(routes: seq<Route>): Option<RouteFault> {
    if routes == [] then None
    else match ValidateRoute(routes[0])
      case Some(f) => Some(f)
      case None => ValidateRoutes(routes[1..])
  }

  function Validate(spec: BackendSpec, port: Port): Option<Fault> {
    match spec
    case Http(routes) =>
      if routes == [] then Some(NoRoutes(port))
      else (match ValidateRoutes(routes) case Some(f) => Some(BadRoute(port, f)) case None => None)
    case Tcp(upstream) => if upstream == "" then Some(EmptyUpstream(port)) else None
    case Unix(path) => if path == "" then Some(EmptyPath(port)) else None
  }

  const DIGITS := ['0', '1', '2', '3', '4', '5', '6', '7', '8', '9']

  function Decimal(n: nat): string {
    if n < 10 then [DIGITS[n]] else Decimal(n / 10) + [DIGITS[n % 10]]
  }

  function PluralRoutes(n: nat): string {
    "http (" + Decimal(n) + " route" + (if n == 1 then "" else "s") + ")"
  }

  function DescribeSpec(spec: BackendSpec): string {
    match spec
    case Http(routes) => PluralRoutes(|routes|)
    case Tcp(upstream) => "tcp " + upstream
    case Unix(path) => "unix " + path
  }

  /** A built backend: the http kind moves its routes into a gateway. */
  datatype Backend = Proxy(gateway: Gateway, count: nat) | Forward(upstream: string) | Socket(path: string)

  datatype Gateway = Gateway(port: Port, routes: seq<Route>)

  function DescribeBackend(b: Backend): string {
    match b
    case Proxy(_, count) => "http (" + Decimal(count) + " route" + (if count == 1 then "" else "s") + ")"
    case Forward(upstream) => "tcp " + upstream
    case Socket(path) => "unix " + path
  }

  function Build(port: Port, spec: BackendSpec): Result<Backend, Fault> {
    match Validate(spec, port)
    case Some(f) => Err(f)
    case None =>
      match spec
      case Http(routes) => Ok(Proxy(Gateway(port, routes), |routes|))
      case Tcp(upstream) => Ok(Forward(upstream))
      case Unix(path) => Ok(Socket(path))
  }

  /** What a dry run promises and what the listing reports word it the same. */
  lemma BuiltDescribesItself(port: Port, spec: BackendSpec)
    requires Validate(spec, port) == None
    ensures Build(port, spec).Ok? && DescribeBackend(Build(port, spec).value) == DescribeSpec(spec)
  {
  }

  type Specs = map<Port, BackendSpec>

  /** Every declaration passed validation when it was registered. */
  ghost predicate AllValid(specs: Specs) {
    forall p <- specs :: Validate(specs[p], p) == None
  }

  function Describe(specs: Specs, host: string, port: Port): string {
    if port in specs then DescribeSpec(specs[port]) else "default " + host + ":" + Decimal(port)
  }

  /** A stored service whose port no flag claimed must still be valid. */
  ghost predicate Restorable(declared: Specs, stored: Specs) {
    forall p <- stored :: p in declared || Validate(stored[p], p) == None
  }

  function RestoredSoFar(declared: Specs, stored: Specs, rest: set<Port>): Specs {
    (map p <- stored | p !in rest :: stored[p]) + declared
  }

  lemma RestoredNext(declared: Specs, stored: Specs, rest: set<Port>, p: Port)
    requires p in rest && rest <= stored.Keys
    ensures RestoredSoFar(declared, stored, rest - {p}) ==
            if p in RestoredSoFar(declared, stored, rest) then RestoredSoFar(declared, stored, rest)
            else RestoredSoFar(declared, stored, rest)[p := stored[p]]
    ensures p in RestoredSoFar(declared, stored, rest) <==> p in declared
  {
  }

  /** A declaration together with its built backend. */
  datatype Declared = Declared(spec: BackendSpec, backend: Backend)

  class Services {
    const host: string
    var backends: map<Port, Declared>

    ghost predicate Valid()
      reads this
    {
      forall p <- backends :: Build(p, backends[p].spec) == Ok(backends[p].backend)
    }

    /** The declarations. */
    ghost function Specs(): Specs
      reads this
    {
      map p <- backends :: backends[p].spec
    }

    constructor (host: string)
      ensures Valid() && Specs() == map[] && this.host == host
    {
      this.host := host;
      backends := map[];
    }

    lemma ValidSpecs()
      requires Valid()
      ensures AllValid(Specs())
    {
    }

    /** Makes `spec` the declaration for `port`, whatever there was. */
    method Register(port: Port, spec: BackendSpec) returns (fault: Option<Fault>)
      requires Valid()
      modifies this
      ensures Valid() && fault == Validate(spec, port)
      ensures Specs() == if fault == None then old(Specs())[port := spec] else old(Specs())
    {
      match Build(port, spec)
      case Err(f) =>
        fault := Some(f);
      case Ok(backend) =>
        fault := None;
        backends := backends[port := Declared(spec, backend)];
    }

    /** Same, but refuses to overwrite. */
    method RegisterNew(port: Port, spec: BackendSpec) returns (fault: Option<Fault>)
      requires Valid()
      modifies this
      ensures Valid()
      ensures fault == if port in old(Specs()) then Some(PortClaimedTwice(port)) else Validate(spec, port)
      ensures Specs() == if fault == None then old(Specs())[port := spec] else old(Specs())
    {
      if port in backends {
        fault := Some(PortClaimedTwice(port));
      } else {
        fault := Register(port, spec);
      }
    }

    method Remove(port: Port) returns (removed: bool)
      requires Valid()
      modifies this
      ensures Valid() && removed == (port in old(Specs())) && Specs() == old(Specs()) - {port}
    {
      removed := port in backends;
      backends := backends - {port};
    }

    method Snapshot() returns (specs: Specs)
      ensures specs == Specs()
    {
      specs := map p <- backends :: backends[p].spec;
    }

    method Ports() returns (ports: set<Port>)
      ensures ports == Specs().Keys
    {
      ports := backends.Keys;
    }

    method DescribePort(port: Port) returns (text: string)
      requires Valid()
      ensures text == Describe(Specs(), host, port)
    {
      if port in backends {
        text := DescribeBackend(backends[port].backend);
        BuiltDescribesItself(port, backends[port].spec);
      } else {
        text := "default " + host + ":" + Decimal(port);
      }
    }

    /** Registers the stored declarations whose port has none yet; an invalid one
        stops it. */
    method RegisterMissing(stored: Specs) returns (ok: bool)
      requires Valid()
      modifies this
      ensures Valid() && ok == Restorable(old(Specs()), stored)
      ensures ok ==> Specs() == stored + old(Specs())
    {
      ghost var declared := Specs();
      var rest := stored.Keys;
      while rest != {}
        invariant rest <= stored.Keys && Valid()
        invariant forall p <- stored.Keys - rest :: p in declared || Validate(stored[p], p) == None
        invariant Specs() == RestoredSoFar(declared, stored, rest)
        decreases rest
      {
        var p :| p in rest;
        RestoredNext(declared, stored, rest, p);
        if p !in backends {
          var fault := Register(p, stored[p]);
          if fault.Some? {
            return false;
          }
        }
        rest := rest - {p};
      }
      assert RestoredSoFar(declared, stored, {}) == stored + declared;
      ok := true;
    }

    method DescribeEach(ports: seq<Port>) returns (texts: map<Port, string>)
      requires Valid()
      ensures texts == map p <- ports :: Describe(Specs(), host, p)
    {
      texts := map[];
      for i := 0 to |ports|
        invariant texts == map p <- ports[..i] :: Describe(Specs(), host, p)
      {
        var text := DescribePort(ports[i]);
        assert ports[..i + 1] == ports[..i] + [ports[i]];
        texts := texts[ports[i] := text];
      }
      assert ports[..|ports|] == ports;
    }
  }

  // ----------------------------------------------------------- http requests

  /** The part of `s` before its first `c`. */
  function Before(s: string, c: char): string {
    if s == [] || s[0] == c then [] else [s[0]] + Before(s[1..], c)
  }

  predicate Matches(r: Route, host: Option<string>, path: string) {
    && (r.host.Some? ==> host.Some? && Before(host.value, ':') == r.host.value)
    && (r.prefix.Some? ==> r.prefix.value <= path)
  }

  /** The position of the first matching route, from `i` on. */
  function PickFrom(routes: seq<Route>, i: nat, host: Option<string>, path: string): Option<nat>
    requires i <= |routes|
    decreases |routes| - i
  {
    if i == |routes| then None
    else if Matches(routes[i], host, path) then Some(i)
    else PickFrom(routes, i + 1, host, path)
  }

  function Pick(g: Gateway, host: Option<string>, path: string): Option<nat> {
    PickFrom(g.routes, 0, host, path)
  }

  /** Where a request goes; a host name is resolved when it is sent. */
  datatype Target = ToSocket(path: string, tls: bool, sni: string) | ToHost(name: string, tls: bool, sni: string)

  /** The host part of `upstream`: what precedes the last colon, unless what
      follows it has a bracket, as in an address literal without a port. */
  function HostPart(upstream: string): string {
    match LastColon(upstream)
    case None => upstream
    case Some(i) => if ']' in upstream[i + 1..] then upstream else upstream[..i]
  }

  function LastColon(s: string): (r: Option<nat>)
    ensures r.Some? ==> r.value < |s| && s[r.value] == ':' && ':' !in s[r.value + 1..]
    ensures r.None? ==> ':' !in s
  {
    if s == [] then None
    else if s[|s| - 1] == ':' then Some(|s| - 1)
    else
      var r := LastColon(s[..|s| - 1]);
      assert s == s[..|s| - 1] + [s[|s| - 1]];
      assert r.Some? ==> s[r.value + 1..] == s[..|s| - 1][r.value + 1..] + [s[|s| - 1]];
      r
  }

  function UpstreamHost(r: Route): string {
    match r.upstream
    case Some(u) => HostPart(u)
    case None => if r.sni.Some? then r.sni.value else "localhost"
  }

  /** The target of a chosen route. None stands for the panic of a route with
      neither a socket nor an upstream. */
  function TargetOf(r: Route): Option<Target> {
    var sni := if r.sni.Some? then r.sni.value else UpstreamHost(r);
    if r.unix.Some? then Some(ToSocket(r.unix.value, r.tls, sni))
    else if r.upstream.Some? then Some(ToHost(r.upstream.value, r.tls, sni))
    else None
  }

  datatype Uri = Uri(path: string, query: Option<string>)

  /** Parsing a path with an optional query. */
  function ParseUri(s: string): Uri {
    if '?' in s then
      var path := Before(s, '?');
      BeforeIsPrefix(s, '?');
      Uri(path, Some(s[|path| + 1..]))
    else Uri(s, None)
  }

  lemma {:induction false} BeforeIsPrefix(s: string, c: char)
    ensures Before(s, c) <= s && c !in Before(s, c)
    ensures if c in s then |Before(s, c)| < |s| && s[|Before(s, c)|] == c else Before(s, c) == s
  {
    if s != [] && s[0] != c {
      BeforeIsPrefix(s[1..], c);
      assert s == [s[0]] + s[1..];
    }
  }

  /** The path sent upstream: the route's prefix stripped, kept absolute. */
  function Rewrite(r: Route, uri: Uri): Uri {
    if r.stripPrefix && r.prefix.Some? then
      var rest := if r.prefix.value <= uri.path then uri.path[|r.prefix.value|..] else uri.path;
      var absolute := if rest != [] && rest[0] == '/' then rest else "/" + rest;
      ParseUri(match uri.query case Some(q) => absolute + "?" + q case None => absolute)
    else uri
  }

  // ------------------------------------------------------------------ proofs

  lemma {:induction false} PickIsFirst(routes: seq<Route>, i: nat, host: Option<string>, path: string)
    requires i <= |routes|
    ensures match PickFrom(routes, i, host, path)
            case None => forall j :: i <= j < |routes| ==> !Matches(routes[j], host, path)
            case Some(n) => i <= n < |routes| && Matches(routes[n], host, path)
                            && forall j :: i <= j < n ==> !Matches(routes[j], host, path)
    decreases |routes| - i
  {
    if i < |routes| && !Matches(routes[i], host, path) {
      PickIsFirst(routes, i + 1, host, path);
    }
  }

  lemma {:induction false} RoutesAreValid(routes: seq<Route>, i: nat)
    requires ValidateRoutes(routes) == None && i < |routes|
    ensures ValidateRoute(routes[i]) == None
  {
    if i > 0 {
      RoutesAreValid(routes[1..], i - 1);
    }
  }

  lemma {:induction false} BeforeInverts(s: string, c: char, rest: string)
    requires c !in s
    ensures Before(s + [c] + rest, c) == s
  {
    var t := s + [c] + rest;
    if s != [] {
      assert t[0] == s[0] && t[1..] == s[1..] + [c] + rest;
      BeforeInverts(s[1..], c, rest);
      assert s == [s[0]] + s[1..];
    }
  }

  lemma ParsesBack(path: string, query: Option<string>)
    requires '?' !in path
    ensures ParseUri(match query case Some(q) => path + "?" + q case None => path) == Uri(path, query)
  {
    if query.Some? {
      BeforeInverts(path, '?', query.value);
      assert path + "?" + query.value == path + ['?'] + query.value;
      assert (path + "?" + query.value)[|path| + 1..] == query.value;
    }
  }

  /** The request is for the route: by its host, with or without a port, and by its
      path. */
  ghost predicate IsFor(r: Route, host: Option<string>, path: string) {
    && (r.host.None? || (host.Some? && ':' !in r.host.value &&
                         (host.value == r.host.value || exists rest :: host.value == r.host.value + [':'] + rest)))
    && (r.prefix.None? || exists rest :: path == r.prefix.value + rest)
  }

  lemma MatchesIff(r: Route, host: Option<string>, path: string)
    ensures Matches(r, host, path) <==> IsFor(r, host, path)
  {
    if r.host.Some? && host.Some? {
      HostMatchesIff(r.host.value, host.value);
    }
    if r.prefix.Some? && r.prefix.value <= path {
      assert path == r.prefix.value + path[|r.prefix.value|..];
    }
  }

  lemma HostMatchesIff(want: string, host: string)
    ensures Before(host, ':') == want <==>
              ':' !in want && (host == want || exists rest :: host == want + [':'] + rest)
  {
    BeforeIsPrefix(host, ':');
    if Before(host, ':') == want && ':' in host {
      assert host == want + [':'] + host[|want| + 1..];
    }
    if ':' !in want {
      BeforeIsPrefix(want, ':');
      forall rest | host == want + [':'] + rest ensures Before(host, ':') == want {
        BeforeInverts(want, ':', rest);
      }
    }
  }

  /** Where the route sends a request: to its socket, known by its name or else as the
      local host; or to its upstream, known by its name or else by the upstream without
      its port. */
  ghost predicate SentTo(r: Route, t: Target) {
    match (r.unix, r.upstream)
    case (Some(path), None) => t == ToSocket(path, r.tls, if r.sni.Some? then r.sni.value else "localhost")
    case (None, Some(upstream)) =>
      && t.ToHost? && t.name == upstream && t.tls == r.tls
      && (if r.sni.Some? then t.sni == r.sni.value else WithoutPort(upstream, t.sni))
    case _ => false
  }

  /** `host` is `upstream` without its port, which has no colon and no bracket; an
      upstream that does not end in such a port is a host as it stands. */
  ghost predicate WithoutPort(upstream: string, host: string) {
    || (exists port :: upstream == host + [':'] + port && ':' !in port && ']' !in port)
    || (host == upstream && forall head, port :: upstream == head + [':'] + port && ':' !in port ==> ']' in port)
  }

  lemma HostPartIsHost(upstream: string)
    ensures WithoutPort(upstream, HostPart(upstream))
  {
    var r := LastColon(upstream);
    if r.Some? {
      var tail := upstream[r.value + 1..];
      assert upstream == upstream[..r.value] + [':'] + tail;
      forall head, port | upstream == head + [':'] + port && ':' !in port ensures port == tail {
        SameLastColon(upstream[..r.value], tail, head, port);
      }
    } else {
      forall head, port ensures upstream != head + [':'] + port {
        assert (head + [':'] + port)[|head|] == ':';
      }
    }
  }

  lemma SameLastColon(a: string, b: string, head: string, port: string)
    requires a + [':'] + b == head + [':'] + port && ':' !in b && ':' !in port
    ensures b == port
  {
    var s := a + [':'] + b;
    assert s == head + [':'] + port;
    assert forall i :: |a| < i < |s| ==> s[i] == b[i - |a| - 1];
    assert forall i :: |head| < i < |s| ==> s[i] == port[i - |head| - 1];
    assert s[|a|] == ':' && s[|head|] == ':';
    assert b == s[|a| + 1..] && port == s[|head| + 1..];
  }

  /** For every http backend that can be registered and every request: a rejected
      request is for no route; an accepted one goes to the first route it is for, to
      the one target that route has, so neither panic can happen; its query is kept;
      and a stripped path is absolute, and is exactly what follows the prefix when that
      starts with a slash. */
  lemma HttpPipeline(port: Port, routes: seq<Route>, host: Option<string>, uri: Uri)
    requires Validate(Http(routes), port) == None && '?' !in uri.path
    ensures Build(port, Http(routes)).Ok? && Build(port, Http(routes)).value.Proxy?
    ensures match Pick(Build(port, Http(routes)).value.gateway, host, uri.path)
            case None => forall r <- routes :: !IsFor(r, host, uri.path)
            case Some(i) =>
              && i < |routes| && IsFor(routes[i], host, uri.path)
              && (forall j :: 0 <= j < i ==> !IsFor(routes[j], host, uri.path))
              && TargetOf(routes[i]).Some? && SentTo(routes[i], TargetOf(routes[i]).value)
              && Rewritten(routes[i], uri, Rewrite(routes[i], uri))
  {
    PickIsFirst(routes, 0, host, uri.path);
    forall r <- routes ensures Matches(r, host, uri.path) <==> IsFor(r, host, uri.path) {
      MatchesIff(r, host, uri.path);
    }
    match Pick(Gateway(port, routes), host, uri.path)
    case None =>
      forall r <- routes ensures !IsFor(r, host, uri.path) {
        var j :| 0 <= j < |routes| && routes[j] == r;
      }
    case Some(i) =>
      RoutesAreValid(routes, i);
      RewriteStrips(routes[i], uri);
      if routes[i].upstream.Some? {
        HostPartIsHost(routes[i].upstream.value);
      }
  }

  /** A declaration is valid exactly when: http has a route, and each has a socket or an
      upstream that is not empty, and not both; tcp has an upstream; unix has a path. */
  lemma ValidIff(spec: BackendSpec, port: Port)
    ensures Validate(spec, port) == None <==>
              match spec
              case Http(routes) =>
                routes != [] && forall r <- routes :: (r.upstream.Some? <==> r.unix.None?) && r.upstream != Some("")
              case Tcp(upstream) => upstream != ""
              case Unix(path) => path != ""
    ensures Validate(spec, port).Some? ==> Explains(spec, port, Validate(spec, port).value)
  {
    if spec.Http? {
      RoutesValidIff(spec.routes);
    }
  }

  /** What a fault says is so; of the routes, it is the first bad one that is named. */
  ghost predicate Explains(spec: BackendSpec, port: Port, fault: Fault) {
    match fault
    case NoRoutes(p) => p == port && spec == Http([])
    case EmptyUpstream(p) => p == port && spec == Tcp("")
    case EmptyPath(p) => p == port && spec == Unix("")
    case BadRoute(p, reason) => p == port && spec.Http? && exists i :: 0 <= i < |spec.routes| && FirstBad(spec.routes, i, reason)
    case PortClaimedTwice(_) => false
  }

  ghost predicate FirstBad(routes: seq<Route>, i: nat, reason: RouteFault)
    requires i < |routes|
  {
    && (forall j :: 0 <= j < i ==> ValidateRoute(routes[j]) == None)
    && (match reason
        case NoTarget => routes[i].upstream.None? && routes[i].unix.None?
        case TwoTargets => routes[i].upstream.Some? && routes[i].unix.Some?
        case EmptyTarget => routes[i].upstream == Some("") && routes[i].unix.None?)
  }

  lemma {:induction false} RoutesValidIff(routes: seq<Route>)
    ensures ValidateRoutes(routes) == None <==>
              forall r <- routes :: (r.upstream.Some? <==> r.unix.None?) && r.upstream != Some("")
    ensures ValidateRoutes(routes).Some? ==> exists i :: 0 <= i < |routes| && FirstBad(routes, i, ValidateRoutes(routes).value)
  {
    if routes != [] {
      RoutesValidIff(routes[1..]);
      assert routes == [routes[0]] + routes[1..];
      if ValidateRoute(routes[0]).Some? {
        assert FirstBad(routes, 0, ValidateRoutes(routes).value);
      } else if ValidateRoutes(routes[1..]).Some? {
        var i :| 0 <= i < |routes[1..]| && FirstBad(routes[1..], i, ValidateRoutes(routes[1..]).value);
        assert forall j :: 0 <= j < i + 1 ==> routes[j] == if j == 0 then routes[0] else routes[1..][j - 1];
        assert FirstBad(routes, i + 1, ValidateRoutes(routes).value);
      }
    }
  }

  /** What a decimal numeral stands for. */
  function Numeral(s: string): nat {
    if s == [] then 0 else Numeral(s[..|s| - 1]) * 10 + DigitValue(s[|s| - 1])
  }

  function DigitValue(c: char): nat {
    match c
    case '1' => 1 case '2' => 2 case '3' => 3 case '4' => 4 case '5' => 5
    case '6' => 6 case '7' => 7 case '8' => 8 case '9' => 9 case _ => 0
  }

  lemma {:induction false} DecimalReadsBack(n: nat)
    ensures Numeral(Decimal(n)) == n && Decimal(n) != [] && forall c <- Decimal(n) :: '0' <= c <= '9'
    ensures n > 0 ==> Decimal(n)[0] != '0'
  {
    var d := DIGITS[n % 10];
    if n >= 10 {
      DecimalReadsBack(n / 10);
      assert Decimal(n)[..|Decimal(n)| - 1] == Decimal(n / 10);
    } else {
      assert Decimal(n)[..0] == [] && Numeral([]) == 0;
    }
  }

  ghost predicate Rewritten(r: Route, uri: Uri, uri': Uri) {
    && uri'.query == uri.query
    && if !r.stripPrefix || r.prefix.None? then uri' == uri
       else
         && r.prefix.value <= uri.path
         && uri'.path != [] && uri'.path[0] == '/'
         && var rest := uri.path[|r.prefix.value|..];
            uri'.path == if rest != [] && rest[0] == '/' then rest else "/" + rest
  }

  lemma RewriteStrips(r: Route, uri: Uri)
    requires '?' !in uri.path && (r.prefix.Some? ==> r.prefix.value <= uri.path)
    ensures Rewritten(r, uri, Rewrite(r, uri))
  {
    if r.stripPrefix && r.prefix.Some? {
      var rest := uri.path[|r.prefix.value|..];
      assert '?' !in rest;
      ParsesBack(if rest != [] && rest[0] == '/' then rest else "/" + rest, uri.query);
    }
  }

  /** The host of a request is cut at its first colon before it is compared, so
      some request can match a host exactly when that has no colon in it: a route
      declared for an IPv6 literal matches nothing. */
  lemma HostCanMatchIff(r: Route)
    requires r.host.Some?
    ensures (exists host, path :: Matches(r, host, path)) <==> ':' !in r.host.value
  {
    var want := r.host.value;
    if ':' !in want {
      BeforeIsPrefix(want, ':');
      assert Matches(r, Some(want), if r.prefix.Some? then r.prefix.value else []);
    } else {
      forall host, path ensures !Matches(r, host, path) {
        if host.Some? {
          BeforeIsPrefix(host.value, ':');
        }
      }
    }
  }
}
