/** The xDS adaptor: pkg/adaptor/xds/v3/route.go and cluster.go, and ids, pkg/id/idgen.go. */
module Adaptor {
  import opened Objects
  import opened Strings
  import opened StringSets
  import opened Diff
  import opened Manifests

  /** Ids are hexadecimal checksums of names; the checksum is a parameter. */
  function GenId(crc: string -> nat, raw: string): string {
    if raw == "" then "" else Hex(crc(raw))
  }

  /** No generated id contains a slash, so every key built from one can be looked up. */
  lemma {:induction false} GenIdHasNoSlash(crc: string -> nat, raw: string)
    ensures '/' !in GenId(crc, raw)
  {
    if raw != "" && '/' in Hex(crc(raw)) {
      HexIsAlphanumeric(crc(raw), '/');
    }
  }

  /** An id is the checksum in hexadecimal, and empty for the empty name; so ids are told apart
      exactly as checksums are. */
  lemma {:induction false} GenIdMeans(crc: string -> nat, a: string, b: string)
    ensures a == "" ==> GenId(crc, a) == ""
    ensures a != "" ==> GenId(crc, a) != "" && HexValue(GenId(crc, a)) == crc(a)
    ensures a != "" && b != "" ==> (GenId(crc, a) == GenId(crc, b) <==> crc(a) == crc(b))
  {
    HexReadsBack(crc(a));
    HexReadsBack(crc(b));
  }

  datatype PathSpec = ExactPath(path: string) | PrefixPath(prefix: string) | OtherPath

  /** One xDS route. cluster is None for an action or cluster specifier that is not served;
      headerVars is None for a header matcher that is not served. */
  datatype XdsRoute = XdsRoute(
    name: string,
    caseSensitive: Option<bool>,
    cluster: Option<string>,
    path: PathSpec,
    queryVars: seq<seq<string>>,
    headerVars: Option<seq<seq<string>>>)

  datatype VirtualHost = VirtualHost(name: string, domains: seq<string>, routes: seq<XdsRoute>)

  datatype RouteConfiguration = RouteConfiguration(name: string, vhosts: seq<VirtualHost>)

  const DEFAULT_PRIORITY := 999

  /** strings.Index for one character. */
  function Index(s: string, c: char): (pos: int)
    ensures pos == -1 ==> c !in s
    ensures pos != -1 ==> 0 <= pos < |s| && s[pos] == c && c !in s[..pos]
  {
    if s == "" then -1
    else if s[0] == c then 0
    else
      var rest := Index(s[1..], c);
      assert s == [s[0]] + s[1..];
      if rest == -1 then -1
      else
        assert s[..rest + 1] == [s[0]] + s[1..][..rest];
        rest + 1
  }

  function StripPort(domain: string): string {
    var pos := Index(domain, ':');
    if pos != -1 then domain[..pos] else domain
  }

  /** What is left of a domain is the text before its first colon, or all of it. */
  lemma {:induction false} StripPortMeans(domain: string)
    ensures ':' !in StripPort(domain) && StripPort(domain) <= domain
    ensures StripPort(domain) == domain || domain[|StripPort(domain)|] == ':'
  {
  }

  function StripAll(domains: seq<string>): seq<string> {
    seq(|domains|, i requires 0 <= i < |domains| => StripPort(domains[i]))
  }

  function Hosts(domains: seq<string>): seq<string> {
    if "*" in domains then [] else Sorted(StripAll(domains))
  }

  /** What the hosts of a virtual host mean: the set of domains without ports, or no
      restriction at all. */
  ghost function HostSet(domains: set<string>): set<string> {
    if "*" in domains then {} else set d | d in domains :: StripPort(d)
  }

  /** Hosts are canonical: two domain lists give the same hosts exactly when they mean the same
      set of hosts, whatever the order, the repetitions and the ports. */
  lemma {:induction false} HostsAreCanonical(a: seq<string>, b: seq<string>)
    ensures Hosts(a) == Hosts(b) <==> HostSet(Elements(a)) == HostSet(Elements(b))
  {
    HostsListSet(a);
    HostsListSet(b);
    if Elements(Hosts(a)) == Elements(Hosts(b)) {
      SortedListingUnique(Hosts(a), Hosts(b));
    }
  }

  lemma {:induction false} HostsListSet(domains: seq<string>)
    ensures StrictlySorted(Hosts(domains)) && Elements(Hosts(domains)) == HostSet(Elements(domains))
  {
    SortedListing(StripAll(domains));
    if "*" !in domains {
      forall h | h in HostSet(Elements(domains))
        ensures h in StripAll(domains)
      {
        var d :| d in Elements(domains) && h == StripPort(d);
        var i :| 0 <= i < |domains| && domains[i] == d;
        assert StripAll(domains)[i] == h;
      }
      forall h | h in StripAll(domains)
        ensures h in HostSet(Elements(domains))
      {
        var i :| 0 <= i < |domains| && StripAll(domains)[i] == h;
        assert domains[i] in Elements(domains);
      }
    }
  }

  function OrAnon(name: string): string {
    if name == "" then "<anon>" else name
  }

  function RouteName(prefix: string, vhost: string, name: string): string {
    RemoveAll(OrAnon(name) + "#" + vhost + "#" + prefix, ".svc.cluster.local")
  }

  function Uri(path: PathSpec): Option<string> {
    match path
    case ExactPath(p) => Some(p)
    case PrefixPath(p) => Some(p + "*")
    case OtherPath => None
  }

  /** One route, or None where the code skips it. */
  function TranslateRoute(crc: string -> nat, prefix: string, vhost: string, hosts: seq<string>, r: XdsRoute): Option<Route> {
    if r.caseSensitive == Some(false) || r.cluster.None? || Uri(r.path).None? || r.headerVars.None? then None
    else
      var name := RouteName(prefix, vhost, r.name);
      Some(Route(
        GenId(crc, name), name, if r.name == "allow_any" then 0 else DEFAULT_PRIORITY, 1,
        hosts, [Uri(r.path).value], GenId(crc, r.cluster.value), r.headerVars.value + r.queryVars))
  }

  function TranslateRoutes(crc: string -> nat, prefix: string, vhost: string, hosts: seq<string>, rs: seq<XdsRoute>): seq<Route> {
    if rs == [] then []
    else
      var r := TranslateRoute(crc, prefix, vhost, hosts, rs[|rs| - 1]);
      TranslateRoutes(crc, prefix, vhost, hosts, rs[..|rs| - 1]) + if r.Some? then [r.value] else []
  }

  function TranslateVhost(crc: string -> nat, prefix: string, v: VirtualHost): seq<Route> {
    TranslateRoutes(crc, OrAnon(prefix), v.name, Hosts(v.domains), v.routes)
  }

  function TranslateVhosts(crc: string -> nat, prefix: string, vs: seq<VirtualHost>): seq<Route> {
    if vs == [] then [] else TranslateVhosts(crc, prefix, vs[..|vs| - 1]) + TranslateVhost(crc, prefix, vs[|vs| - 1])
  }

  function OriginalDestination(origDst: string): seq<string> {
    if HasPrefix(origDst, "0.0.0.0:") then ["connection_original_dst", "~~", origDst[|"0.0.0.0:"|..] + "$"]
    else ["connection_original_dst", "==", origDst]
  }

  function Patched(rs: seq<Route>, origDst: string): seq<Route> {
    seq(|rs|, i requires 0 <= i < |rs| => rs[i].(vars := rs[i].vars + [OriginalDestination(origDst)]))
  }

  function Translate(crc: string -> nat, rc: RouteConfiguration, ownership: map<string, string>): seq<Route> {
    var routes := TranslateVhosts(crc, rc.name, rc.vhosts);
    if rc.name in ownership then Patched(routes, ownership[rc.name]) else routes
  }

  /** Two configurations that differ in how they write their domains only. */
  ghost predicate SameButDomains(a: RouteConfiguration, b: RouteConfiguration) {
    && a.name == b.name && |a.vhosts| == |b.vhosts|
    && forall i :: 0 <= i < |a.vhosts| ==>
      && a.vhosts[i].name == b.vhosts[i].name && a.vhosts[i].routes == b.vhosts[i].routes
      && HostSet(Elements(a.vhosts[i].domains)) == HostSet(Elements(b.vhosts[i].domains))
  }

  lemma {:induction false} DomainOrderIrrelevant(crc: string -> nat, a: RouteConfiguration, b: RouteConfiguration, ownership: map<string, string>)
    requires SameButDomains(a, b)
    ensures Translate(crc, a, ownership) == Translate(crc, b, ownership)
  {
    VhostOrderIrrelevant(crc, a, b, |a.vhosts|);
    assert a.vhosts[..|a.vhosts|] == a.vhosts && b.vhosts[..|b.vhosts|] == b.vhosts;
  }

  lemma {:induction false} VhostOrderIrrelevant(crc: string -> nat, a: RouteConfiguration, b: RouteConfiguration, n: nat)
    requires SameButDomains(a, b) && n <= |a.vhosts|
    ensures TranslateVhosts(crc, a.name, a.vhosts[..n]) == TranslateVhosts(crc, b.name, b.vhosts[..n])
  {
    if n > 0 {
      VhostOrderIrrelevant(crc, a, b, n - 1);
      assert a.vhosts[..n][..n - 1] == a.vhosts[..n - 1] && b.vhosts[..n][..n - 1] == b.vhosts[..n - 1];
      HostsAreCanonical(a.vhosts[n - 1].domains, b.vhosts[n - 1].domains);
    }
  }

  /** Hence with distinct route ids a control plane that only rewrites domains causes no event;
      with repeated ids it does exactly when two routes of one id differ. */
  lemma {:induction false} DomainOrderCausesNoEvents(crc: string -> nat, a: RouteConfiguration, b: RouteConfiguration, ownership: map<string, string>)
    requires SameButDomains(a, b)
    ensures var routes := Translate(crc, a, ownership);
      DiffEvents(Some(Manifest(routes, [])), Some(Manifest(Translate(crc, b, ownership), []))) == [] <==>
        forall r, q :: r in routes && q in routes && r.id == q.id ==> r == q
  {
    DomainOrderIrrelevant(crc, a, b, ownership);
    var routes := Translate(crc, a, ownership);
    EmptyDiff(RouteId, routes, routes);
    LastWinsEntries(RouteId, routes);
    var w := LastWins(RouteId, routes);
    assert forall r :: r in routes ==> r.id in w && w[r.id] in routes && RouteId(w[r.id]) == r.id by {
      forall r | r in routes
        ensures r.id in w
      {
        assert RouteId(r) in Ids(RouteId, routes);
      }
    }
    RoutesOnly(routes);
  }

  lemma {:induction false} RoutesOnly(routes: seq<Route>)
    ensures DiffEvents(Some(Manifest(routes, [])), Some(Manifest(routes, []))) == [] <==>
      Compare(RouteId, routes, routes) == Changes([], [], [])
  {
    var c := Compare(RouteId, routes, routes);
    assert Compare(UpstreamId, [], []) == Changes([], [], []) by {
      EmptySides(UpstreamId, [], []);
    }
    assert |DiffEvents(Some(Manifest(routes, [])), Some(Manifest(routes, [])))| == |c.added| + |c.deleted| + |c.updated|;
  }

  function UnnamedRoute(path: string): XdsRoute {
    XdsRoute("", None, Some("c"), ExactPath(path), [], Some([]))
  }

  /** A concrete one: two unnamed routes of one virtual host share an id, so that a configuration
      sent again unchanged still updates. */
  lemma {:induction false} UnnamedRoutesKeepUpdating(crc: string -> nat, path1: string, path2: string)
    requires path1 != path2
    ensures var routes := Translate(crc, RouteConfiguration("rc", [VirtualHost("v", [], [UnnamedRoute(path1), UnnamedRoute(path2)])]), map[]);
      DiffEvents(Some(Manifest(routes, [])), Some(Manifest(routes, []))) != []
  {
    var v := VirtualHost("v", [], [UnnamedRoute(path1), UnnamedRoute(path2)]);
    var rc := RouteConfiguration("rc", [v]);
    DomainOrderCausesNoEvents(crc, rc, rc, map[]);
    OneVirtualHost(crc, "rc", v);
    TwoRoutes(crc, OrAnon("rc"), "v", Hosts([]), v.routes[0], v.routes[1]);
    var r := TranslateRoute(crc, OrAnon("rc"), "v", Hosts([]), v.routes[0]).value;
    var q := TranslateRoute(crc, OrAnon("rc"), "v", Hosts([]), v.routes[1]).value;
    assert r.uris[0] == path1 && q.uris[0] == path2 && r.id == q.id;
    assert r in [r, q] && q in [r, q];
  }

  lemma {:induction false} OneVirtualHost(crc: string -> nat, name: string, v: VirtualHost)
    ensures Translate(crc, RouteConfiguration(name, [v]), map[]) == TranslateVhost(crc, name, v)
  {
    var vs := [v];
    assert vs[..|vs| - 1] == [] && vs[|vs| - 1] == v;
    assert TranslateVhosts(crc, name, vs) == TranslateVhosts(crc, name, []) + TranslateVhost(crc, name, v);
  }

  lemma {:induction false} TwoRoutes(crc: string -> nat, prefix: string, vhost: string, hosts: seq<string>, a: XdsRoute, b: XdsRoute)
    ensures var r, q := TranslateRoute(crc, prefix, vhost, hosts, a), TranslateRoute(crc, prefix, vhost, hosts, b);
      r.Some? && q.Some? ==> TranslateRoutes(crc, prefix, vhost, hosts, [a, b]) == [r.value, q.value]
  {
    assert [a, b][..1] == [a] && [a][..0] == [];
    assert TranslateRoutes(crc, prefix, vhost, hosts, []) == [];
  }

  /** translateVirtualHost. */
  method TranslateVirtualHost(crc: string -> nat, prefix0: string, vhost: VirtualHost) returns (routes: seq<Route>)
    ensures routes == TranslateVhost(crc, prefix0, vhost)
  {
    var prefix := prefix0;
    if prefix == "" {
      prefix := "<anon>";
    }
    var hosts := CollectHosts(vhost.domains);
    routes := [];
    for i := 0 to |vhost.routes|
      invariant routes == TranslateRoutes(crc, prefix, vhost.name, hosts, vhost.routes[..i])
    {
      assert vhost.routes[..i + 1][..i] == vhost.routes[..i];
      var route := vhost.routes[i];
      if route.caseSensitive.Some? && !route.caseSensitive.value {
        continue;
      }
      if route.cluster.None? {
        continue;
      }
      var uri := Uri(route.path);
      if uri.None? {
        continue;
      }
      var name := route.name;
      if name == "" {
        name := "<anon>";
      }
      var priority := DEFAULT_PRIORITY;
      if name == "allow_any" {
        priority := 0;
      }
      if route.headerVars.None? {
        continue;
      }
      var vars := route.headerVars.value + route.queryVars;
      name := RemoveAll(name + "#" + vhost.name + "#" + prefix, ".svc.cluster.local");
      routes := routes + [Route(GenId(crc, name), name, priority, 1, hosts, [uri.value], GenId(crc, route.cluster.value), vars)];
    }
    assert vhost.routes[..|vhost.routes|] == vhost.routes;
  }

  /** The domain loop, which a "*" leaves at once with an empty set. */
  method CollectHosts(domains: seq<string>) returns (hosts: seq<string>)
    ensures hosts == Hosts(domains)
  {
    var hostSet: set<string> := {};
    var i := 0;
    while i < |domains|
      invariant 0 <= i <= |domains|
      invariant "*" !in domains[..i]
      invariant hostSet == Elements(StripAll(domains)[..i])
    {
      var domain := domains[i];
      if domain == "*" {
        hostSet := {};
        break;
      }
      assert domains[..i + 1] == domains[..i] + [domain];
      assert StripAll(domains)[..i + 1] == StripAll(domains)[..i] + [StripPort(domain)];
      ElementsAppend(StripAll(domains)[..i], [StripPort(domain)]);
      var pos := Index(domain, ':');
      if pos != -1 {
        domain := domain[..pos];
      }
      hostSet := hostSet + {domain};
      i := i + 1;
    }
    if i < |domains| {
      assert domains[i] in domains;
      assert Elements([]) == {};
    } else {
      assert domains[..i] == domains && StripAll(domains)[..i] == StripAll(domains);
      SortedListing(StripAll(domains));
    }
    hosts := OrderedStrings(hostSet);
    assert StrictlySorted([]);
    SortedListingUnique(hosts, Hosts(domains));
  }

  /** patchRoutesWithOriginalDestination changes the routes where they are. */
  method PatchRoutes(routes: array<Route>, origDst: string)
    modifies routes
    ensures routes[..] == Patched(old(routes[..]), origDst)
  {
    var v := OriginalDestination(origDst);
    for i := 0 to routes.Length
      invariant forall k :: 0 <= k < i ==> routes[k] == old(routes[k]).(vars := old(routes[k]).vars + [v])
      invariant forall k :: i <= k < routes.Length ==> routes[k] == old(routes[k])
    {
      routes[i] := routes[i].(vars := routes[i].vars + [v]);
    }
  }

  method TranslateRouteConfiguration(crc: string -> nat, rc: RouteConfiguration, ownership: map<string, string>) returns (routes: seq<Route>)
    ensures routes == Translate(crc, rc, ownership)
  {
    routes := [];
    for i := 0 to |rc.vhosts|
      invariant routes == TranslateVhosts(crc, rc.name, rc.vhosts[..i])
    {
      assert rc.vhosts[..i + 1][..i] == rc.vhosts[..i];
      var partial := TranslateVirtualHost(crc, rc.name, rc.vhosts[i]);
      routes := routes + partial;
    }
    assert rc.vhosts[..|rc.vhosts|] == rc.vhosts;
    if rc.name in ownership {
      routes := PatchFresh(routes, ownership[rc.name]);
    }
  }

  method PatchFresh(translated: seq<Route>, origDst: string) returns (routes: seq<Route>)
    ensures routes == Patched(translated, origDst)
  {
    var a := new Route[|translated|](i requires 0 <= i < |translated| => translated[i]);
    assert a[..] == translated;
    PatchRoutes(a, origDst);
    routes := a[..];
  }

  datatype PortSpec = PortValue(port: nat) | NamedPort | NoPort

  datatype Address = SocketAddress(tcp: bool, host: string, port: PortSpec) | OtherAddress

  datatype LbEndpoint = LbEndpoint(weight: Option<nat>, address: Address)

  datatype Locality = Locality(weight: Option<nat>, endpoints: seq<LbEndpoint>)

  datatype Assignment = Assignment(clusterName: string, localities: seq<Locality>)

  datatype LbPolicy = RoundRobin | LeastRequest | OtherPolicy

  datatype Discovery = CustomDiscovery | EdsDiscovery | InlineDiscovery(assignment: Assignment)

  datatype Cluster = Cluster(name: string, policy: LbPolicy, connectTimeout: Option<int>, discovery: Discovery)

  /** int32 of a uint32. */
  function ToInt32(n: nat): int {
    var m := n % 0x1_0000_0000;
    if m < 0x8000_0000 then m else m - 0x1_0000_0000
  }

  predicate Usable(e: LbEndpoint) {
    e.address.SocketAddress? && e.address.tcp && !e.address.port.NamedPort?
  }

  function NodeOf(locality: Locality, e: LbEndpoint): Node
    requires Usable(e)
  {
    Node(
      e.address.host,
      if e.address.port.PortValue? then ToInt32(e.address.port.port) else 0,
      if e.weight.Some? then ToInt32(e.weight.value)
      else if locality.weight.Some? then ToInt32(locality.weight.value) else 100)
  }

  function LocalityNodes(locality: Locality, es: seq<LbEndpoint>): seq<Node> {
    if es == [] then []
    else
      LocalityNodes(locality, es[..|es| - 1]) +
      if Usable(es[|es| - 1]) then [NodeOf(locality, es[|es| - 1])] else []
  }

  function Nodes(localities: seq<Locality>): seq<Node> {
    if localities == [] then []
    else Nodes(localities[..|localities| - 1]) + LocalityNodes(localities[|localities| - 1], localities[|localities| - 1].endpoints)
  }

  lemma {:induction false} LocalityNodesComeFromEndpoints(locality: Locality, es: seq<LbEndpoint>, n: Node)
    ensures n in LocalityNodes(locality, es) <==> exists e :: e in es && Usable(e) && n == NodeOf(locality, e)
  {
    if es != [] {
      LocalityNodesComeFromEndpoints(locality, es[..|es| - 1], n);
      assert es == es[..|es| - 1] + [es[|es| - 1]];
    }
  }

  /** The nodes are exactly those of the usable endpoints: TCP sockets without a named port,
      under the endpoint's weight, else its locality's, else 100. */
  lemma {:induction false} NodesComeFromEndpoints(localities: seq<Locality>, n: Node)
    ensures n in Nodes(localities) <==>
      exists l, e :: l in localities && e in l.endpoints && Usable(e) && n == NodeOf(l, e)
  {
    if localities != [] {
      var last := localities[|localities| - 1];
      NodesComeFromEndpoints(localities[..|localities| - 1], n);
      LocalityNodesComeFromEndpoints(last, last.endpoints, n);
      assert localities == localities[..|localities| - 1] + [last];
    }
  }

  /** The value of a uint32 that does not fit an int32 wraps around. */
  lemma {:induction false} ToInt32Means(n: nat)
    ensures -0x8000_0000 <= ToInt32(n) < 0x8000_0000 && (n - ToInt32(n)) % 0x1_0000_0000 == 0
    ensures n < 0x8000_0000 ==> ToInt32(n) == n
  {
  }

  predicate HasNode(e: LbEndpoint) {
    match e.address
    case SocketAddress(tcp, _, port) => tcp && port != NamedPort
    case OtherAddress => false
  }

  /** The node of an endpoint, field by field. */
  ghost predicate IsNodeOf(n: Node, locality: Locality, e: LbEndpoint)
    requires HasNode(e)
  {
    && n.host == e.address.host
    && (e.address.port.PortValue? ==> n.port == ToInt32(e.address.port.port))
    && (e.address.port.NoPort? ==> n.port == 0)
    && (e.weight.Some? ==> n.weight == ToInt32(e.weight.value))
    && (e.weight.None? && locality.weight.Some? ==> n.weight == ToInt32(locality.weight.value))
    && (e.weight.None? && locality.weight.None? ==> n.weight == 100)
  }

  /** One endpoint gives one node or none, and one locality those of its endpoints. */
  lemma {:induction false} EndpointMeans(locality: Locality, e: LbEndpoint)
    ensures HasNode(e) ==> |LocalityNodes(locality, [e])| == 1 && IsNodeOf(LocalityNodes(locality, [e])[0], locality, e)
    ensures !HasNode(e) ==> LocalityNodes(locality, [e]) == []
    ensures Nodes([locality]) == LocalityNodes(locality, locality.endpoints)
  {
    assert [e][..0] == [];
    assert [locality][..0] == [];
    assert Nodes([locality]) == Nodes([]) + LocalityNodes(locality, locality.endpoints);
  }

  /** In order and with repetitions: the nodes of two lists of localities, or of endpoints, are
      those of the first and then those of the second. */
  lemma {:induction false} NodesAppend(a: seq<Locality>, b: seq<Locality>)
    ensures Nodes(a + b) == Nodes(a) + Nodes(b)
  {
    if b == [] {
      assert a + b == a;
    } else {
      var front, last := b[..|b| - 1], b[|b| - 1];
      NodesAppend(a, front);
      assert (a + b)[..|a + b| - 1] == a + front;
      Associative(Nodes(a), Nodes(front), LocalityNodes(last, last.endpoints));
    }
  }

  lemma {:induction false} LocalityNodesAppend(locality: Locality, a: seq<LbEndpoint>, b: seq<LbEndpoint>)
    ensures LocalityNodes(locality, a + b) == LocalityNodes(locality, a) + LocalityNodes(locality, b)
  {
    if b == [] {
      assert a + b == a;
    } else {
      var front, last := b[..|b| - 1], b[|b| - 1];
      LocalityNodesAppend(locality, a, front);
      assert (a + b)[..|a + b| - 1] == a + front;
      Associative(LocalityNodes(locality, a), LocalityNodes(locality, front), if Usable(last) then [NodeOf(locality, last)] else []);
    }
  }

  method TranslateClusterLoadAssignment(la: Assignment) returns (nodes: seq<Node>)
    ensures nodes == Nodes(la.localities)
  {
    nodes := [];
    for i := 0 to |la.localities|
      invariant nodes == Nodes(la.localities[..i])
    {
      assert la.localities[..i + 1][..i] == la.localities[..i];
      var eps := la.localities[i];
      ghost var before := nodes;
      var weight := if eps.weight.Some? then ToInt32(eps.weight.value) else 100;
      for j := 0 to |eps.endpoints|
        invariant nodes == before + LocalityNodes(eps, eps.endpoints[..j])
      {
        assert eps.endpoints[..j + 1][..j] == eps.endpoints[..j];
        var ep := eps.endpoints[j];
        var node := Node("", 0, weight);
        if ep.weight.Some? {
          node := node.(weight := ToInt32(ep.weight.value));
        }
        match ep.address {
          case SocketAddress(tcp, host, port) =>
            if !tcp {
              continue;
            }
            node := node.(host := host);
            match port {
              case PortValue(p) => node := node.(port := ToInt32(p));
              case NamedPort => continue;
              case NoPort =>
            }
          case OtherAddress => continue;
        }
        nodes := nodes + [node];
      }
      assert eps.endpoints[..|eps.endpoints|] == eps.endpoints;
    }
    assert la.localities[..|la.localities|] == la.localities;
  }

  datatype ClusterOutcome = Translated(ups: Upstream) | NeedsEds(bare: Upstream) | Unsupported

  function BareUpstream(crc: string -> nat, c: Cluster): Upstream {
    Upstream(GenId(crc, c.name), c.name,
             if c.policy == RoundRobin then "roundrobin" else "least_conn",
             if c.connectTimeout.Some? then Some(Timeout(c.connectTimeout.value, 60, 60)) else None,
             [])
  }

  function TranslateClusterSpec(crc: string -> nat, c: Cluster): ClusterOutcome {
    if c.policy == OtherPolicy || c.discovery.CustomDiscovery? then Unsupported
    else if c.discovery.EdsDiscovery? then NeedsEds(BareUpstream(crc, c))
    else Translated(BareUpstream(crc, c).(nodes := Nodes(c.discovery.assignment.localities)))
  }

  /** TranslateCluster with its three helpers, which fill the upstream field by field. */
  method TranslateCluster(crc: string -> nat, c: Cluster) returns (outcome: ClusterOutcome)
    ensures outcome == TranslateClusterSpec(crc, c)
  {
    var ups := Upstream(GenId(crc, c.name), c.name, "", None, []);
    match c.policy {
      case RoundRobin => ups := ups.(lbType := "roundrobin");
      case LeastRequest => ups := ups.(lbType := "least_conn");
      case OtherPolicy => return Unsupported;
    }
    if c.connectTimeout.Some? {
      ups := ups.(timeout := Some(Timeout(c.connectTimeout.value, 60, 60)));
    }
    match c.discovery {
      case CustomDiscovery => return Unsupported;
      case EdsDiscovery => return NeedsEds(ups);
      case InlineDiscovery(la) =>
        var nodes := TranslateClusterLoadAssignment(la);
        ups := ups.(nodes := nodes);
        return Translated(ups);
    }
  }

  predicate Served(c: Cluster) {
    (c.policy == RoundRobin || c.policy == LeastRequest) && !c.discovery.CustomDiscovery?
  }

  /** The upstream of a cluster, field by field. */
  ghost predicate IsUpstreamOf(crc: string -> nat, u: Upstream, c: Cluster) {
    && u.id == GenId(crc, c.name) && u.name == c.name
    && (c.policy == RoundRobin ==> u.lbType == "roundrobin")
    && (c.policy == LeastRequest ==> u.lbType == "least_conn")
    && (c.connectTimeout.None? ==> u.timeout == None)
    && (c.connectTimeout.Some? ==> u.timeout == Some(Timeout(c.connectTimeout.value, 60, 60)))
    && (c.discovery.EdsDiscovery? ==> u.nodes == [])
    && (c.discovery.InlineDiscovery? ==> u.nodes == Nodes(c.discovery.assignment.localities))
  }

  /** A cluster is served unless its balancer or its discovery is not supported; it needs EDS
      exactly when it says so. */
  lemma {:induction false} ClusterMeans(crc: string -> nat, c: Cluster)
    ensures var o := TranslateClusterSpec(crc, c);
      && (o.Unsupported? <==> !Served(c))
      && (o.NeedsEds? <==> Served(c) && c.discovery.EdsDiscovery?)
      && (o.Translated? ==> IsUpstreamOf(crc, o.ups, c))
      && (o.NeedsEds? ==> IsUpstreamOf(crc, o.bare, c))
  {
  }
}
