/** What a route configuration translates to, said of its virtual hosts and routes alone, and how
    routes refer to upstreams: pkg/adaptor/xds/v3/route.go and cluster.go. */
module RouteLaws {
  import opened Objects
  import opened Strings
  import opened StringSets
  import opened Adaptor
  import opened ProvisionerModel

  /** Routes with a case-insensitive match, an action or a path that is not supported, or a header
      matcher that is not, are skipped. */
  predicate ServedRoute(x: XdsRoute) {
    && x.caseSensitive != Some(false) && x.cluster.Some? && x.headerVars.Some?
    && (x.path.ExactPath? || x.path.PrefixPath?)
  }

  /** The place of a served route: virtual host and route. */
  ghost predicate RouteAt(rc: RouteConfiguration, at: (int, int)) {
    0 <= at.0 < |rc.vhosts| && 0 <= at.1 < |rc.vhosts[at.0].routes| && ServedRoute(rc.vhosts[at.0].routes[at.1])
  }

  predicate Precedes(a: (int, int), b: (int, int)) {
    a.0 < b.0 || (a.0 == b.0 && a.1 < b.1)
  }

  function Shown(name: string): string {
    if name == "" then "<anon>" else name
  }

  /** The route of x in virtual host v of a configuration, field by field. */
  ghost predicate IsRouteOf(crc: string -> nat, r: Route, prefix: string, v: VirtualHost, x: XdsRoute)
    requires ServedRoute(x)
  {
    && r.name == RemoveAll(Shown(x.name) + "#" + v.name + "#" + Shown(prefix), ".svc.cluster.local")
    && r.id == GenId(crc, r.name)
    && r.status == 1
    && (x.name == "allow_any" ==> r.priority == 0)
    && (x.name != "allow_any" ==> r.priority == 999)
    && (x.path.ExactPath? ==> r.uris == [x.path.path])
    && (x.path.PrefixPath? ==> r.uris == [x.path.prefix + "*"])
    && r.upstreamId == GenId(crc, x.cluster.value)
    && StrictlySorted(r.hosts)
    && ("*" in v.domains ==> r.hosts == [])
    && ("*" !in v.domains ==> forall h :: h in r.hosts <==> exists d :: d in v.domains && h == StripPort(d))
  }

  /** The condition on the original destination that an owned configuration's routes get. */
  ghost predicate IsDestination(cond: seq<string>, owner: string) {
    && |cond| == 3 && cond[0] == "connection_original_dst"
    && (forall port :: owner == "0.0.0.0:" + port ==> cond[1] == "~~" && cond[2] == port + "$")
    && ((forall port :: owner != "0.0.0.0:" + port) ==> cond[1] == "==" && cond[2] == owner)
  }

  /** The variables: of headers, then of the query, then the destination if there is an owner. */
  ghost predicate IsVars(vars: seq<seq<string>>, x: XdsRoute, name: string, ownership: map<string, string>)
    requires ServedRoute(x)
  {
    if name in ownership then
      |vars| > 0 && vars[..|vars| - 1] == x.headerVars.value + x.queryVars && IsDestination(vars[|vars| - 1], ownership[name])
    else vars == x.headerVars.value + x.queryVars
  }

  lemma {:induction false} DestinationMeans(owner: string)
    ensures IsDestination(OriginalDestination(owner), owner)
  {
    var wild := "0.0.0.0:";
    if HasPrefix(owner, wild) {
      assert owner == wild + owner[|wild|..];
      forall port | owner == wild + port
        ensures port == owner[|wild|..]
      {
      }
    } else {
      forall port
        ensures owner != wild + port
      {
        assert owner == wild + port ==> wild <= owner;
      }
    }
  }

  lemma {:induction false} HostsMean(domains: seq<string>)
    ensures StrictlySorted(Hosts(domains))
    ensures "*" in domains ==> Hosts(domains) == []
    ensures "*" !in domains ==> forall h :: h in Hosts(domains) <==> exists d :: d in domains && h == StripPort(d)
  {
    HostsListSet(domains);
    if "*" !in domains {
      forall h
        ensures h in Hosts(domains) <==> exists d :: d in domains && h == StripPort(d)
      {
        assert h in Hosts(domains) <==> h in Elements(Hosts(domains));
        assert forall d :: d in Elements(domains) <==> d in domains;
      }
    }
  }

  /** One route is translated exactly when it is served. */
  lemma {:induction false} RouteMeans(crc: string -> nat, prefix: string, v: VirtualHost, x: XdsRoute)
    ensures var r := TranslateRoute(crc, OrAnon(prefix), v.name, Hosts(v.domains), x);
      && (r.Some? <==> ServedRoute(x))
      && (r.Some? ==> IsBareRoute(crc, r.value, prefix, v, x))
  {
    HostsMean(v.domains);
  }

  /** The route of x before there is an owner. */
  ghost predicate IsBareRoute(crc: string -> nat, r: Route, prefix: string, v: VirtualHost, x: XdsRoute) {
    ServedRoute(x) && IsRouteOf(crc, r, prefix, v, x) && r.vars == x.headerVars.value + x.queryVars
  }

  /** ks tells for each route of a virtual host which of its routes it comes from: the served
      ones, each once and in order. */
  ghost predicate HostRoutes(crc: string -> nat, prefix: string, v: VirtualHost, xs: seq<XdsRoute>, rs: seq<Route>, ks: seq<int>) {
    && |ks| == |rs|
    && (forall q :: 0 <= q < |rs| ==> 0 <= ks[q] < |xs| && IsBareRoute(crc, rs[q], prefix, v, xs[ks[q]]))
    && (forall q, r :: 0 <= q < r < |rs| ==> ks[q] < ks[r])
    && (forall k :: 0 <= k < |xs| && ServedRoute(xs[k]) ==> k in ks)
  }

  lemma {:induction false} HostSkips(crc: string -> nat, prefix: string, v: VirtualHost, xs: seq<XdsRoute>, rs: seq<Route>, ks: seq<int>, x: XdsRoute)
    requires HostRoutes(crc, prefix, v, xs, rs, ks) && !ServedRoute(x)
    ensures HostRoutes(crc, prefix, v, xs + [x], rs, ks)
  {
    forall k | 0 <= k < |xs + [x]| && ServedRoute((xs + [x])[k])
      ensures k in ks
    {
      assert ServedRoute(xs[k]);
    }
  }

  lemma {:induction false} HostAdds(crc: string -> nat, prefix: string, v: VirtualHost, xs: seq<XdsRoute>, rs: seq<Route>, ks: seq<int>, x: XdsRoute, r: Route)
    requires HostRoutes(crc, prefix, v, xs, rs, ks) && IsBareRoute(crc, r, prefix, v, x)
    ensures HostRoutes(crc, prefix, v, xs + [x], rs + [r], ks + [|xs|])
  {
    var xs', rs', ks' := xs + [x], rs + [r], ks + [|xs|];
    forall k | 0 <= k < |xs'| && ServedRoute(xs'[k])
      ensures k in ks'
    {
      assert k < |xs| ==> ServedRoute(xs[k]) && k in ks;
      assert ks'[|ks|] == |xs|;
    }
    forall q | 0 <= q < |rs'|
      ensures 0 <= ks'[q] < |xs'| && IsBareRoute(crc, rs'[q], prefix, v, xs'[ks'[q]])
    {
      if q < |rs| {
        assert IsBareRoute(crc, rs[q], prefix, v, xs[ks[q]]);
      }
    }
  }

  lemma {:induction false} RoutesOfHost(crc: string -> nat, prefix: string, v: VirtualHost, xs: seq<XdsRoute>) returns (ks: seq<int>)
    ensures HostRoutes(crc, prefix, v, xs, TranslateRoutes(crc, OrAnon(prefix), v.name, Hosts(v.domains), xs), ks)
  {
    if xs == [] {
      ks := [];
    } else {
      var front, x := xs[..|xs| - 1], xs[|xs| - 1];
      ks := RoutesOfHost(crc, prefix, v, front);
      RouteMeans(crc, prefix, v, x);
      var before := TranslateRoutes(crc, OrAnon(prefix), v.name, Hosts(v.domains), front);
      assert xs == front + [x];
      if ServedRoute(x) {
        HostAdds(crc, prefix, v, front, before, ks, x, TranslateRoute(crc, OrAnon(prefix), v.name, Hosts(v.domains), x).value);
        ks := ks + [|front|];
      } else {
        HostSkips(crc, prefix, v, front, before, ks, x);
        assert before + [] == before;
      }
    }
  }

  /** The same for a whole configuration, before it is patched. */
  ghost predicate ConfigRoutes(crc: string -> nat, rc: RouteConfiguration, rs: seq<Route>, places: seq<(int, int)>) {
    && |places| == |rs|
    && (forall q :: 0 <= q < |rs| ==> ComesFrom(crc, rc, rs[q], places[q]))
    && (forall q, r :: 0 <= q < r < |rs| ==> Precedes(places[q], places[r]))
    && (forall at :: RouteAt(rc, at) ==> at in places)
  }

  ghost predicate ComesFrom(crc: string -> nat, rc: RouteConfiguration, r: Route, at: (int, int)) {
    RouteAt(rc, at) && IsBareRoute(crc, r, rc.name, rc.vhosts[at.0], rc.vhosts[at.0].routes[at.1])
  }

  function Under(n: int, ks: seq<int>): seq<(int, int)> {
    seq(|ks|, q requires 0 <= q < |ks| => (n, ks[q]))
  }

  lemma {:induction false} ConfigRoutesJoin(crc: string -> nat, rc: RouteConfiguration, v: VirtualHost, rs: seq<Route>, places: seq<(int, int)>,
                                            more: seq<Route>, ks: seq<int>)
    requires ConfigRoutes(crc, rc, rs, places) && HostRoutes(crc, rc.name, v, v.routes, more, ks)
    ensures ConfigRoutes(crc, rc.(vhosts := rc.vhosts + [v]), rs + more, places + Under(|rc.vhosts|, ks))
  {
    var n, rc' := |rc.vhosts|, rc.(vhosts := rc.vhosts + [v]);
    var all, whole := places + Under(n, ks), rs + more;
    forall q | 0 <= q < |whole|
      ensures ComesFrom(crc, rc', whole[q], all[q])
    {
      if q < |rs| {
        assert ComesFrom(crc, rc, rs[q], places[q]);
      } else {
        assert IsBareRoute(crc, more[q - |rs|], rc.name, v, v.routes[ks[q - |rs|]]);
      }
    }
    PlacesJoin(crc, rc, v, rs, places, more, ks);
  }

  lemma {:induction false} PlacesJoin(crc: string -> nat, rc: RouteConfiguration, v: VirtualHost, rs: seq<Route>, places: seq<(int, int)>,
                                      more: seq<Route>, ks: seq<int>)
    requires ConfigRoutes(crc, rc, rs, places) && HostRoutes(crc, rc.name, v, v.routes, more, ks)
    ensures var all := places + Under(|rc.vhosts|, ks);
      && (forall q, r :: 0 <= q < r < |all| ==> Precedes(all[q], all[r]))
      && (forall at :: RouteAt(rc.(vhosts := rc.vhosts + [v]), at) ==> at in all)
  {
    var n, all := |rc.vhosts|, places + Under(|rc.vhosts|, ks);
    forall q, r | 0 <= q < r < |all|
      ensures Precedes(all[q], all[r])
    {
      if r < |rs| {
        assert Precedes(places[q], places[r]);
      } else if q < |rs| {
        assert ComesFrom(crc, rc, rs[q], places[q]);
      } else {
        assert ks[q - |rs|] < ks[r - |rs|];
      }
    }
    forall at | RouteAt(rc.(vhosts := rc.vhosts + [v]), at)
      ensures at in all
    {
      if at.0 == n {
        var q :| 0 <= q < |ks| && ks[q] == at.1;
        assert all[|places| + q] == at;
      } else {
        assert RouteAt(rc, at);
      }
    }
  }

  lemma {:induction false} RoutesOfConfig(crc: string -> nat, rc: RouteConfiguration, n: nat) returns (places: seq<(int, int)>)
    requires n <= |rc.vhosts|
    ensures ConfigRoutes(crc, rc.(vhosts := rc.vhosts[..n]), TranslateVhosts(crc, rc.name, rc.vhosts[..n]), places)
  {
    if n == 0 {
      places := [];
    } else {
      var front, v := rc.(vhosts := rc.vhosts[..n - 1]), rc.vhosts[n - 1];
      places := RoutesOfConfig(crc, rc, n - 1);
      var ks := RoutesOfHost(crc, rc.name, v, v.routes);
      ConfigRoutesJoin(crc, front, v, TranslateVhosts(crc, rc.name, front.vhosts), places, TranslateVhost(crc, rc.name, v), ks);
      assert rc.vhosts[..n] == front.vhosts + [v];
      assert rc.vhosts[..n][..n - 1] == front.vhosts;
      places := places + Under(|front.vhosts|, ks);
    }
  }

  /** The routes of a configuration, with an owner or without. */
  ghost predicate TranslatedAsSaid(crc: string -> nat, rc: RouteConfiguration, ownership: map<string, string>, rs: seq<Route>, places: seq<(int, int)>) {
    && |places| == |rs|
    && (forall q :: 0 <= q < |rs| ==> RouteAt(rc, places[q]) && Gives(crc, rc, places[q], ownership, rs[q]))
    && (forall q, r :: 0 <= q < r < |rs| ==> Precedes(places[q], places[r]))
    && (forall at :: RouteAt(rc, at) ==> at in places)
  }

  ghost predicate Gives(crc: string -> nat, rc: RouteConfiguration, at: (int, int), ownership: map<string, string>, r: Route)
    requires RouteAt(rc, at)
  {
    var v := rc.vhosts[at.0];
    IsRouteOf(crc, r, rc.name, v, v.routes[at.1]) && IsVars(r.vars, v.routes[at.1], rc.name, ownership)
  }

  /** A configuration translates to one route for each served route of each virtual host, in order,
      each with the fields that its route, its virtual host and the owner say. */
  lemma {:induction false} TranslateMeans(crc: string -> nat, rc: RouteConfiguration, ownership: map<string, string>) returns (places: seq<(int, int)>)
    ensures TranslatedAsSaid(crc, rc, ownership, Translate(crc, rc, ownership), places)
  {
    places := RoutesOfConfig(crc, rc, |rc.vhosts|);
    assert rc.vhosts[..|rc.vhosts|] == rc.vhosts && rc.(vhosts := rc.vhosts) == rc;
    var bare, routes := TranslateVhosts(crc, rc.name, rc.vhosts), Translate(crc, rc, ownership);
    forall q | 0 <= q < |routes|
      ensures RouteAt(rc, places[q]) && Gives(crc, rc, places[q], ownership, routes[q])
    {
      assert ComesFrom(crc, rc, bare[q], places[q]);
      if rc.name in ownership {
        DestinationMeans(ownership[rc.name]);
      }
    }
  }

  /** So a route is among the translated ones if and only if some served route gives it. */
  lemma {:induction false} TranslatedIff(crc: string -> nat, rc: RouteConfiguration, ownership: map<string, string>, r: Route)
    ensures r in Translate(crc, rc, ownership) ==> exists at :: RouteAt(rc, at) && Gives(crc, rc, at, ownership, r)
    ensures forall at :: RouteAt(rc, at) ==> exists r' :: r' in Translate(crc, rc, ownership) && Gives(crc, rc, at, ownership, r')
  {
    var places := TranslateMeans(crc, rc, ownership);
    var routes := Translate(crc, rc, ownership);
    if r in routes {
      var q :| 0 <= q < |routes| && routes[q] == r;
      assert RouteAt(rc, places[q]) && Gives(crc, rc, places[q], ownership, r);
    }
    forall at | RouteAt(rc, at)
      ensures exists r' :: r' in routes && Gives(crc, rc, at, ownership, r')
    {
      var q :| 0 <= q < |places| && places[q] == at;
      assert Gives(crc, rc, at, ownership, routes[q]);
    }
  }

  // ---------------------------------------------------------------- routes and upstreams

  /** A translated route refers to the upstream of its cluster: whatever served cluster has the name
      that the route gives. */
  lemma {:induction false} RouteRefersToCluster(crc: string -> nat, rc: RouteConfiguration, at: (int, int), ownership: map<string, string>, r: Route, c: Cluster)
    requires RouteAt(rc, at) && Gives(crc, rc, at, ownership, r)
    requires rc.vhosts[at.0].routes[at.1].cluster == Some(c.name) && Served(c)
    ensures match TranslateClusterSpec(crc, c)
      case Unsupported => false
      case Translated(u) => u.id == r.upstreamId
      case NeedsEds(u) => u.id == r.upstreamId
  {
    ClusterMeans(crc, c);
  }

  /** With the snapshot in the cache, a route is served by a cached upstream if and only if the
      provisioner knows its cluster, and then by that very upstream. */
  lemma {:induction false} RouteIsBackedIff(crc: string -> nat, names: set<string>, p: Prov, s: Store,
                                            rc: RouteConfiguration, at: (int, int), ownership: map<string, string>, r: Route)
    requires Injective(crc, names) && Named(crc, names, p.upstreams) && Sync(p, s)
    requires RouteAt(rc, at) && Gives(crc, rc, at, ownership, r) && rc.vhosts[at.0].routes[at.1].cluster.value in names
    ensures var name := rc.vhosts[at.0].routes[at.1].cluster.value;
      && (r.upstreamId in s.upstreams <==> name in p.upstreams)
      && (name in p.upstreams ==> s.upstreams[r.upstreamId] == p.upstreams[name])
  {
    var name := rc.vhosts[at.0].routes[at.1].cluster.value;
    if r.upstreamId in s.upstreams {
      var n :| n in p.upstreams && p.upstreams[n].id == r.upstreamId;
      assert GenId(crc, n) == GenId(crc, name);
    }
  }
}
