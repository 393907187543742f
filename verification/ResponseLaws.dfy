/** What the gRPC provisioner makes of each kind of response, said of its resources alone:
    pkg/provisioner/xds/v3/grpc/types.go. */
module ResponseLaws {
  import opened Objects
  import opened Strings
  import opened StringSets
  import opened Manifests
  import opened Adaptor
  import opened ProvisionerModel

  // ---------------------------------------------------------------- RDS

  ghost predicate BlockAt(crc: string -> nat, rs: seq<XdsResource>, ownership: map<string, string>, routes: seq<Route>, cuts: seq<int>, i: int)
    requires |cuts| == |rs| + 1 && 0 <= i < |rs|
  {
    && 0 <= cuts[i] <= cuts[i + 1] <= |routes|
    && rs[i].RouteRes? && routes[cuts[i]..cuts[i + 1]] == Translate(crc, rs[i].rc, ownership)
  }

  /** routes falls into one block for each route configuration, in order; cuts are where the
      blocks begin and end. */
  ghost predicate Blocks(crc: string -> nat, rs: seq<XdsResource>, ownership: map<string, string>, routes: seq<Route>, cuts: seq<int>) {
    && |cuts| == |rs| + 1 && cuts[0] == 0 && cuts[|rs|] == |routes|
    && forall i :: 0 <= i < |rs| ==> BlockAt(crc, rs, ownership, routes, cuts, i)
  }

  lemma {:induction false} BlocksSnoc(crc: string -> nat, rs: seq<XdsResource>, rc: RouteConfiguration, ownership: map<string, string>, routes: seq<Route>, cuts: seq<int>)
    requires Blocks(crc, rs, ownership, routes, cuts)
    ensures var routes' := routes + Translate(crc, rc, ownership);
      Blocks(crc, rs + [RouteRes(rc)], ownership, routes', cuts + [|routes'|])
  {
    var rs', routes' := rs + [RouteRes(rc)], routes + Translate(crc, rc, ownership);
    var cuts' := cuts + [|routes'|];
    forall i | 0 <= i < |rs'|
      ensures BlockAt(crc, rs', ownership, routes', cuts', i)
    {
      if i < |rs| {
        assert BlockAt(crc, rs, ownership, routes, cuts, i);
        assert routes'[cuts[i]..cuts[i + 1]] == routes[cuts[i]..cuts[i + 1]];
      } else {
        assert routes'[|routes|..|routes'|] == Translate(crc, rc, ownership);
      }
    }
  }

  lemma {:induction false} RdsBlocks(crc: string -> nat, ownership: map<string, string>, rs: seq<XdsResource>) returns (cuts: seq<int>)
    requires forall r :: r in rs ==> r.RouteRes?
    ensures RdsFold(crc, ownership, rs).Some? && Blocks(crc, rs, ownership, RdsFold(crc, ownership, rs).value, cuts)
  {
    if rs == [] {
      cuts := [0];
    } else {
      var front, last := rs[..|rs| - 1], rs[|rs| - 1];
      assert last in rs && rs == front + [RouteRes(last.rc)];
      var before := RdsBlocks(crc, ownership, front);
      BlocksSnoc(crc, front, last.rc, ownership, RdsFold(crc, ownership, front).value, before);
      cuts := before + [|RdsFold(crc, ownership, rs).value|];
    }
  }

  /** The blocks determine the whole. */
  lemma {:induction false} BlocksUnique(crc: string -> nat, rs: seq<XdsResource>, ownership: map<string, string>,
                                        a: seq<Route>, cuts: seq<int>, b: seq<Route>, cuts': seq<int>)
    requires Blocks(crc, rs, ownership, a, cuts) && Blocks(crc, rs, ownership, b, cuts')
    ensures a == b
  {
    SameUpTo(crc, rs, ownership, a, cuts, b, cuts', |rs|);
    assert a[..|a|] == a && b[..|b|] == b;
  }

  lemma {:induction false} SameUpTo(crc: string -> nat, rs: seq<XdsResource>, ownership: map<string, string>,
                                    a: seq<Route>, cuts: seq<int>, b: seq<Route>, cuts': seq<int>, n: nat)
    requires Blocks(crc, rs, ownership, a, cuts) && Blocks(crc, rs, ownership, b, cuts') && n <= |rs|
    ensures 0 <= cuts[n] <= |a| && 0 <= cuts'[n] <= |b| && a[..cuts[n]] == b[..cuts'[n]]
  {
    if n > 0 {
      SameUpTo(crc, rs, ownership, a, cuts, b, cuts', n - 1);
      assert BlockAt(crc, rs, ownership, a, cuts, n - 1) && BlockAt(crc, rs, ownership, b, cuts', n - 1);
      assert a[..cuts[n]] == a[..cuts[n - 1]] + a[cuts[n - 1]..cuts[n]];
      assert b[..cuts'[n]] == b[..cuts'[n - 1]] + b[cuts'[n - 1]..cuts'[n]];
    }
  }

  lemma {:induction false} RdsRefused(crc: string -> nat, ownership: map<string, string>, rs: seq<XdsResource>, i: nat)
    requires i < |rs| && !rs[i].RouteRes?
    ensures RdsFold(crc, ownership, rs).None?
  {
    assert rs[..i + 1][..i] == rs[..i];
    RdsFailsForGood(crc, ownership, rs, i + 1);
  }

  /** An RDS response is accepted if and only if all its resources are route configurations. Then
      the routes held are the blocks of their translations, in order, and nothing else changes;
      otherwise nothing changes at all. */
  lemma {:induction false} RdsMeans(crc: string -> nat, p: Prov, resp: Response, order: seq<string>)
    requires resp.url == RouteUrl && forall n :: n in order ==> n in p.upstreams
    ensures var o := TranslateStep(crc, p, resp, order);
      && (o.ok <==> forall r :: r in resp.resources ==> r.RouteRes?)
      && (o.ok ==> exists cuts :: Blocks(crc, resp.resources, p.ownership, o.p.routes, cuts))
      && o.p == p.(routes := o.p.routes)
      && (!o.ok ==> o.p == p && o.events == [])
  {
    var rs := resp.resources;
    if forall r :: r in rs ==> r.RouteRes? {
      var cuts := RdsBlocks(crc, p.ownership, rs);
    } else {
      var r :| r in rs && !r.RouteRes?;
      var i :| 0 <= i < |rs| && rs[i] == r;
      RdsRefused(crc, p.ownership, rs, i);
    }
  }

  // ---------------------------------------------------------------- CDS

  ghost predicate ServedAt(rs: seq<XdsResource>, i: int, name: string) {
    0 <= i < |rs| && rs[i].ClusterRes? && Served(rs[i].cluster) && rs[i].cluster.name == name
  }

  ghost predicate LastServed(rs: seq<XdsResource>, i: int, name: string) {
    ServedAt(rs, i, name) && forall j :: i < j ==> !ServedAt(rs, j, name)
  }

  /** The clusters before the first resource that is none. */
  ghost predicate ReadUpTo(rs: seq<XdsResource>, n: nat) {
    && n <= |rs| && (forall i :: 0 <= i < n ==> rs[i].ClusterRes?)
    && (n < |rs| ==> !rs[n].ClusterRes?)
  }

  /** name is that of a served cluster that waits for EDS, among the first n. */
  ghost predicate WaitsIn(rs: seq<XdsResource>, n: nat, name: string) {
    exists i :: 0 <= i < n && ServedAt(rs, i, name) && rs[i].cluster.discovery.EdsDiscovery?
  }

  /** What a CDS response says about a name: whether it is held, as what, and whether it waits. */
  ghost predicate SaysOf(crc: string -> nat, rs: seq<XdsResource>, name: string, held: map<string, Upstream>, eds: set<string>) {
    && (name in held <==> exists i :: ServedAt(rs, i, name))
    && (forall i :: LastServed(rs, i, name) ==> name in held && IsUpstreamOf(crc, held[name], rs[i].cluster))
    && (name in eds <==> WaitsIn(rs, |rs|, name))
  }

  lemma {:induction false} SkipsOne(crc: string -> nat, rs: seq<XdsResource>, name: string, held: map<string, Upstream>, eds: set<string>)
    requires rs != [] && SaysOf(crc, rs[..|rs| - 1], name, held, eds)
    requires !ServedAt(rs, |rs| - 1, name)
    ensures SaysOf(crc, rs, name, held, eds)
  {
    ServedSnoc(rs, name);
    forall i | LastServed(rs, i, name)
      ensures name in held && IsUpstreamOf(crc, held[name], rs[i].cluster)
    {
      assert LastServed(rs[..|rs| - 1], i, name);
    }
  }

  lemma {:induction false} AddsOne(crc: string -> nat, rs: seq<XdsResource>, name: string, held: map<string, Upstream>, eds: set<string>,
                                   held': map<string, Upstream>, eds': set<string>)
    requires rs != [] && SaysOf(crc, rs[..|rs| - 1], name, held, eds) && ServedAt(rs, |rs| - 1, name)
    requires name in held' && IsUpstreamOf(crc, held'[name], rs[|rs| - 1].cluster)
    requires name in eds' <==> name in eds || rs[|rs| - 1].cluster.discovery.EdsDiscovery?
    ensures SaysOf(crc, rs, name, held', eds')
  {
    ServedSnoc(rs, name);
  }

  lemma {:induction false} OthersSame(crc: string -> nat, rs: seq<XdsResource>, name: string, held: map<string, Upstream>, eds: set<string>,
                                      held': map<string, Upstream>, eds': set<string>)
    requires SaysOf(crc, rs, name, held, eds)
    requires (name in held <==> name in held') && (name in held ==> held'[name] == held[name]) && (name in eds <==> name in eds')
    ensures SaysOf(crc, rs, name, held', eds')
  {
  }

  lemma {:induction false} CdsServes(crc: string -> nat, rs: seq<XdsResource>, name: string)
    requires forall i :: 0 <= i < |rs| ==> rs[i].ClusterRes?
    ensures CdsFold(crc, rs).ok
    ensures SaysOf(crc, rs, name, LastWins(UpstreamName, CdsFold(crc, rs).ups), CdsFold(crc, rs).eds)
  {
    if rs != [] {
      var before, after := CdsFold(crc, rs[..|rs| - 1]), CdsFold(crc, rs);
      CdsServes(crc, rs[..|rs| - 1], name);
      var c := rs[|rs| - 1].cluster;
      ClusterMeans(crc, c);
      var held, held' := LastWins(UpstreamName, before.ups), LastWins(UpstreamName, after.ups);
      if Served(c) {
        var u := after.ups[|after.ups| - 1];
        LastWinsSnoc(UpstreamName, before.ups, u);
        assert after.ups == before.ups + [u] && IsUpstreamOf(crc, u, c) && held' == held[c.name := u];
        if c.name == name {
          AddsOne(crc, rs, name, held, before.eds, held', after.eds);
        } else {
          SkipsOne(crc, rs, name, held, before.eds);
          OthersSame(crc, rs, name, held, before.eds, held', after.eds);
        }
      } else {
        SkipsOne(crc, rs, name, held, before.eds);
      }
    }
  }

  /** How one more cluster bears on a name. */
  lemma {:induction false} ServedSnoc(rs: seq<XdsResource>, name: string)
    requires rs != []
    ensures var front, n := rs[..|rs| - 1], |rs| - 1;
      && ((exists i :: ServedAt(rs, i, name)) <==> (exists i :: ServedAt(front, i, name)) || ServedAt(rs, n, name))
      && (ServedAt(rs, n, name) ==> forall i :: LastServed(rs, i, name) <==> i == n)
      && (!ServedAt(rs, n, name) ==> forall i :: LastServed(rs, i, name) <==> LastServed(front, i, name))
      && (WaitsIn(rs, |rs|, name) <==> WaitsIn(front, n, name) || (ServedAt(rs, n, name) && rs[n].cluster.discovery.EdsDiscovery?))
  {
    var front, n := rs[..|rs| - 1], |rs| - 1;
    assert forall i :: i < n ==> (ServedAt(rs, i, name) <==> ServedAt(front, i, name));
    assert forall i :: i >= n ==> !ServedAt(front, i, name);
    assert forall i :: i > n ==> !ServedAt(rs, i, name);
    forall i
      ensures ServedAt(rs, n, name) ==> (LastServed(rs, i, name) <==> i == n)
      ensures !ServedAt(rs, n, name) ==> (LastServed(rs, i, name) <==> LastServed(front, i, name))
    {
      if LastServed(front, i, name) && !ServedAt(rs, n, name) {
        forall j | i < j
          ensures !ServedAt(rs, j, name)
        {
          assert !ServedAt(front, j, name);
        }
      }
      if LastServed(rs, i, name) {
        forall j | i < j
          ensures !ServedAt(front, j, name)
        {
          assert !ServedAt(rs, j, name);
        }
      }
    }
    if WaitsIn(rs, |rs|, name) {
      var i :| 0 <= i < |rs| && ServedAt(rs, i, name) && rs[i].cluster.discovery.EdsDiscovery?;
      assert i < n ==> ServedAt(front, i, name);
    }
    if WaitsIn(front, n, name) {
      var i :| 0 <= i < n && ServedAt(front, i, name) && front[i].cluster.discovery.EdsDiscovery?;
      assert ServedAt(rs, i, name);
    }
  }

  /** A rejected CDS response was read up to its first resource that is no cluster. */
  lemma {:induction false} CdsReads(crc: string -> nat, rs: seq<XdsResource>, n: nat, name: string)
    requires ReadUpTo(rs, n)
    ensures CdsFold(crc, rs).ok <==> n == |rs|
    ensures name in CdsFold(crc, rs).eds <==> WaitsIn(rs, n, name)
  {
    CdsServes(crc, rs[..n], name);
    if n == |rs| {
      assert rs[..n] == rs;
    } else {
      assert rs[..n + 1][..n] == rs[..n];
      assert CdsFold(crc, rs[..n + 1]) == CdsFold(crc, rs[..n]).(ok := false);
      CdsFailsForGood(crc, rs, n + 1);
      SameWaiting(rs, n, name);
    }
  }

  lemma {:induction false} SameWaiting(rs: seq<XdsResource>, n: nat, name: string)
    requires n <= |rs|
    ensures WaitsIn(rs[..n], n, name) <==> WaitsIn(rs, n, name)
  {
    assert forall i :: 0 <= i < n ==> (ServedAt(rs[..n], i, name) <==> ServedAt(rs, i, name));
    if WaitsIn(rs, n, name) {
      var i :| 0 <= i < n && ServedAt(rs, i, name) && rs[i].cluster.discovery.EdsDiscovery?;
      assert ServedAt(rs[..n], i, name);
    }
  }

  lemma {:induction false} FirstOther(rs: seq<XdsResource>) returns (n: nat)
    ensures ReadUpTo(rs, n)
  {
    n := 0;
    while n < |rs| && rs[n].ClusterRes?
      invariant n <= |rs| && forall i :: 0 <= i < n ==> rs[i].ClusterRes?
    {
      n := n + 1;
    }
  }

  /** A CDS response is accepted if and only if all its resources are clusters, served or not.
      Then a name is held if and only if a served cluster has it, as the upstream of the last such
      cluster. In any case the names waiting for EDS become those of the served EDS clusters before
      the first other resource. A request for them goes out exactly when the response is accepted
      and they are some, and not those that waited before. A rejected response changes nothing
      else. */
  lemma {:induction false} CdsMeans(crc: string -> nat, p: Prov, resp: Response, order: seq<string>, n: nat, name: string)
    requires resp.url == ClusterUrl && forall k :: k in order ==> k in p.upstreams
    requires ReadUpTo(resp.resources, n)
    ensures var rs, o := resp.resources, TranslateStep(crc, p, resp, order);
      && (o.ok <==> n == |rs|)
      && (o.ok ==> (name in o.p.upstreams <==> exists i :: ServedAt(rs, i, name)))
      && (o.ok ==> forall i :: LastServed(rs, i, name) ==>
            name in o.p.upstreams && IsUpstreamOf(crc, o.p.upstreams[name], rs[i].cluster))
      && (name in o.p.edsRequired <==> WaitsIn(rs, n, name))
  {
    var rs := resp.resources;
    CdsReads(crc, rs, n, name);
    if n == |rs| {
      CdsServes(crc, rs, name);
    }
  }

  lemma {:induction false} CdsEffects(crc: string -> nat, p: Prov, resp: Response, order: seq<string>)
    requires resp.url == ClusterUrl && forall k :: k in order ==> k in p.upstreams
    ensures var o := TranslateStep(crc, p, resp, order);
      var asks := o.ok && o.p.edsRequired != p.edsRequired && o.p.edsRequired != {};
      && (asks ==> o.p.sent == p.sent + [Subscribe(AssignmentUrl, o.p.edsRequired)])
      && (!asks ==> o.p.sent == p.sent)
      && o.p == p.(upstreams := o.p.upstreams, edsRequired := o.p.edsRequired, sent := o.p.sent)
      && (!o.ok ==> o.p.upstreams == p.upstreams && o.events == [])
  {
    assert p.sent + [] == p.sent;
  }

  // ---------------------------------------------------------------- EDS

  ghost predicate AssignsAt(rs: seq<XdsResource>, n: int, i: int, name: string) {
    0 <= i < n <= |rs| && rs[i].AssignmentRes? && rs[i].la.clusterName == name
  }

  /** All before n are assignments of known clusters, and n is none. */
  ghost predicate KnownUpTo(rs: seq<XdsResource>, upstreams: map<string, Upstream>, n: nat) {
    && n <= |rs| && (forall i :: 0 <= i < n ==> rs[i].AssignmentRes? && rs[i].la.clusterName in upstreams)
    && (n < |rs| ==> !(rs[n].AssignmentRes? && rs[n].la.clusterName in upstreams))
  }

  /** after is before with the nodes of name's last assignment among the first n, if there is one. */
  ghost predicate Assigned(rs: seq<XdsResource>, n: nat, before: map<string, Upstream>, after: map<string, Upstream>, name: string) {
    && (name in after <==> name in before)
    && (name in after && (forall i :: !AssignsAt(rs, n, i, name)) ==> after[name] == before[name])
    && forall i :: name in after && AssignsAt(rs, n, i, name) && (forall j :: i < j ==> !AssignsAt(rs, n, j, name)) ==>
      after[name] == before[name].(nodes := Nodes(rs[i].la.localities))
  }

  /** The upstreams sent on, one per resource and in order. */
  ghost predicate SentOn(rs: seq<XdsResource>, before: map<string, Upstream>, ups: seq<Upstream>) {
    |ups| == |rs| && forall i :: 0 <= i < |rs| ==>
      rs[i].AssignmentRes? && rs[i].la.clusterName in before
      && ups[i] == before[rs[i].la.clusterName].(nodes := Nodes(rs[i].la.localities))
  }

  lemma {:induction false} EdsAssigns(upstreams: map<string, Upstream>, rs: seq<XdsResource>, name: string)
    requires forall i :: 0 <= i < |rs| ==> rs[i].AssignmentRes? && rs[i].la.clusterName in upstreams
    requires forall k :: k in upstreams ==> upstreams[k].name == k
    ensures var eds := EdsFold(upstreams, rs);
      && eds.ok && eds.upstreams.Keys == upstreams.Keys
      && (forall k :: k in upstreams ==> eds.upstreams[k] == upstreams[k].(nodes := eds.upstreams[k].nodes))
      && Assigned(rs, |rs|, upstreams, eds.upstreams, name)
  {
    if rs != [] {
      var front := rs[..|rs| - 1];
      EdsAssigns(upstreams, front, name);
      EdsLast(upstreams, rs);
      AssignedSnoc(rs, upstreams, EdsFold(upstreams, front).upstreams, EdsFold(upstreams, rs).upstreams, name);
    }
  }

  /** What the last assignment does. */
  lemma {:induction false} EdsLast(upstreams: map<string, Upstream>, rs: seq<XdsResource>)
    requires rs != [] && rs[|rs| - 1].AssignmentRes?
    requires var before, k := EdsFold(upstreams, rs[..|rs| - 1]), rs[|rs| - 1].la.clusterName;
      before.ok && k in before.upstreams && before.upstreams[k].name == k
    ensures var before, after, la := EdsFold(upstreams, rs[..|rs| - 1]), EdsFold(upstreams, rs), rs[|rs| - 1].la;
      var u := before.upstreams[la.clusterName].(nodes := Nodes(la.localities));
      after.ok && after.upstreams == before.upstreams[la.clusterName := u] && after.ups == before.ups + [u]
  {
  }

  lemma {:induction false} EdsSends(upstreams: map<string, Upstream>, rs: seq<XdsResource>)
    requires forall i :: 0 <= i < |rs| ==> rs[i].AssignmentRes? && rs[i].la.clusterName in upstreams
    requires forall k :: k in upstreams ==> upstreams[k].name == k
    ensures EdsFold(upstreams, rs).ok && SentOn(rs, upstreams, EdsFold(upstreams, rs).ups)
  {
    if rs != [] {
      var front, last := rs[..|rs| - 1], rs[|rs| - 1];
      EdsAssigns(upstreams, front, "");
      EdsSends(upstreams, front);
      EdsLast(upstreams, rs);
      var before, after := EdsFold(upstreams, front), EdsFold(upstreams, rs);
      assert rs == front + [last];
      SentOnSnoc(front, last, upstreams, before.ups, after.ups[|after.ups| - 1]);
    }
  }

  lemma {:induction false} SentOnSnoc(rs: seq<XdsResource>, r: XdsResource, before: map<string, Upstream>, ups: seq<Upstream>, u: Upstream)
    requires SentOn(rs, before, ups) && r.AssignmentRes? && r.la.clusterName in before
    requires u == before[r.la.clusterName].(nodes := Nodes(r.la.localities))
    ensures SentOn(rs + [r], before, ups + [u])
  {
  }

  lemma {:induction false} AssignedSnoc(rs: seq<XdsResource>, before: map<string, Upstream>, mid: map<string, Upstream>, after: map<string, Upstream>, name: string)
    requires rs != [] && Assigned(rs[..|rs| - 1], |rs| - 1, before, mid, name)
    requires var r := rs[|rs| - 1];
      && r.AssignmentRes? && mid.Keys == before.Keys && r.la.clusterName in before
      && mid[r.la.clusterName] == before[r.la.clusterName].(nodes := mid[r.la.clusterName].nodes)
      && after == mid[r.la.clusterName := mid[r.la.clusterName].(nodes := Nodes(r.la.localities))]
    ensures Assigned(rs, |rs|, before, after, name)
  {
    var n, front := |rs| - 1, rs[..|rs| - 1];
    assert forall i :: i != n ==> (AssignsAt(rs, |rs|, i, name) <==> AssignsAt(front, n, i, name));
    if rs[n].la.clusterName == name {
      assert AssignsAt(rs, |rs|, n, name);
    } else {
      forall i | AssignsAt(rs, |rs|, i, name) && forall j :: i < j ==> !AssignsAt(rs, |rs|, j, name)
        ensures name in after ==> after[name] == before[name].(nodes := Nodes(rs[i].la.localities))
      {
        assert AssignsAt(front, n, i, name);
        forall j | i < j
          ensures !AssignsAt(front, n, j, name)
        {
          assert !AssignsAt(rs, |rs|, j, name);
        }
      }
    }
  }

  /** An EDS response is accepted if and only if all its resources are assignments of known
      clusters. Those before the first other one take effect at once, the last of every cluster
      for good, on the nodes only. An accepted one sends an update for every resource, in order,
      a rejected one nothing. */
  lemma {:induction false} EdsMeans(crc: string -> nat, p: Prov, resp: Response, order: seq<string>, n: nat, name: string)
    requires resp.url == AssignmentUrl && forall k :: k in order ==> k in p.upstreams
    requires forall k :: k in p.upstreams ==> p.upstreams[k].name == k
    requires KnownUpTo(resp.resources, p.upstreams, n)
    ensures var rs, o := resp.resources, TranslateStep(crc, p, resp, order);
      && (o.ok <==> n == |rs|)
      && Assigned(rs, n, p.upstreams, o.p.upstreams, name)
      && o.p == p.(upstreams := o.p.upstreams)
      && (!o.ok ==> o.events == [])
      && (o.ok ==> exists ups :: SentOn(rs, p.upstreams, ups) && o.events == UpdatesOf(ups))
  {
    var rs := resp.resources;
    EdsReads(p.upstreams, rs, n, name);
    if n == |rs| {
      SameUpdates(EdsFold(p.upstreams, rs).ups);
    }
  }

  lemma {:induction false} EdsReads(upstreams: map<string, Upstream>, rs: seq<XdsResource>, n: nat, name: string)
    requires forall k :: k in upstreams ==> upstreams[k].name == k
    requires KnownUpTo(rs, upstreams, n)
    ensures EdsFold(upstreams, rs).ok <==> n == |rs|
    ensures Assigned(rs, n, upstreams, EdsFold(upstreams, rs).upstreams, name)
    ensures n == |rs| ==> SentOn(rs, upstreams, EdsFold(upstreams, rs).ups)
  {
    EdsAssigns(upstreams, rs[..n], name);
    SameAssigned(rs, n, upstreams, EdsFold(upstreams, rs[..n]).upstreams, name);
    if n == |rs| {
      assert rs[..n] == rs;
      EdsSends(upstreams, rs);
    } else {
      assert rs[..n + 1][..n] == rs[..n];
      assert EdsFold(upstreams, rs[..n + 1]) == EdsFold(upstreams, rs[..n]).(ok := false);
      EdsFailsForGood(upstreams, rs, n + 1);
    }
  }

  lemma {:induction false} SameUpdates(ups: seq<Upstream>)
    ensures UpstreamEvents(Update, ups) == UpdatesOf(ups)
  {
  }

  lemma {:induction false} SameAssigned(rs: seq<XdsResource>, n: nat, before: map<string, Upstream>, after: map<string, Upstream>, name: string)
    requires n <= |rs| && Assigned(rs[..n], n, before, after, name)
    ensures Assigned(rs, n, before, after, name)
  {
    assert forall i :: AssignsAt(rs, n, i, name) <==> AssignsAt(rs[..n], n, i, name);
  }

  function UpdatesOf(ups: seq<Upstream>): seq<Event> {
    seq(|ups|, i requires 0 <= i < |ups| => Event(Update, UpstreamObject(ups[i]), NoObject, 0))
  }

  // ---------------------------------------------------------------- LDS

  /** Only listeners on a socket with a port are looked at. */
  predicate Bound(r: XdsResource) {
    r.ListenerRes? && r.listener.address.Some? && r.listener.address.value.port != 0
  }

  predicate GoodListener(r: XdsResource) {
    r.ListenerRes? && (Bound(r) ==> BadHcm !in r.listener.hcms)
  }

  /** The listener asks for route configuration n by RDS. */
  predicate Requests(r: XdsResource, n: string) {
    Bound(r) && RdsHcm(n) in r.listener.hcms
  }

  /** The listener owns route configuration n, by RDS or inline. */
  ghost predicate Owns(r: XdsResource, n: string) {
    Bound(r) && (RdsHcm(n) in r.listener.hcms || exists rc :: InlineHcm(rc) in r.listener.hcms && rc.name == n)
  }

  ghost predicate OwnsAt(rs: seq<XdsResource>, i: int, n: string) {
    0 <= i < |rs| && Owns(rs[i], n)
  }

  ghost predicate RequestsAt(rs: seq<XdsResource>, i: int, n: string) {
    0 <= i < |rs| && Requests(rs[i], n)
  }

  /** n is owned if and only if a listener owns it, and the owner is the last such listener's address. */
  ghost predicate OwnedAsSaid(rs: seq<XdsResource>, ownership: map<string, string>, n: string) {
    && (n in ownership <==> exists i :: OwnsAt(rs, i, n))
    && forall i :: OwnsAt(rs, i, n) && (forall j :: i < j ==> !OwnsAt(rs, j, n)) ==>
      n in ownership && ownership[n] == rs[i].listener.address.value.host + ":" + Decimal(rs[i].listener.address.value.port)
  }

  lemma {:induction false} NamesOfHcms(hcms: seq<Hcm>, n: string)
    ensures n in RdsNames(hcms) <==> RdsHcm(n) in hcms
    ensures n in ConfigNames(InlineConfigs(hcms)) <==> exists rc :: InlineHcm(rc) in hcms && rc.name == n
  {
    InlineOfHcms(hcms, n);
    RdsOfHcms(hcms, n);
  }

  lemma {:induction false} RdsOfHcms(hcms: seq<Hcm>, n: string)
    ensures n in RdsNames(hcms) <==> RdsHcm(n) in hcms
  {
    if hcms != [] {
      RdsOfHcms(hcms[..|hcms| - 1], n);
      assert hcms == hcms[..|hcms| - 1] + [hcms[|hcms| - 1]];
    }
  }

  lemma {:induction false} InlineMember(hcms: seq<Hcm>, rc: RouteConfiguration)
    ensures rc in InlineConfigs(hcms) <==> InlineHcm(rc) in hcms
  {
    if hcms != [] {
      InlineMember(hcms[..|hcms| - 1], rc);
      assert hcms == hcms[..|hcms| - 1] + [hcms[|hcms| - 1]];
    }
  }

  lemma {:induction false} InlineOfHcms(hcms: seq<Hcm>, n: string)
    ensures n in ConfigNames(InlineConfigs(hcms)) <==> exists rc :: InlineHcm(rc) in hcms && rc.name == n
  {
    var rcs := InlineConfigs(hcms);
    if n in ConfigNames(rcs) {
      var i :| 0 <= i < |rcs| && rcs[i].name == n;
      InlineMember(hcms, rcs[i]);
    }
    if rc :| InlineHcm(rc) in hcms && rc.name == n {
      InlineMember(hcms, rc);
      var i :| 0 <= i < |rcs| && rcs[i] == rc;
      assert ConfigNames(rcs)[i] == n;
    }
  }

  lemma {:induction false} OwnMeans(ownership: map<string, string>, names: seq<string>, addr: string, n: string)
    ensures n in Own(ownership, names, addr) <==> n in ownership || n in names
    ensures n in names ==> Own(ownership, names, addr)[n] == addr
    ensures n !in names && n in ownership ==> Own(ownership, names, addr)[n] == ownership[n]
  {
    if names != [] {
      OwnMeans(ownership, names[..|names| - 1], addr, n);
      assert names == names[..|names| - 1] + [names[|names| - 1]];
    }
  }

  lemma {:induction false} LdsOwns(rs: seq<XdsResource>, n: string)
    requires forall i :: 0 <= i < |rs| ==> GoodListener(rs[i])
    ensures LdsFold(rs).ok && OwnedAsSaid(rs, LdsFold(rs).ownership, n)
  {
    if rs != [] {
      LdsOwns(rs[..|rs| - 1], n);
      LdsLast(rs, n);
      OwnedSnoc(rs, LdsFold(rs[..|rs| - 1]).ownership, LdsFold(rs).ownership, n);
    }
  }

  lemma {:induction false} LdsNames(rs: seq<XdsResource>, n: string)
    requires forall i :: 0 <= i < |rs| ==> GoodListener(rs[i])
    ensures LdsFold(rs).ok && (n in LdsFold(rs).names <==> exists i :: RequestsAt(rs, i, n))
  {
    if rs != [] {
      var front := rs[..|rs| - 1];
      LdsNames(front, n);
      LdsLast(rs, n);
      RequestsSnoc(rs, front, n);
    }
  }

  lemma {:induction false} RequestsSnoc(rs: seq<XdsResource>, front: seq<XdsResource>, n: string)
    requires rs != [] && front == rs[..|rs| - 1]
    ensures (exists i :: RequestsAt(rs, i, n)) <==> (exists i :: RequestsAt(front, i, n)) || Requests(rs[|rs| - 1], n)
  {
    if i :| RequestsAt(front, i, n) {
      assert RequestsAt(rs, i, n);
    }
    if i :| RequestsAt(rs, i, n) {
      assert i != |front| ==> RequestsAt(front, i, n);
    }
    assert Requests(rs[|front|], n) ==> RequestsAt(rs, |front|, n);
  }

  /** What the last listener adds. */
  lemma {:induction false} LdsLast(rs: seq<XdsResource>, n: string)
    requires rs != [] && LdsFold(rs[..|rs| - 1]).ok && GoodListener(rs[|rs| - 1])
    ensures var k, before, after := |rs| - 1, LdsFold(rs[..|rs| - 1]), LdsFold(rs);
      && after.ok
      && (n in after.names <==> n in before.names || Requests(rs[k], n))
      && (n in after.ownership <==> n in before.ownership || Owns(rs[k], n))
      && (Owns(rs[k], n) ==> after.ownership[n] == rs[k].listener.address.value.host + ":" + Decimal(rs[k].listener.address.value.port))
      && (!Owns(rs[k], n) && n in before.ownership ==> after.ownership[n] == before.ownership[n])
      && after.statics == before.statics + if Bound(rs[k]) then InlineConfigs(rs[k].listener.hcms) else []
  {
    var before, r := LdsFold(rs[..|rs| - 1]), rs[|rs| - 1];
    if Bound(r) {
      var hcms, addr := r.listener.hcms, AddressOf(r.listener.address.value);
      NamesOfHcms(hcms, n);
      OwnMeans(before.ownership, RdsNames(hcms), addr, n);
      OwnMeans(Own(before.ownership, RdsNames(hcms), addr), ConfigNames(InlineConfigs(hcms)), addr, n);
    }
  }

  lemma {:induction false} OwnedSnoc(rs: seq<XdsResource>, before: map<string, string>, after: map<string, string>, n: string)
    requires rs != [] && OwnedAsSaid(rs[..|rs| - 1], before, n)
    requires var r := rs[|rs| - 1];
      && (n in after <==> n in before || Owns(r, n))
      && (Owns(r, n) ==> after[n] == r.listener.address.value.host + ":" + Decimal(r.listener.address.value.port))
      && (!Owns(r, n) && n in before ==> after[n] == before[n])
    ensures OwnedAsSaid(rs, after, n)
  {
    var k, front := |rs| - 1, rs[..|rs| - 1];
    assert forall i :: i != k ==> (OwnsAt(rs, i, n) <==> OwnsAt(front, i, n));
    if i :| OwnsAt(front, i, n) {
      assert OwnsAt(rs, i, n);
    }
    if Owns(rs[k], n) {
      assert OwnsAt(rs, k, n);
    } else {
      forall i | OwnsAt(rs, i, n) && forall j :: i < j ==> !OwnsAt(rs, j, n)
        ensures n in after && after[n] == rs[i].listener.address.value.host + ":" + Decimal(rs[i].listener.address.value.port)
      {
        assert OwnsAt(front, i, n);
        forall j | i < j
          ensures !OwnsAt(front, j, n)
        {
          assert !OwnsAt(rs, j, n);
        }
      }
    }
  }

  /** The place of an inline route configuration: listener and connection manager. */
  ghost predicate InlineAt(rs: seq<XdsResource>, at: (int, int)) {
    0 <= at.0 < |rs| && Bound(rs[at.0]) && 0 <= at.1 < |rs[at.0].listener.hcms| && rs[at.0].listener.hcms[at.1].InlineHcm?
  }

  predicate Before(a: (int, int), b: (int, int)) {
    a.0 < b.0 || (a.0 == b.0 && a.1 < b.1)
  }

  /** rcs are the inline configurations of all listeners, each once and in order; places tells
      where each comes from. */
  ghost predicate AllInline(rs: seq<XdsResource>, rcs: seq<RouteConfiguration>, places: seq<(int, int)>) {
    && |places| == |rcs|
    && (forall q :: 0 <= q < |rcs| ==> InlineAt(rs, places[q]) && rs[places[q].0].listener.hcms[places[q].1].rc == rcs[q])
    && (forall q, r :: 0 <= q < r < |rcs| ==> Before(places[q], places[r]))
    && (forall at :: InlineAt(rs, at) ==> at in places)
  }

  /** The same for the connection managers of one listener. */
  ghost predicate InlineOf(hcms: seq<Hcm>, rcs: seq<RouteConfiguration>, ks: seq<int>) {
    && |ks| == |rcs|
    && (forall q :: 0 <= q < |rcs| ==> 0 <= ks[q] < |hcms| && hcms[ks[q]] == InlineHcm(rcs[q]))
    && (forall q, r :: 0 <= q < r < |rcs| ==> ks[q] < ks[r])
    && (forall k :: 0 <= k < |hcms| && hcms[k].InlineHcm? ==> k in ks)
  }

  lemma {:induction false} InlineInOrder(hcms: seq<Hcm>) returns (ks: seq<int>)
    ensures InlineOf(hcms, InlineConfigs(hcms), ks)
  {
    if hcms == [] {
      ks := [];
    } else {
      var n := |hcms| - 1;
      ks := InlineInOrder(hcms[..n]);
      InlineSnoc(hcms, InlineConfigs(hcms[..n]), ks);
      if hcms[n].InlineHcm? {
        ks := ks + [n];
      } else {
        assert InlineConfigs(hcms[..n]) + [] == InlineConfigs(hcms[..n]);
      }
    }
  }

  lemma {:induction false} InlineSnoc(hcms: seq<Hcm>, rcs: seq<RouteConfiguration>, ks: seq<int>)
    requires hcms != [] && InlineOf(hcms[..|hcms| - 1], rcs, ks)
    ensures var n := |hcms| - 1;
      if hcms[n].InlineHcm? then InlineOf(hcms, rcs + [hcms[n].rc], ks + [n]) else InlineOf(hcms, rcs, ks)
  {
    var n, front := |hcms| - 1, hcms[..|hcms| - 1];
    forall k | 0 <= k < n && hcms[k].InlineHcm?
      ensures k in ks && k in ks + [n]
    {
      assert front[k].InlineHcm?;
    }
    forall q | 0 <= q < |rcs|
      ensures 0 <= ks[q] < n && hcms[ks[q]] == InlineHcm(rcs[q])
    {
      assert front[ks[q]] == hcms[ks[q]];
    }
    assert n in ks + [n];
  }

  lemma {:induction false} LdsInline(rs: seq<XdsResource>) returns (places: seq<(int, int)>)
    requires forall i :: 0 <= i < |rs| ==> GoodListener(rs[i])
    ensures LdsFold(rs).ok && AllInline(rs, LdsFold(rs).statics, places)
  {
    if rs == [] {
      places := [];
    } else {
      var n := |rs| - 1;
      var before := LdsInline(rs[..n]);
      LdsLast(rs, "");
      if Bound(rs[n]) {
        var ks := InlineInOrder(rs[n].listener.hcms);
        places := before + Paired(n, ks);
        InlineJoin(rs, LdsFold(rs[..n]).statics, before, InlineConfigs(rs[n].listener.hcms), ks);
      } else {
        places := before;
        InlineSkip(rs, LdsFold(rs[..n]).statics, before);
        assert LdsFold(rs[..n]).statics + [] == LdsFold(rs[..n]).statics;
      }
    }
  }

  function Paired(n: int, ks: seq<int>): seq<(int, int)> {
    seq(|ks|, q requires 0 <= q < |ks| => (n, ks[q]))
  }

  lemma {:induction false} InlineSkip(rs: seq<XdsResource>, rcs: seq<RouteConfiguration>, places: seq<(int, int)>)
    requires rs != [] && !Bound(rs[|rs| - 1]) && AllInline(rs[..|rs| - 1], rcs, places)
    ensures AllInline(rs, rcs, places)
  {
    forall at | InlineAt(rs, at)
      ensures at in places
    {
      assert InlineAt(rs[..|rs| - 1], at);
    }
    forall q | 0 <= q < |rcs|
      ensures InlineAt(rs, places[q]) && rs[places[q].0].listener.hcms[places[q].1].rc == rcs[q]
    {
      assert InlineAt(rs[..|rs| - 1], places[q]);
    }
  }

  lemma {:induction false} InlineJoin(rs: seq<XdsResource>, rcs: seq<RouteConfiguration>, places: seq<(int, int)>, more: seq<RouteConfiguration>, ks: seq<int>)
    requires rs != [] && Bound(rs[|rs| - 1]) && AllInline(rs[..|rs| - 1], rcs, places)
    requires InlineOf(rs[|rs| - 1].listener.hcms, more, ks)
    ensures AllInline(rs, rcs + more, places + Paired(|rs| - 1, ks))
  {
    var n, all := |rs| - 1, places + Paired(|rs| - 1, ks);
    forall at | InlineAt(rs, at)
      ensures at in all
    {
      if at.0 == n {
        var q :| 0 <= q < |ks| && ks[q] == at.1;
        assert all[|places| + q] == at;
      } else {
        assert InlineAt(rs[..n], at);
      }
    }
    forall q | 0 <= q < |rcs + more|
      ensures InlineAt(rs, all[q]) && rs[all[q].0].listener.hcms[all[q].1].rc == (rcs + more)[q]
      ensures q < |rcs| <==> all[q].0 < n
    {
      if q < |rcs| {
        assert InlineAt(rs[..n], places[q]);
      }
    }
    forall q, r | 0 <= q < r < |rcs + more|
      ensures Before(all[q], all[r])
    {
      if r < |rcs| {
        assert Before(places[q], places[r]);
      } else if q >= |rcs| {
        assert ks[q - |rcs|] < ks[r - |rcs|];
      }
    }
  }

  lemma {:induction false} LdsRefused(rs: seq<XdsResource>, i: nat)
    requires i < |rs| && !GoodListener(rs[i])
    ensures !LdsFold(rs).ok
  {
    assert rs[..i + 1][..i] == rs[..i];
    LdsFailsForGood(rs, i + 1);
  }

  /** An LDS response is accepted if and only if all its resources are listeners whose connection
      managers can be read where they are looked at. Then a name is owned if and only if a bound
      listener has it, by RDS or inline, under the address of the last such listener; the inline
      configurations are kept, each once and in order. A rejected response changes nothing. */
  lemma {:induction false} LdsMeans(crc: string -> nat, p: Prov, resp: Response, order: seq<string>, name: string)
    requires resp.url == ListenerUrl && forall k :: k in order ==> k in p.upstreams
    ensures var rs, o := resp.resources, TranslateStep(crc, p, resp, order);
      && (o.ok <==> forall i :: 0 <= i < |rs| ==> GoodListener(rs[i]))
      && (o.ok ==> OwnedAsSaid(rs, o.p.ownership, name))
      && (o.ok ==> exists places :: AllInline(rs, o.p.statics, places))
      && o.p == p.(statics := o.p.statics, ownership := o.p.ownership, sent := o.p.sent)
      && (!o.ok ==> o.p == p)
      && o.events == []
  {
    var rs := resp.resources;
    if forall i :: 0 <= i < |rs| ==> GoodListener(rs[i]) {
      LdsOwns(rs, name);
      var places := LdsInline(rs);
    } else {
      var i :| 0 <= i < |rs| && !GoodListener(rs[i]);
      LdsRefused(rs, i);
    }
  }

  /** The request that follows an accepted LDS response names exactly the route configurations that
      its bound listeners take by RDS, and there is none if they take none. */
  lemma {:induction false} LdsRequests(crc: string -> nat, p: Prov, resp: Response, order: seq<string>)
    requires resp.url == ListenerUrl && forall k :: k in order ==> k in p.upstreams
    requires TranslateStep(crc, p, resp, order).ok
    ensures var rs, o := resp.resources, TranslateStep(crc, p, resp, order);
      if forall n, i :: !RequestsAt(rs, i, n) then o.p.sent == p.sent
      else exists names :: o.p.sent == p.sent + [Subscribe(RouteUrl, names)] && forall n :: n in names <==> exists i :: RequestsAt(rs, i, n)
  {
    var rs, names := resp.resources, Elements(LdsFold(resp.resources).names);
    LdsMeans(crc, p, resp, order, "");
    forall n
      ensures n in names <==> exists i :: RequestsAt(rs, i, n)
    {
      LdsNames(rs, n);
    }
    if names == {} {
      forall n, i
        ensures !RequestsAt(rs, i, n)
      {
        assert n !in names;
      }
      assert p.sent + [] == p.sent;
    } else {
      var n :| n in names;
      var i :| RequestsAt(rs, i, n);
    }
  }

  /** A response of any other type is rejected and changes nothing. */
  lemma {:induction false} OtherMeans(crc: string -> nat, p: Prov, resp: Response, order: seq<string>)
    requires resp.url == OtherUrl && forall k :: k in order ==> k in p.upstreams
    ensures var o := TranslateStep(crc, p, resp, order); !o.ok && o.p == p && o.events == []
  {
  }

  // ---------------------------------------------------------------- acknowledgements

  /** Each round ends with one acknowledgement: of the response's type and nonce, failed exactly
      when the response is rejected, with the response's version if it is accepted and the one kept
      otherwise. It names the clusters waiting for EDS, or the owned route configurations, as they
      were before the response, and nothing for the other types. */
  lemma {:induction false} AckMeans(crc: string -> nat, p: Prov, resp: Response, order: seq<string>)
    requires forall k :: k in order ==> k in p.upstreams
    ensures var o, t := Step(crc, p, resp, order), TranslateStep(crc, p, resp, order);
      && |o.p.sent| == |t.p.sent| + 1 && o.p.sent[..|t.p.sent|] == t.p.sent
      && o.ok == t.ok && o.events == t.events && o.p == t.p.(version := o.p.version, sent := o.p.sent)
      && var ack := o.p.sent[|t.p.sent|];
      && ack.Ack? && ack.url == resp.url && ack.nonce == resp.nonce && ack.failed == !o.ok && ack.version == o.p.version
      && (o.ok ==> o.p.version == resp.version) && (!o.ok ==> o.p.version == p.version)
      && (resp.url == AssignmentUrl ==> ack.names == p.edsRequired)
      && (resp.url == RouteUrl ==> forall n :: n in ack.names <==> n in p.ownership)
      && (resp.url != AssignmentUrl && resp.url != RouteUrl ==> ack.names == {})
  {
    assert resp.url == OtherUrl ==> TranslateStep(crc, p, resp, order) == Outcome(p, false, []);
  }
}
