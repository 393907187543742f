/** The gRPC provisioner object: pkg/provisioner/xds/v3/grpc/types.go and delivery.go. */
module GrpcProvisioner {
  import opened Objects
  import opened Strings
  import opened StringSets
  import opened Diff
  import opened Manifests
  import opened Adaptor
  import opened ProvisionerModel
  import opened ProvisionerRuns

  class Provisioner {
    const crc: string -> nat
    var routes: seq<Route>
    var upstreams: map<string, Upstream>
    var edsRequiredClusters: set<string>
    var routeOwnership: map<string, string>
    var staticRouteConfigurations: seq<RouteConfiguration>
    /** The version that translateLoop carries from round to round. */
    var verInfo: string
    /** sendCh, in order. */
    var sent: seq<Request>

    function Abs(): Prov
      reads this
    {
      Prov(routes, upstreams, edsRequiredClusters, routeOwnership, staticRouteConfigurations, verInfo, sent)
    }

    constructor (crc: string -> nat)
      ensures Abs() == INITIAL_PROV && this.crc == crc
    {
      this.crc := crc;
      routes, upstreams, edsRequiredClusters, routeOwnership := [], map[], {}, map[];
      staticRouteConfigurations, verInfo, sent := [], "", [];
    }

    /** processStaticRouteConfigurations translates and then drops its routes. */
    method ProcessStaticRouteConfigurations(rcs: seq<RouteConfiguration>) returns (partial: seq<Route>)
      ensures partial == []
    {
      partial := [];
      for i := 0 to |rcs|
        invariant partial == []
      {
        var route := TranslateRouteConfiguration(crc, rcs[i], routeOwnership);
      }
    }

    method TranslateRoutesResponse(resources: seq<XdsResource>) returns (r: Option<seq<Route>>)
      ensures r == RdsFold(crc, routeOwnership, resources)
    {
      var m: seq<Route> := [];
      for i := 0 to |resources|
        invariant RdsFold(crc, routeOwnership, resources[..i]) == Some(m)
      {
        assert resources[..i + 1][..i] == resources[..i];
        match resources[i] {
          case RouteRes(rc) =>
            var partial := TranslateRouteConfiguration(crc, rc, routeOwnership);
            m := m + partial;
          case _ =>
            RdsFailsForGood(crc, routeOwnership, resources, i + 1);
            return None;
        }
      }
      assert resources[..|resources|] == resources;
      if staticRouteConfigurations != [] {
        var partial := ProcessStaticRouteConfigurations(staticRouteConfigurations);
        assert m + partial == m;
        m := m + partial;
      }
      return Some(m);
    }

    /** processClusterV3; None is an unsupported cluster, which is skipped. */
    method ProcessCluster(c: Cluster) returns (r: Option<Upstream>)
      modifies this`edsRequiredClusters
      ensures match TranslateClusterSpec(crc, c)
        case Unsupported => r == None && edsRequiredClusters == old(edsRequiredClusters)
        case Translated(u) => r == Some(u) && edsRequiredClusters == old(edsRequiredClusters)
        case NeedsEds(u) => r == Some(u) && edsRequiredClusters == old(edsRequiredClusters) + {u.name}
    {
      var outcome := TranslateCluster(crc, c);
      match outcome {
        case Unsupported => return None;
        case Translated(u) => return Some(u);
        case NeedsEds(u) =>
          edsRequiredClusters := edsRequiredClusters + {u.name};
          return Some(u);
      }
    }

    method SendEds()
      modifies this`sent
      ensures sent == old(sent) + Subscription(AssignmentUrl, edsRequiredClusters)
    {
      if |edsRequiredClusters| == 0 {
        return;
      }
      sent := sent + [Subscribe(AssignmentUrl, edsRequiredClusters)];
    }

    method TrySendRds(rdsNames: seq<string>)
      modifies this`sent
      ensures sent == old(sent) + Subscription(RouteUrl, Elements(rdsNames))
    {
      NoElements(rdsNames);
      if |rdsNames| == 0 {
        return;
      }
      sent := sent + [Subscribe(RouteUrl, set n | n in rdsNames)];
    }

    /** The cluster loop: edsRequiredClusters is rebuilt as the resources are read. */
    method ReadClusters(resources: seq<XdsResource>) returns (ups: seq<Upstream>, newUps: map<string, Upstream>, ok: bool)
      modifies this`edsRequiredClusters
      ensures CdsFold(crc, resources) == Cds(CdsFold(crc, resources).ups, edsRequiredClusters, ok)
      ensures ok ==> ups == CdsFold(crc, resources).ups && newUps == LastWins(UpstreamName, ups)
    {
      ups, newUps := [], map[];
      edsRequiredClusters := {};
      for i := 0 to |resources|
        invariant CdsFold(crc, resources[..i]) == Cds(ups, edsRequiredClusters, true)
        invariant newUps == LastWins(UpstreamName, ups)
      {
        assert resources[..i + 1][..i] == resources[..i];
        match resources[i] {
          case ClusterRes(c) =>
            var u := ProcessCluster(c);
            if u.None? {
              continue;
            }
            LastWinsSnoc(UpstreamName, ups, u.value);
            ups := ups + [u.value];
            newUps := newUps[u.value.name := u.value];
          case _ =>
            CdsFailsForGood(crc, resources, i + 1);
            return ups, newUps, false;
        }
      }
      assert resources[..|resources|] == resources;
      return ups, newUps, true;
    }

    method ListUpstreams() returns (us: seq<Upstream>, ghost order: seq<string>)
      ensures Walks(order, upstreams.Keys) && us == Listed(upstreams, order)
    {
      us, order := [], [];
      var rest := upstreams.Keys;
      while rest != {}
        invariant rest <= upstreams.Keys && Walks(order, upstreams.Keys - rest)
        invariant |us| == |order| && forall i :: 0 <= i < |us| ==> order[i] in upstreams && us[i] == upstreams[order[i]]
        decreases |rest|
      {
        var n :| n in rest;
        WalksOn(order, upstreams.Keys - rest, n);
        us, order := us + [upstreams[n]], order + [n];
        assert upstreams.Keys - (rest - {n}) == (upstreams.Keys - rest) + {n};
        rest := rest - {n};
      }
      assert upstreams.Keys - rest == upstreams.Keys;
    }

    method TranslateClustersResponse(resources: seq<XdsResource>) returns (ok: bool, events: seq<Event>, ghost order: seq<string>)
      modifies this`upstreams, this`edsRequiredClusters, this`sent
      ensures Walks(order, old(upstreams).Keys)
      ensures forall resp: Response :: resp.url == ClusterUrl && resp.resources == resources ==>
        TranslateStep(crc, old(Abs()), resp, order) == Outcome(Abs(), ok, events)
    {
      var oldEdsRequiredClusters := edsRequiredClusters;
      var ups, newUps, accepted := ReadClusters(resources);
      if !accepted {
        order := SomeWalk(upstreams.Keys);
        return false, [], order;
      }
      var o;
      o, order := ListUpstreams();
      upstreams := newUps;
      var eq := Equal(edsRequiredClusters, oldEdsRequiredClusters);
      if !eq {
        SendEds();
      }
      events := GenerateEvents(Some(Manifest([], o)), Some(Manifest([], ups)));
      assert eq ==> sent == old(sent) + [];
      ok := true;
    }

    /** processClusterLoadAssignmentV3: the known cluster gets the new nodes at once. */
    method ProcessClusterLoadAssignment(la: Assignment) returns (r: Option<Upstream>)
      modifies this`upstreams
      ensures la.clusterName !in old(upstreams) ==> r == None && upstreams == old(upstreams)
      ensures la.clusterName in old(upstreams) ==>
        var u := old(upstreams)[la.clusterName].(nodes := Nodes(la.localities));
        r == Some(u) && upstreams == old(upstreams)[la.clusterName := u]
    {
      if la.clusterName !in upstreams {
        return None;
      }
      var nodes := TranslateClusterLoadAssignment(la);
      var newUps := upstreams[la.clusterName].(nodes := nodes);
      upstreams := upstreams[la.clusterName := newUps];
      return Some(newUps);
    }

    method TranslateAssignmentsResponse(resources: seq<XdsResource>) returns (ok: bool, events: seq<Event>)
      modifies this`upstreams
      ensures var eds := EdsFold(old(upstreams), resources);
        upstreams == eds.upstreams && ok == eds.ok && events == if eds.ok then UpstreamEvents(Update, eds.ups) else []
    {
      var ups: seq<Upstream> := [];
      for i := 0 to |resources|
        invariant EdsFold(old(upstreams), resources[..i]) == Eds(upstreams, ups, true)
      {
        assert resources[..i + 1][..i] == resources[..i];
        match resources[i] {
          case AssignmentRes(la) =>
            var u := ProcessClusterLoadAssignment(la);
            if u.None? {
              EdsFailsForGood(old(upstreams), resources, i + 1);
              return false, [];
            }
            upstreams := upstreams[u.value.name := u.value];
            ups := ups + [u.value];
          case _ =>
            EdsFailsForGood(old(upstreams), resources, i + 1);
            return false, [];
        }
      }
      assert resources[..|resources|] == resources;
      events := [];
      for i := 0 to |ups|
        invariant events == UpstreamEvents(Update, ups)[..i]
        invariant EdsFold(old(upstreams), resources) == Eds(upstreams, ups, true)
      {
        events := events + [PutEvent(Update, UpstreamObject(ups[i]))];
      }
      assert UpstreamEvents(Update, ups)[..|ups|] == UpstreamEvents(Update, ups);
      ok := true;
    }

    method TranslateListenersResponse(resources: seq<XdsResource>) returns (ok: bool)
      modifies this`routeOwnership, this`staticRouteConfigurations, this`sent
      ensures var lds := LdsFold(resources);
        && ok == lds.ok
        && routeOwnership == (if lds.ok then lds.ownership else old(routeOwnership))
        && staticRouteConfigurations == (if lds.ok then lds.statics else old(staticRouteConfigurations))
        && sent == if lds.ok then old(sent) + Subscription(RouteUrl, Elements(lds.names)) else old(sent)
    {
      var rdsNames, staticConfigs, ownership, accepted := ReadListeners(resources);
      if !accepted {
        return false;
      }
      staticRouteConfigurations := staticConfigs;
      routeOwnership := ownership;
      TrySendRds(rdsNames);
      ok := true;
    }

    /** translate. order is the walk that a CDS response takes over the old upstreams. */
    method Translate(resp: Response) returns (ok: bool, events: seq<Event>, ghost order: seq<string>)
      modifies this`routes, this`upstreams, this`edsRequiredClusters, this`routeOwnership, this`staticRouteConfigurations, this`sent
      ensures Walks(order, old(upstreams).Keys)
      ensures TranslateStep(crc, old(Abs()), resp, order) == Outcome(Abs(), ok, events)
    {
      order := SomeWalk(upstreams.Keys);
      match resp.url {
        case RouteUrl =>
          var m := TranslateRoutesResponse(resp.resources);
          if m.None? {
            return false, [], order;
          }
          var o := routes;
          routes := m.value;
          events := GenerateEvents(Some(Manifest(o, [])), Some(Manifest(m.value, [])));
          ok := true;
        case ClusterUrl =>
          ok, events, order := TranslateClustersResponse(resp.resources);
        case AssignmentUrl =>
          ok, events := TranslateAssignmentsResponse(resp.resources);
        case ListenerUrl =>
          ok := TranslateListenersResponse(resp.resources);
          events := [];
          if ok {
            events := GenerateEvents(Some(EMPTY_MANIFEST), Some(EMPTY_MANIFEST));
          }
        case OtherUrl =>
          return false, [], order;
      }
    }

    /** One round of translateLoop. */
    method HandleResponse(resp: Response) returns (ok: bool, events: seq<Event>, ghost order: seq<string>)
      modifies this
      ensures Walks(order, old(upstreams).Keys)
      ensures Step(crc, old(Abs()), resp, order) == Outcome(Abs(), ok, events)
    {
      var names: set<string> := {};
      if resp.url == AssignmentUrl {
        names := edsRequiredClusters;
      } else if resp.url == RouteUrl {
        names := routeOwnership.Keys;
      }
      ok, events, order := Translate(resp);
      if ok {
        verInfo := resp.version;
      }
      sent := sent + [Ack(resp.url, names, resp.nonce, verInfo, !ok)];
    }

    /** translateLoop over the responses that arrive on one connection; the batches are what the
        event channel carries, in order. */
    method TranslateLoop(responses: seq<Response>) returns (batches: seq<seq<Event>>, ghost states: seq<Prov>, ghost inputs: seq<Input>)
      modifies this
      ensures Run(crc, states, inputs) && states[0] == old(Abs()) && states[|inputs|] == Abs()
      ensures |inputs| == |responses| && forall i :: 0 <= i < |inputs| ==> inputs[i].resp == responses[i]
      ensures batches == Batches(crc, states, inputs)
    {
      batches, states, inputs := [], [Abs()], [];
      for n := 0 to |responses|
        invariant |inputs| == n && Run(crc, states, inputs) && states[0] == old(Abs()) && states[n] == Abs()
        invariant forall i :: 0 <= i < n ==> inputs[i].resp == responses[i]
        invariant batches == Batches(crc, states, inputs)
      {
        ghost var order;
        var ok, events;
        ok, events, order := HandleResponse(responses[n]);
        RunGrows(crc, states, inputs, Input(responses[n], order), Abs());
        states, inputs := states + [Abs()], inputs + [Input(responses[n], order)];
        if ok {
          batches := batches + [events];
        }
      }
    }
  }

  lemma {:induction false} RunGrows(crc: string -> nat, states: seq<Prov>, inputs: seq<Input>, i: Input, p: Prov)
    requires Run(crc, states, inputs) && Leads(crc, states[|inputs|], i, p)
    ensures Run(crc, states + [p], inputs + [i])
    ensures Batches(crc, states + [p], inputs + [i]) ==
      Batches(crc, states, inputs) + if Accepts(crc, states[|inputs|], i) then [EventsAt(crc, states[|inputs|], i)] else []
  {
    var states', inputs', n := states + [p], inputs + [i], |inputs|;
    assert states'[..n + 1] == states && inputs'[..n] == inputs;
    forall k | 0 <= k < |inputs'|
      ensures Leads(crc, states'[k], inputs'[k], states'[k + 1])
    {
      if k < n {
        assert Leads(crc, states[k], inputs[k], states[k + 1]);
      }
    }
  }

  lemma {:induction false} SomeWalk(keys: set<string>) returns (order: seq<string>)
    ensures Walks(order, keys)
  {
    if keys == {} {
      order := [];
    } else {
      var n := SomeElement(keys);
      var rest := SomeWalk(keys - {n});
      order := rest + [n];
      WalksOn(rest, keys - {n}, n);
      assert (keys - {n}) + {n} == keys;
    }
  }

  lemma {:induction false} WalksOn(order: seq<string>, keys: set<string>, n: string)
    requires Walks(order, keys) && n !in keys
    ensures Walks(order + [n], keys + {n})
  {
  }

  /** CollectRouteNamesAndConfigs, pkg/adaptor/xds/v3/listener.go. */
  method CollectRouteNamesAndConfigs(l: Listener) returns (names: seq<string>, cfgs: seq<RouteConfiguration>, good: bool)
    ensures good <==> BadHcm !in l.hcms
    ensures good ==> names == RdsNames(l.hcms) && cfgs == InlineConfigs(l.hcms)
  {
    names, cfgs := [], [];
    for i := 0 to |l.hcms|
      invariant BadHcm !in l.hcms[..i]
      invariant names == RdsNames(l.hcms[..i]) && cfgs == InlineConfigs(l.hcms[..i])
    {
      assert l.hcms[..i + 1][..i] == l.hcms[..i];
      match l.hcms[i] {
        case BadHcm => return [], [], false;
        case RdsHcm(name) => names := names + [name];
        case InlineHcm(rc) => cfgs := cfgs + [rc];
        case PlainHcm =>
      }
    }
    assert l.hcms[..|l.hcms|] == l.hcms;
    good := true;
  }

  /** The listener loop; nothing is kept of a response that fails on the way. */
  method ReadListeners(resources: seq<XdsResource>)
    returns (rdsNames: seq<string>, staticConfigs: seq<RouteConfiguration>, ownership: map<string, string>, ok: bool)
    ensures ok == LdsFold(resources).ok
    ensures ok ==> LdsFold(resources) == Lds(rdsNames, staticConfigs, ownership, true)
  {
    rdsNames, staticConfigs, ownership := [], [], map[];
    for i := 0 to |resources|
      invariant LdsFold(resources[..i]) == Lds(rdsNames, staticConfigs, ownership, true)
    {
      assert resources[..i + 1][..i] == resources[..i];
      match resources[i] {
        case ListenerRes(l) =>
          if l.address.None? || l.address.value.port == 0 {
            continue;
          }
          var addr := l.address.value.host + ":" + Decimal(l.address.value.port);
          var names, cfgs, good := CollectRouteNamesAndConfigs(l);
          if !good {
            LdsFailsForGood(resources, i + 1);
            return rdsNames, staticConfigs, ownership, false;
          }
          rdsNames := rdsNames + names;
          staticConfigs := staticConfigs + cfgs;
          ownership := OwnAll(ownership, names, addr);
          ownership := OwnAll(ownership, ConfigNames(cfgs), addr);
        case _ =>
          LdsFailsForGood(resources, i + 1);
          return rdsNames, staticConfigs, ownership, false;
      }
    }
    assert resources[..|resources|] == resources;
    ok := true;
  }

  method OwnAll(ownership0: map<string, string>, names: seq<string>, addr: string) returns (ownership: map<string, string>)
    ensures ownership == Own(ownership0, names, addr)
  {
    ownership := ownership0;
    for i := 0 to |names|
      invariant ownership == Own(ownership0, names[..i], addr)
    {
      assert names[..i + 1][..i] == names[..i];
      ownership := ownership[names[i] := addr];
    }
    assert names[..|names|] == names;
  }
}
