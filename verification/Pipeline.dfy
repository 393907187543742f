/** End to end: xDS responses in, a watching client's copy of the key space out. */
module Pipeline {
  import opened Objects
  import opened Strings
  import opened EtcdModel
  import opened History
  import opened Conformance
  import opened WatchModel
  import opened Cache
  import opened EtcdServer
  import opened Sidecars
  import opened Adaptor
  import opened ProvisionerModel
  import opened ProvisionerRuns
  import GrpcProvisioner

  /** The client's copy of the routes directory holds the last-wins map of the provisioner's
      routes, each under its key, and nothing else. */
  ghost predicate MirrorsRoutes(prefix: string, p: Prov, replica: map<string, KeyValue>) {
    var routes := LastWins(RouteId, p.routes);
    && (forall id :: id in routes ==>
          Name(prefix, RouteResource, id) in replica && replica[Name(prefix, RouteResource, id)].value == Json(RouteObject(routes[id])))
    && (forall k :: k in replica ==> exists id :: id in routes && k == Name(prefix, RouteResource, id))
  }

  /** The same for upstreams, which the provisioner keeps by name and the key space by id. */
  ghost predicate MirrorsUpstreams(prefix: string, p: Prov, replica: map<string, KeyValue>) {
    && (forall n :: n in p.upstreams ==>
          var k := Name(prefix, UpstreamResource, p.upstreams[n].id);
          k in replica && replica[k].value == Json(UpstreamObject(p.upstreams[n])))
    && (forall k :: k in replica ==> exists n :: n in p.upstreams && k == Name(prefix, UpstreamResource, p.upstreams[n].id))
  }

  lemma {:induction false} ListedUnder(prefix: string, res: EtcdModel.Resource, s: Store, metas: map<string, Meta>, rev: int, id: string)
    requires id in ObjectsOf(s, res)
    ensures var k, listing := Name(prefix, res, id), Listing(prefix, res, s, metas, rev);
      k in listing && listing[k].value == Json(ObjectAt(s, res, id))
  {
    NameThenId(prefix, res, id);
  }

  lemma {:induction false} ListingMirrorsRoutes(prefix: string, p: Prov, s: Store, metas: map<string, Meta>, rev: int)
    requires Sync(p, s)
    ensures MirrorsRoutes(prefix, p, Listing(prefix, RouteResource, s, metas, rev))
  {
    forall id | id in s.routes
      ensures var k, listing := Name(prefix, RouteResource, id), Listing(prefix, RouteResource, s, metas, rev);
        k in listing && listing[k].value == Json(RouteObject(s.routes[id]))
    {
      ListedUnder(prefix, RouteResource, s, metas, rev, id);
    }
  }

  lemma {:induction false} ListingMirrorsUpstreams(prefix: string, p: Prov, s: Store, metas: map<string, Meta>, rev: int)
    requires Sync(p, s)
    ensures MirrorsUpstreams(prefix, p, Listing(prefix, UpstreamResource, s, metas, rev))
  {
    var listing := Listing(prefix, UpstreamResource, s, metas, rev);
    forall n | n in p.upstreams
      ensures var k := Name(prefix, UpstreamResource, p.upstreams[n].id);
        k in listing && listing[k].value == Json(UpstreamObject(p.upstreams[n]))
    {
      ListedUnder(prefix, UpstreamResource, s, metas, rev, p.upstreams[n].id);
    }
    forall k | k in listing
      ensures exists n :: n in p.upstreams && k == Name(prefix, UpstreamResource, p.upstreams[n].id)
    {
      var id :| id in ObjectsOf(s, UpstreamResource) && k == Name(prefix, UpstreamResource, id);
      assert id in s.upstreams;
      var n :| n in p.upstreams && p.upstreams[n].id == id;
    }
  }

  /** The hypotheses of an undisturbed run. */
  ghost predicate Undisturbed(crc: string -> nat, names: set<string>, states: seq<Prov>, inputs: seq<Input>) {
    && ProvisionerRuns.Run(crc, states, inputs) && states[0] == INITIAL_PROV
    && Injective(crc, names) && (forall i :: 0 <= i < |inputs| ==> ClusterNamesIn(inputs[i].resp, names))
    && forall i :: 0 <= i < |inputs| ==> !Torn(states[i], inputs[i].resp)
  }

  ghost predicate WatchesOnly(ws: Stream, id: int, res: Resource) {
    forall other :: id in ws.Registered(other) <==> other == res
  }

  /** For every run of responses, a client that watches a directory from the start and applies
      what it is sent, in order, ends up with the provisioner's current snapshot. */
  lemma {:induction false} EndToEnd(crc: string -> nat, names: set<string>, states: seq<Prov>, inputs: seq<Input>,
                                    prefix: string, ws: Stream, routeWatch: int, upstreamWatch: int)
    requires Undisturbed(crc, names, states, inputs)
    requires WatchesOnly(ws, routeWatch, RouteResource) && WatchesOnly(ws, upstreamWatch, UpstreamResource)
    ensures var consumed := Stamp(Flatten(Batches(crc, states, inputs)), 0);
      var p := states[|inputs|];
      && MirrorsRoutes(prefix, p, Replay(map[], EventsIn(OwedAll(prefix, map[], consumed, ws, routeWatch))))
      && MirrorsUpstreams(prefix, p, Replay(map[], EventsIn(OwedAll(prefix, map[], consumed, ws, upstreamWatch))))
  {
    var consumed := Stamp(Flatten(Batches(crc, states, inputs)), 0);
    CacheFollowsProvisioner(crc, names, states, inputs);
    StampApplies(EMPTY_STORE, Flatten(Batches(crc, states, inputs)), 0);
    ListingMirrorsRoutes(prefix, states[|inputs|], ApplyAll(EMPTY_STORE, consumed), MetaAll(prefix, map[], consumed), 0);
    ListingMirrorsUpstreams(prefix, states[|inputs|], ApplyAll(EMPTY_STORE, consumed), MetaAll(prefix, map[], consumed), 0);
    FromTheStart(prefix, RouteResource, consumed, ws, routeWatch);
    FromTheStart(prefix, UpstreamResource, consumed, ws, upstreamWatch);
  }

  lemma {:induction false} FromTheStart(prefix: string, res: Resource, consumed: seq<Event>, ws: Stream, id: int)
    requires WatchesOnly(ws, id, res)
    ensures Replay(map[], EventsIn(OwedAll(prefix, map[], consumed, ws, id))) ==
      Listing(prefix, res, ApplyAll(EMPTY_STORE, consumed), MetaAll(prefix, map[], consumed), 0)
  {
    ClientFollows(prefix, res, [], consumed, ws, id, 0, 0);
    assert [] + consumed == consumed;
    EmptyListing(prefix, 0);
    NamesApart(prefix, EMPTY_STORE, EMPTY_STORE);
    assert ObjectsOf(EMPTY_STORE, res) == map[];
    assert Names(prefix, res, EMPTY_STORE) == {};
    assert Listing(prefix, res, EMPTY_STORE, map[], 0) == map[];
  }

  /** A server with one stream, whose watch 1 is on the routes and watch 2 on the upstreams. */
  method SetUp(prefix: string) returns (s: Sidecar, ws: WatchStream)
    ensures fresh(s) && fresh(ws) && fresh(s.cache) && fresh(s.cache.route) && fresh(s.cache.upstream) && fresh(s.etcd)
    ensures s.Valid() && s.history == [] && s.etcd.keyPrefix == prefix
    ensures ws.id in s.etcd.watchers && s.etcd.Streams() == {ws}
    ensures ws.Abs() == Stream({1}, {2}, []) && s.etcd.watchers[ws.id] == ws
  {
    s := new Sidecar(prefix);
    ws := new WatchStream();
    assert s.etcd.Abs().streams == map[];
    s.etcd.AddWatchStream(ws);
    Watch(s, ws, RouteResource, 1);
    Watch(s, ws, UpstreamResource, 2);
  }

  /** The same with the objects themselves: all responses of a connection are handled, every
      batch is consumed, and the stream's queue is what its client gets to apply. */
  method RunPipeline(crc: string -> nat, prefix: string, responses: seq<Response>)
    returns (p: GrpcProvisioner.Provisioner, s: Sidecar, ws: WatchStream, ghost states: seq<Prov>, ghost inputs: seq<Input>)
    ensures ProvisionerRuns.Run(crc, states, inputs) && states[0] == INITIAL_PROV && states[|inputs|] == p.Abs()
    ensures |inputs| == |responses| && forall i :: 0 <= i < |inputs| ==> inputs[i].resp == responses[i]
    ensures s.Valid() && s.history == Stamp(Flatten(Batches(crc, states, inputs)), 0)
    ensures forall names :: Undisturbed(crc, names, states, inputs) ==> Mirrored(prefix, p.Abs(), s.cache.View(), ws.queue)
  {
    s, ws := SetUp(prefix);
    p := new GrpcProvisioner.Provisioner(crc);
    var batches;
    batches, states, inputs := p.TranslateLoop(responses);
    ghost var s0 := s.etcd.Abs().streams;
    ghost var s1 := Follow(s, ws, batches);
    MirroredAtTheEnd(crc, states, inputs, prefix, s.cache.View(), s0, s1, ws.id);
  }

  /** A fresh sidecar consumes all batches while ws stays open. */
  method Follow(s: Sidecar, ws: WatchStream, batches: seq<seq<Event>>) returns (ghost s1: map<int, Stream>)
    requires s.Valid() && s.history == []
    requires ws.id in s.etcd.watchers && s.etcd.watchers[ws.id] == ws && s.etcd.Streams() == {ws}
    modifies s, s.cache.route`store, s.cache.upstream`store, s.etcd`metaCache, ws`queue
    ensures s.Valid() && s.history == Stamp(Flatten(batches), 0)
    ensures s.cache.View() == ApplyAll(EMPTY_STORE, Stamp(Flatten(batches), 0))
    ensures Delivers(s.etcd.keyPrefix, map[], Stamp(Flatten(batches), 0), old(s.etcd.Abs()).streams, s1)
    ensures ws.id in s1 && s1[ws.id].queue == ws.queue
  {
    ghost var consumed := s.Run(batches);
    assert [] + consumed == consumed;
    s1 := s.etcd.Abs().streams;
    assert s1[ws.id] == ws.Abs();
  }

  /** Cache and client hold the provisioner's snapshot; watch 1 is on routes, 2 on upstreams. */
  ghost predicate Mirrored(prefix: string, p: Prov, s: Store, queue: seq<WatchResponse>) {
    && Sync(p, s)
    && MirrorsRoutes(prefix, p, Replay(map[], EventsIn(Delivered(queue, 1))))
    && MirrorsUpstreams(prefix, p, Replay(map[], EventsIn(Delivered(queue, 2))))
  }

  lemma {:induction false} MirroredAtTheEnd(crc: string -> nat, states: seq<Prov>, inputs: seq<Input>, prefix: string,
                                            s: Store, s0: map<int, Stream>, s1: map<int, Stream>, k: int)
    requires ProvisionerRuns.Run(crc, states, inputs)
    requires s == ApplyAll(EMPTY_STORE, Stamp(Flatten(Batches(crc, states, inputs)), 0))
    requires Delivers(prefix, map[], Stamp(Flatten(Batches(crc, states, inputs)), 0), s0, s1)
    requires k in s0 && s0[k] == Stream({1}, {2}, [])
    ensures forall names :: Undisturbed(crc, names, states, inputs) ==> Mirrored(prefix, states[|inputs|], s, s1[k].queue)
  {
    var consumed := Stamp(Flatten(Batches(crc, states, inputs)), 0);
    DeliveredFromTheStart(prefix, consumed, s0, s1, k);
    StampApplies(EMPTY_STORE, Flatten(Batches(crc, states, inputs)), 0);
    forall names | Undisturbed(crc, names, states, inputs)
      ensures Mirrored(prefix, states[|inputs|], s, s1[k].queue)
    {
      CacheFollowsProvisioner(crc, names, states, inputs);
      EndToEnd(crc, names, states, inputs, prefix, s0[k], 1, 2);
    }
  }

  lemma {:induction false} DeliveredFromTheStart(prefix: string, consumed: seq<Event>, s0: map<int, Stream>, s1: map<int, Stream>, k: int)
    requires Delivers(prefix, map[], consumed, s0, s1) && k in s0 && s0[k].queue == []
    ensures forall i :: Delivered(s1[k].queue, i) == OwedAll(prefix, map[], consumed, s0[k], i)
  {
  }

  /** Registers a watch of a directory that starts now. */
  method Watch(s: Sidecar, ws: WatchStream, res: Resource, id: int)
    requires s.Valid() && ws.id in s.etcd.watchers && s.etcd.watchers[ws.id] == ws
    requires id != 0 && id !in ws.Abs().Registered(res)
    modifies s.etcd`watchers, ws
    ensures s.Valid() && s.etcd.watchers == old(s.etcd.watchers) && ws.id == old(ws.id)
    ensures ws.Abs() == CreateWatch(old(ws.Abs()), id, res).value
  {
    var prefix := s.etcd.keyPrefix;
    var c := CreateRequest(Dir(prefix, res), DirEnd(prefix, res), 0, id, false, false, false);
    AcceptsDirectory(prefix, res, c);
    ghost var kvs := s.etcd.OnCreateRequest(ws.id, c, 0, s.revision);
    assert s.etcd.Abs().streams[ws.id] == ws.Abs();
  }

  lemma {:induction false} AcceptsDirectory(prefix: string, res: Resource, c: CreateRequest)
    requires c.key == Dir(prefix, res) && c.rangeEnd == DirEnd(prefix, res) && !c.prevKv && !c.progressNotify && !c.fragment
    ensures CheckWatch(prefix, WatchCreate(Some(c))) == Accepted && WatchedResource(prefix, c.key) == Some(res)
  {
    assert (prefix + "/routes")[|prefix| + 1] == 'r' && (prefix + "/upstreams")[|prefix| + 1] == 'u';
  }
}
