/** The mimicked etcd server: pkg/etcdv3/etcd.go, kv.go and watch.go. */
module EtcdServer {
  import opened Objects
  import opened Strings
  import opened EtcdModel
  import opened Conformance
  import opened WatchModel
  import opened Cache
  import opened History

  datatype RangeResult = Found(kvs: seq<KeyValue>) | Missing | Refused(verdict: Verdict)

  ghost predicate DistinctKeys(kvs: seq<KeyValue>) {
    forall i, j :: 0 <= i < j < |kvs| ==> kvs[i].key != kvs[j].key
  }

  /** kvs are the entries of m, each once. */
  ghost predicate Enumerates(kvs: seq<KeyValue>, m: map<string, KeyValue>) {
    && (forall i :: 0 <= i < |kvs| ==> kvs[i].key in m && m[kvs[i].key] == kvs[i])
    && DistinctKeys(kvs)
    && (forall n :: n in m ==> exists i :: 0 <= i < |kvs| && kvs[i].key == n)
  }

  /** Metadata after a listing: whatever had none now has the current revision. */
  function WithFallback(metas: map<string, Meta>, names: set<string>, rev: int): map<string, Meta> {
    map n | n in metas.Keys + names :: MetaOr(metas, n, rev)
  }

  /** objs are all the objects of one resource, each id once. */
  ghost predicate ListsResource(objs: seq<Object>, res: Resource, s: Store) {
    && (forall i :: 0 <= i < |objs| ==> objs[i] != NoObject && ResourceOf(objs[i]) == res)
    && (forall i :: 0 <= i < |objs| ==> ObjectAt(s, res, ObjectId(objs[i])) == objs[i])
    && (forall i, j :: 0 <= i < j < |objs| ==> ObjectId(objs[i]) != ObjectId(objs[j]))
    && (forall id :: id in ObjectsOf(s, res) ==> exists i :: 0 <= i < |objs| && ObjectId(objs[i]) == id)
  }

  lemma {:induction false} ListedObject(prefix: string, res: Resource, s: Store, objs: seq<Object>, i: int)
    requires ListsResource(objs, res, s) && 0 <= i < |objs|
    ensures var n := ObjectName(prefix, objs[i]);
      && n == Name(prefix, res, ObjectId(objs[i]))
      && n in Names(prefix, res, s) && ObjectAt(s, res, IdOf(prefix, res, n)) == objs[i]
  {
    NameThenId(prefix, res, ObjectId(objs[i]));
    assert ObjectId(objs[i]) in ObjectsOf(s, res);
  }

  lemma {:induction false} ListedName(prefix: string, res: Resource, s: Store, objs: seq<Object>, n: string) returns (i: int)
    requires ListsResource(objs, res, s) && n in Names(prefix, res, s)
    ensures 0 <= i < |objs| && ObjectName(prefix, objs[i]) == n
  {
    NamesHaveIds(prefix, res, s);
    i :| 0 <= i < |objs| && ObjectId(objs[i]) == IdOf(prefix, res, n);
  }

  function NamesIn(prefix: string, objs: seq<Object>): set<string> {
    set o | o in objs && o != NoObject :: ObjectName(prefix, o)
  }

  lemma {:induction false} NamesOfListed(prefix: string, res: Resource, s: Store, objs: seq<Object>)
    requires ListsResource(objs, res, s)
    ensures NamesIn(prefix, objs) == Names(prefix, res, s)
  {
    forall n | n in Names(prefix, res, s)
      ensures n in NamesIn(prefix, objs)
    {
      var i := ListedName(prefix, res, s, objs, n);
    }
    forall o | o in objs
      ensures ObjectName(prefix, o) in Names(prefix, res, s)
    {
      var i :| 0 <= i < |objs| && objs[i] == o;
      ListedObject(prefix, res, s, objs, i);
    }
  }

  lemma {:induction false} NamesDiffer(prefix: string, res: Resource, id1: string, id2: string)
    requires id1 != id2
    ensures Name(prefix, res, id1) != Name(prefix, res, id2)
  {
    NameThenId(prefix, res, id1);
    NameThenId(prefix, res, id2);
  }

  lemma {:induction false} ComposedEnumerates(prefix: string, res: Resource, s: Store, metas: map<string, Meta>, rev: int,
                           objs: seq<Object>, kvs: seq<KeyValue>)
    requires ListsResource(objs, res, s) && |kvs| == |objs|
    requires forall i :: 0 <= i < |objs| ==>
      kvs[i] == Compose(ObjectName(prefix, objs[i]), MetaOr(metas, ObjectName(prefix, objs[i]), rev), objs[i])
    ensures Enumerates(kvs, Listing(prefix, res, s, metas, rev))
  {
    forall i | 0 <= i < |kvs|
      ensures kvs[i].key == Name(prefix, res, ObjectId(objs[i]))
      ensures kvs[i].key in Names(prefix, res, s) && Listing(prefix, res, s, metas, rev)[kvs[i].key] == kvs[i]
    {
      ListedObject(prefix, res, s, objs, i);
    }
    forall i, j | 0 <= i < j < |kvs|
      ensures kvs[i].key != kvs[j].key
    {
      NamesDiffer(prefix, res, ObjectId(objs[i]), ObjectId(objs[j]));
    }
    forall n | n in Names(prefix, res, s)
      ensures exists i :: 0 <= i < |kvs| && kvs[i].key == n
    {
      var i := ListedName(prefix, res, s, objs, n);
      assert kvs[i].key == n;
    }
  }

  /** What findAllRoutes and findAllUpstreams select: objects without metadata are left out. */
  function FirstWatchKvs(prefix: string, res: Resource, s: Store, metas: map<string, Meta>, minRev: int): map<string, KeyValue> {
    map n | n in Names(prefix, res, s) && n in metas && metas[n].modRevision >= minRev ::
      Compose(n, metas[n], ObjectAt(s, res, IdOf(prefix, res, n)))
  }

  /** Between batches the first response of a watch is what changed since its revision. */
  /** A first watch holds a stored object exactly when metadata is recorded for it with a mod revision
      from the start on, and holds it with that metadata, whatever the state. */
  lemma {:induction false} FirstWatchMeans(prefix: string, res: Resource, s: Store, metas: map<string, Meta>, minRev: int, id: string)
    ensures var n, kvs := Name(prefix, res, id), FirstWatchKvs(prefix, res, s, metas, minRev);
      && (n in kvs <==> id in ObjectsOf(s, res) && n in metas && metas[n].modRevision >= minRev)
      && (n in kvs ==> kvs[n] == KeyValue(n, metas[n].createRevision, metas[n].modRevision, Json(ObjectsOf(s, res)[id])))
  {
    NamesHaveIds(prefix, res, s);
    NameThenId(prefix, res, id);
  }

  lemma {:induction false} FirstWatchIsChangedSince(prefix: string, res: Resource, s: Store, metas: map<string, Meta>, minRev: int, rev: int)
    requires InStep(prefix, s, metas)
    ensures FirstWatchKvs(prefix, res, s, metas, minRev) == ChangedSince(Listing(prefix, res, s, metas, rev), minRev)
  {
  }

  function Puts(kvs: seq<KeyValue>): seq<WatchEvent> {
    seq(|kvs|, i requires 0 <= i < |kvs| => WatchEvent(false, kvs[i]))
  }

  /** What a batch owes to one id of a stream. */
  function OwedAll(prefix: string, metas: map<string, Meta>, evs: seq<Event>, ws: Stream, id: int): seq<WatchResponse> {
    if evs == [] then []
    else
      OwedAll(prefix, metas, evs[..|evs| - 1], ws, id) +
      Owed(prefix, MetaAll(prefix, metas, evs[..|evs| - 1]), evs[|evs| - 1], ws, id)
  }

  /** From s to t every id was sent what evs owe it, in order. */
  ghost predicate DeliversTo(prefix: string, metas: map<string, Meta>, evs: seq<Event>, s: Stream, t: Stream) {
    && s.routes == t.routes && s.upstreams == t.upstreams
    && forall i :: Delivered(t.queue, i) == Delivered(s.queue, i) + OwedAll(prefix, metas, evs, s, i)
  }

  /** The same for every stream. */
  ghost predicate Delivers(prefix: string, metas: map<string, Meta>, evs: seq<Event>, s0: map<int, Stream>, s1: map<int, Stream>) {
    s0.Keys == s1.Keys && forall k :: k in s0 ==> DeliversTo(prefix, metas, evs, s0[k], s1[k])
  }

  lemma {:induction false} DeliversNothing(prefix: string, metas: map<string, Meta>, s: map<int, Stream>)
    ensures Delivers(prefix, metas, [], s, s)
  {
  }

  lemma {:induction false} DeliversOne(prefix: string, metas: map<string, Meta>, ev: Event, s0: map<int, Stream>, s1: map<int, Stream>)
    requires s0.Keys == s1.Keys && forall k :: k in s0 ==> Fanned(prefix, metas, ev, s0[k], s1[k])
    ensures Delivers(prefix, metas, [ev], s0, s1)
  {
    assert [ev][..0] == [];
    forall k | k in s0
      ensures DeliversTo(prefix, metas, [ev], s0[k], s1[k])
    {
      assert Fanned(prefix, metas, ev, s0[k], s1[k]);
      forall i
        ensures OwedAll(prefix, metas, [ev], s0[k], i) == Owed(prefix, metas, ev, s0[k], i)
      {
      }
    }
  }

  lemma {:induction false} DeliversAppend(prefix: string, metas: map<string, Meta>, a: seq<Event>, b: seq<Event>,
                                          s0: map<int, Stream>, s1: map<int, Stream>, s2: map<int, Stream>)
    requires Delivers(prefix, metas, a, s0, s1)
    requires Delivers(prefix, MetaAll(prefix, metas, a), b, s1, s2)
    ensures Delivers(prefix, metas, a + b, s0, s2)
  {
    forall k | k in s0
      ensures DeliversTo(prefix, metas, a + b, s0[k], s2[k])
    {
      DeliversToAppend(prefix, metas, a, b, s0[k], s1[k], s2[k]);
    }
  }

  lemma {:induction false} DeliversToAppend(prefix: string, metas: map<string, Meta>, a: seq<Event>, b: seq<Event>, s: Stream, t: Stream, u: Stream)
    requires DeliversTo(prefix, metas, a, s, t) && DeliversTo(prefix, MetaAll(prefix, metas, a), b, t, u)
    ensures DeliversTo(prefix, metas, a + b, s, u)
  {
    forall i
      ensures Delivered(u.queue, i) == Delivered(s.queue, i) + OwedAll(prefix, metas, a + b, s, i)
    {
      OwedAllAppend(prefix, metas, a, b, s, i);
      OwedSameRegistration(prefix, MetaAll(prefix, metas, a), b, s, t, i);
      Associative(Delivered(s.queue, i), OwedAll(prefix, metas, a, s, i), OwedAll(prefix, MetaAll(prefix, metas, a), b, s, i));
    }
  }

  lemma {:induction false} OwedAllAppend(prefix: string, metas: map<string, Meta>, a: seq<Event>, b: seq<Event>, ws: Stream, id: int)
    ensures OwedAll(prefix, metas, a + b, ws, id) ==
      OwedAll(prefix, metas, a, ws, id) + OwedAll(prefix, MetaAll(prefix, metas, a), b, ws, id)
  {
    if b == [] {
      assert a + b == a;
    } else {
      var front, ev := b[..|b| - 1], b[|b| - 1];
      OwedAllAppend(prefix, metas, a, front, ws, id);
      assert (a + b)[..|a + b| - 1] == a + front;
      LogAppend(prefix, metas, a, front);
      Associative(OwedAll(prefix, metas, a, ws, id), OwedAll(prefix, MetaAll(prefix, metas, a), front, ws, id),
                  Owed(prefix, MetaAll(prefix, MetaAll(prefix, metas, a), front), ev, ws, id));
    }
  }

  /** What is pushed to an id: one event per response, under the event's own revision, and neither
      the answer to a create nor to a cancel. */
  lemma {:induction false} OwedResponses(prefix: string, metas: map<string, Meta>, evs: seq<Event>, ws: Stream, id: int)
    ensures forall resp :: resp in OwedAll(prefix, metas, evs, ws, id) ==>
      && resp.watchId == id && !resp.created && !resp.canceled
      && |resp.events| == 1 && resp.revision == resp.events[0].kv.modRevision
  {
    if evs != [] {
      OwedResponses(prefix, metas, evs[..|evs| - 1], ws, id);
    }
  }

  lemma {:induction false} OwedSameRegistration(prefix: string, metas: map<string, Meta>, evs: seq<Event>, ws: Stream, ws2: Stream, id: int)
    requires ws.routes == ws2.routes && ws.upstreams == ws2.upstreams
    ensures OwedAll(prefix, metas, evs, ws, id) == OwedAll(prefix, metas, evs, ws2, id)
  {
    if evs != [] {
      OwedSameRegistration(prefix, metas, evs[..|evs| - 1], ws, ws2, id);
    }
  }

  /** The watch events in a queue of push responses, in order. */
  function EventsIn(queue: seq<WatchResponse>): seq<WatchEvent> {
    if queue == [] then [] else EventsIn(queue[..|queue| - 1]) + queue[|queue| - 1].events
  }

  /** A watch id registered for one resource is owed exactly the log's events in the interval
      of that resource's directory. */
  lemma {:induction false} OwedIsLogInRange(prefix: string, metas: map<string, Meta>, evs: seq<Event>, ws: Stream, id: int, res: Resource)
    requires forall other :: id in ws.Registered(other) <==> other == res
    ensures EventsIn(OwedAll(prefix, metas, evs, ws, id)) ==
      InRange(Log(prefix, metas, evs), Dir(prefix, res), DirEnd(prefix, res))
  {
    if evs != [] {
      var front, ev := evs[..|evs| - 1], evs[|evs| - 1];
      OwedIsLogInRange(prefix, metas, front, ws, id, res);
      if ev.Payload() == NoObject {
        assert Owed(prefix, MetaAll(prefix, metas, front), ev, ws, id) == [];
        assert OwedAll(prefix, metas, front, ws, id) + [] == OwedAll(prefix, metas, front, ws, id);
        assert Log(prefix, metas, front) + [] == Log(prefix, metas, front);
      } else {
        OwedEvent(prefix, MetaAll(prefix, metas, front), ev, ws, id, res,
                  OwedAll(prefix, metas, front, ws, id), Log(prefix, metas, front));
      }
    }
  }

  lemma {:induction false} OwedEvent(prefix: string, m: map<string, Meta>, ev: Event, ws: Stream, id: int, res: Resource,
                                     owed: seq<WatchResponse>, log: seq<WatchEvent>)
    requires ev.Payload() != NoObject && forall other :: id in ws.Registered(other) <==> other == res
    requires EventsIn(owed) == InRange(log, Dir(prefix, res), DirEnd(prefix, res))
    ensures EventsIn(owed + Owed(prefix, m, ev, ws, id)) ==
      InRange(log + [Published(prefix, m, ev)], Dir(prefix, res), DirEnd(prefix, res))
  {
    var e := Published(prefix, m, ev);
    DirectoryIsInterval(prefix, res, ResourceOf(ev.Payload()), ObjectId(ev.Payload()));
    assert (log + [e])[..|log|] == log;
    if ResourceOf(ev.Payload()) == res {
      var r := PushResponse(ev, id, e);
      assert Owed(prefix, m, ev, ws, id) == [r];
      assert (owed + [r])[..|owed|] == owed;
    } else {
      assert Owed(prefix, m, ev, ws, id) == [] && owed + [] == owed;
    }
  }

  /** The response for a watch id that is registered, nothing for one that is not. */
  function OneIf(registered: bool, revision: int, id: int, event: WatchEvent): seq<WatchResponse> {
    if registered then [WatchResponse(revision, id, false, false, [event])] else []
  }

  function ComposedAll(prefix: string, metas: map<string, Meta>, objs: seq<Object>, rev: int): seq<KeyValue>
    requires forall i :: 0 <= i < |objs| ==> objs[i] != NoObject
  {
    seq(|objs|, i requires 0 <= i < |objs| =>
      Compose(ObjectName(prefix, objs[i]), MetaOr(metas, ObjectName(prefix, objs[i]), rev), objs[i]))
  }

  lemma {:induction false} NoFallback(prefix: string, metas: map<string, Meta>, rev: int)
    ensures WithFallback(metas, NamesIn(prefix, []), rev) == metas
  {
  }

  lemma {:induction false} FallbackStep(prefix: string, metas: map<string, Meta>, objs: seq<Object>, i: nat, rev: int)
    requires i < |objs| && forall k :: 0 <= k < |objs| ==> objs[k] != NoObject
    ensures var name, before := ObjectName(prefix, objs[i]), WithFallback(metas, NamesIn(prefix, objs[..i]), rev);
      && MetaOr(before, name, rev) == MetaOr(metas, name, rev)
      && WithFallback(metas, NamesIn(prefix, objs[..i + 1]), rev) == before[name := MetaOr(metas, name, rev)]
  {
    assert objs[..i + 1] == objs[..i] + [objs[i]];
    var before, after := NamesIn(prefix, objs[..i]), NamesIn(prefix, objs[..i + 1]);
    assert after == before + {ObjectName(prefix, objs[i])};
  }

  ghost predicate OthersUnchanged(before: map<int, Stream>, after: map<int, Stream>, id: int) {
    forall j :: j in before && j != id ==> j in after && after[j] == before[j]
  }

  lemma {:induction false} AddedStream(before: map<int, Stream>, after: map<int, Stream>, id: int, s: Stream)
    requires OthersUnchanged(before, after, id) && after.Keys == before.Keys + {id} && after[id] == s
    ensures after == before[id := s]
  {
    assert before[id := s].Keys == before.Keys + {id};
    forall j | j in after
      ensures after[j] == before[id := s][j]
    {
      assert j != id ==> j in before && after[j] == before[j];
    }
  }

  class WatchStream {
    var id: int
    var route: set<int>
    var upstream: set<int>
    /** eventCh, as a queue that keeps the order of pushes. */
    var queue: seq<WatchResponse>
    /** Responses sent directly by the request handler. */
    var sent: seq<WatchResponse>

    function Abs(): Stream
      reads this
    {
      Stream(route, upstream, queue)
    }

    constructor ()
      ensures Abs() == Stream({}, {}, []) && sent == []
    {
      id, route, upstream, queue, sent := 0, {}, {}, [], [];
    }

    method CreateWatchId(id: int, resource: Option<Resource>) returns (ok: bool)
      modifies this`route, this`upstream
      ensures ok <==> resource.None? || CreateWatch(old(Abs()), id, resource.value).Some?
      ensures Abs() == if resource.Some? && ok then CreateWatch(old(Abs()), id, resource.value).value else old(Abs())
    {
      if resource == Some(RouteResource) {
        if id in route {
          return false;
        }
        route := route + {id};
      } else if resource == Some(UpstreamResource) {
        if id in upstream {
          return false;
        }
        upstream := upstream + {id};
      }
      return true;
    }

    method CancelWatchId(id: int) returns (ok: bool)
      modifies this`route, this`upstream
      ensures ok <==> CancelWatch(old(Abs()), id).Some?
      ensures Abs() == if ok then CancelWatch(old(Abs()), id).value else old(Abs())
    {
      if id in route {
        route := route - {id};
        return true;
      }
      if id in upstream {
        upstream := upstream - {id};
        return true;
      }
      return false;
    }

    /** One response for every id registered for the resource, in the map's own order. */
    method FanOut(resource: Resource, revision: int, event: WatchEvent)
      modifies this`queue
      ensures forall i :: Delivered(queue, i) == Delivered(old(queue), i) + OneIf(i in Abs().Registered(resource), revision, i, event)
    {
      var resps: seq<WatchResponse> := [];
      var ids := if resource == RouteResource then route else upstream;
      var rest: set<int> := ids;
      while rest != {}
        invariant rest <= ids && queue == old(queue)
        invariant forall i :: Delivered(resps, i) == OneIf(i in ids - rest, revision, i, event)
        decreases |rest|
      {
        ghost var some := SomeElement(rest);
        var i :| i in rest;
        var resp := WatchResponse(revision, i, false, false, [event]);
        assert (resps + [resp])[..|resps|] == resps;
        resps := resps + [resp];
        rest := rest - {i};
      }
      assert ids - rest == ids;
      forall i
        ensures Delivered(queue + resps, i) == Delivered(queue, i) + OneIf(i in ids, revision, i, event)
      {
        assert Delivered(resps, i) == OneIf(i in ids - rest, revision, i, event);
        DeliveredAppend(queue, resps, i);
      }
      queue := queue + resps;
    }
  }

  class EtcdV3 {
    const keyPrefix: string
    const cache: InMemoryCache
    var metaCache: map<string, Meta>
    var nextWatchId: int
    var watchers: map<int, WatchStream>

    ghost predicate Valid()
      reads this, cache, cache.route, cache.upstream
    {
      && cache.Valid()
      && forall i, j :: i in watchers && j in watchers && i != j ==> watchers[i] != watchers[j]
    }

    function Streams(): set<WatchStream>
      reads this
    {
      set k | k in watchers :: watchers[k]
    }

    function StreamAt(k: int): WatchStream
      requires k in watchers
      reads this
    {
      watchers[k]
    }

    ghost function Abs(): Server
      reads this, Streams()
    {
      Server(metaCache, map k | k in watchers :: watchers[k].Abs(), nextWatchId)
    }

    constructor (keyPrefix: string, cache: InMemoryCache)
      requires cache.Valid()
      ensures Valid() && this.keyPrefix == keyPrefix && this.cache == cache
      ensures Abs() == Server(map[], map[], 0)
    {
      this.keyPrefix, this.cache := keyPrefix, cache;
      metaCache, nextWatchId, watchers := map[], 0, map[];
    }

    method ComposeKeyValue(key: string, value: Value, rev: int) returns (kv: KeyValue)
      modifies this`metaCache
      ensures kv == KeyValue(key, MetaOr(old(metaCache), key, rev).createRevision, MetaOr(old(metaCache), key, rev).modRevision, value)
      ensures metaCache == old(metaCache)[key := MetaOr(old(metaCache), key, rev)]
    {
      var m := Meta(rev, rev);
      if key in metaCache {
        m := metaCache[key];
      } else {
        metaCache := metaCache[key := m];
      }
      return KeyValue(key, m.createRevision, m.modRevision, value);
    }

    method FindObject(key: string) returns (o: Object)
      requires Valid()
      ensures o == LookupPath(keyPrefix, key, cache.View())
    {
      if !HasPrefix(key, keyPrefix) {
        return NoObject;
      }
      var parts := Split(TrimPrefix(key, keyPrefix), '/');
      if |parts| != 3 || parts[0] != "" {
        return NoObject;
      }
      if parts[1] == "routes" {
        var route := cache.route.Get(parts[2]);
        return if route.None? then NoObject else RouteObject(route.value);
      } else if parts[1] == "upstreams" {
        var ups := cache.upstream.Get(parts[2]);
        return if ups.None? then NoObject else UpstreamObject(ups.value);
      } else {
        return NoObject;
      }
    }

    /** A point lookup finds the listed key-value of every slash-free id and nothing else. */
    method FindExactKey(key: string, rev: int) returns (r: RangeResult)
      requires Valid()
      modifies this`metaCache
      ensures Valid()
      ensures var listing := FullListing(keyPrefix, cache.View(), old(metaCache), rev);
        && (r.Found? <==> key in listing && SlashFreeKey(keyPrefix, key))
        && (r.Found? ==> r.kvs == [listing[key]])
        && (!r.Found? ==> r == Missing)
      ensures metaCache == if r.Found? then old(metaCache)[key := MetaOr(old(metaCache), key, rev)] else old(metaCache)
    {
      PointLookupAgrees(keyPrefix, key, cache.View(), metaCache, rev);
      var value := FindObject(key);
      if value == NoObject {
        return Missing;
      }
      var kv := ComposeKeyValue(key, Json(value), rev);
      return Found([kv]);
    }

    /** The listing loops of findAllKeys: objs is a store's List, as objects. */
    method ComposeAll(resource: Resource, objs: seq<Object>, rev: int) returns (kvs: seq<KeyValue>)
      requires forall i :: 0 <= i < |objs| ==> objs[i] != NoObject && ResourceOf(objs[i]) == resource
      requires forall i, j :: 0 <= i < j < |objs| ==> ObjectId(objs[i]) != ObjectId(objs[j])
      modifies this`metaCache
      ensures |kvs| == |objs|
      ensures forall i :: 0 <= i < |objs| ==>
        kvs[i] == Compose(ObjectName(keyPrefix, objs[i]), MetaOr(old(metaCache), ObjectName(keyPrefix, objs[i]), rev), objs[i])
      ensures metaCache == WithFallback(old(metaCache), NamesIn(keyPrefix, objs), rev)
    {
      kvs := [];
      NoFallback(keyPrefix, metaCache, rev);
      assert objs[..0] == [];
      for i := 0 to |objs|
        invariant kvs == ComposedAll(keyPrefix, old(metaCache), objs, rev)[..i]
        invariant metaCache == WithFallback(old(metaCache), NamesIn(keyPrefix, objs[..i]), rev)
      {
        var name := ObjectName(keyPrefix, objs[i]);
        FallbackStep(keyPrefix, old(metaCache), objs, i, rev);
        var kv := ComposeKeyValue(name, Json(objs[i]), rev);
        assert kv == ComposedAll(keyPrefix, old(metaCache), objs, rev)[i];
        kvs := kvs + [kv];
      }
      assert objs[..|objs|] == objs;
    }

    method ListObjects(resource: Resource) returns (objs: seq<Object>)
      requires Valid()
      ensures ListsResource(objs, resource, cache.View())
    {
      if resource == RouteResource {
        var routes := cache.route.List();
        LastWinsEntries(RouteId, routes);
        objs := seq(|routes|, i requires 0 <= i < |routes| => RouteObject(routes[i]));
        ListedRoutes(routes, objs, cache.View());
      } else {
        var upstreams := cache.upstream.List();
        LastWinsEntries(UpstreamId, upstreams);
        objs := seq(|upstreams|, i requires 0 <= i < |upstreams| => UpstreamObject(upstreams[i]));
        ListedUpstreams(upstreams, objs, cache.View());
      }
    }

    /** Listing a directory returns every stored object of it once, and a key that is not a
        directory is refused. */
    method FindAllKeys(key: string, rev: int) returns (r: RangeResult)
      requires Valid()
      modifies this`metaCache
      ensures Valid()
      ensures forall res :: key == Dir(keyPrefix, res) ==>
        && r.Found? && Enumerates(r.kvs, Listing(keyPrefix, res, cache.View(), old(metaCache), rev))
        && metaCache == WithFallback(old(metaCache), Names(keyPrefix, res, cache.View()), rev)
      ensures (forall res :: key != Dir(keyPrefix, res)) ==> r == Missing && metaCache == old(metaCache)
    {
      DirectoryKeyParts(keyPrefix, key, RouteResource);
      DirectoryKeyParts(keyPrefix, key, UpstreamResource);
      if !HasPrefix(key, keyPrefix) {
        return Missing;
      }
      var parts := Split(TrimPrefix(key, keyPrefix), '/');
      if |parts| != 2 || parts[0] != "" {
        return Missing;
      }
      assert parts == ["", parts[1]];
      var resource: Resource;
      if parts[1] == "routes" {
        resource := RouteResource;
      } else if parts[1] == "upstreams" {
        resource := UpstreamResource;
      } else {
        return Missing;
      }
      var objs := ListObjects(resource);
      var kvs := ComposeAll(resource, objs, rev);
      ComposedEnumerates(keyPrefix, resource, cache.View(), old(metaCache), rev, objs, kvs);
      NamesOfListed(keyPrefix, resource, cache.View(), objs);
      return Found(kvs);
    }

    method KeysOnly(kvs: seq<KeyValue>) returns (keys: seq<KeyValue>)
      ensures |keys| == |kvs|
      ensures forall i :: 0 <= i < |kvs| ==> keys[i] == kvs[i].(value := NoValue)
    {
      keys := kvs;
      for i := 0 to |kvs|
        invariant |keys| == |kvs|
        invariant forall k :: 0 <= k < i ==> keys[k] == kvs[k].(value := NoValue)
        invariant forall k :: i <= k < |kvs| ==> keys[k] == kvs[k]
      {
        keys := keys[i := keys[i].(value := NoValue)];
      }
    }

    /** The two kinds of an accepted request, values included. */
    method FindAccepted(r: RangeRequest, rev: int) returns (result: RangeResult)
      requires Valid() && CheckRange(keyPrefix, r) == Accepted
      modifies this`metaCache
      ensures Valid()
      ensures var listing := FullListing(keyPrefix, cache.View(), old(metaCache), rev);
        if r.rangeEnd.Some? then result.Found? && Enumerates(result.kvs, Restrict(listing, r.key, r.rangeEnd.value))
        else result == if r.key in listing && SlashFreeKey(keyPrefix, r.key) then Found([listing[r.key]]) else Missing
    {
      if r.rangeEnd.None? {
        result := FindExactKey(r.key, rev);
      } else {
        ghost var res := if r.key == keyPrefix + "/routes" then RouteResource else UpstreamResource;
        assert r.key == Dir(keyPrefix, res) && r.rangeEnd.value == DirEnd(keyPrefix, res);
        result := FindAllKeys(r.key, rev);
        RangeCoversInterval(keyPrefix, res, cache.View(), old(metaCache), rev, result.kvs);
      }
    }

    /** Range: an accepted readdir finds exactly the stored key-values in [key, range_end), an
        accepted point request the one with that key; keys_only blanks the values. */
    method Range(r: RangeRequest, rev: int) returns (result: RangeResult, ghost full: seq<KeyValue>)
      requires Valid()
      modifies this`metaCache
      ensures Valid()
      ensures var listing := FullListing(keyPrefix, cache.View(), old(metaCache), rev);
        if r.key == "" then result == Refused(EmptyKey)
        else if r.rangeEnd.Some? && !ServedPair(keyPrefix, r.key, r.rangeEnd.value) then result == Missing
        else if AsksTooMuch(r) then result == Refused(NotCapable)
        else if r.rangeEnd.Some? then result.Found? && Enumerates(full, Restrict(listing, r.key, r.rangeEnd.value))
        else if r.key in listing && SlashFreeKey(keyPrefix, r.key) then result.Found? && full == [listing[r.key]]
        else result == Missing
      ensures result.Found? ==>
        && |result.kvs| == |full|
        && forall i :: 0 <= i < |full| ==> result.kvs[i] == if r.keysOnly then full[i].(value := NoValue) else full[i]
    {
      full := [];
      RangeVerdict(keyPrefix, r);
      var verdict := CheckRange(keyPrefix, r);
      if verdict == KeyNotFound {
        return Missing, full;
      }
      if verdict != Accepted {
        return Refused(verdict), full;
      }
      result := FindAccepted(r, rev);
      if result.Found? {
        full := result.kvs;
        if r.keysOnly {
          var keys := KeysOnly(result.kvs);
          result := Found(keys);
        }
      }
    }

    /** Metadata first, then one response per registered id of every live stream. */
    method PushEvent(ev: Event)
      requires Valid()
      modifies this`metaCache, Streams()`queue
      ensures Valid()
      ensures Next(keyPrefix, old(Abs()), Push(ev), Abs())
    {
      var obj := if ev.typ == Delete then ev.tombstone else ev.body;
      var name: string;
      var resource: Resource;
      match obj {
        case RouteObject(o) => name, resource := keyPrefix + "/routes/" + o.id, RouteResource;
        case UpstreamObject(o) => name, resource := keyPrefix + "/upstreams/" + o.id, UpstreamResource;
        case NoObject => return;
      }
      PathIsName(keyPrefix, obj);
      var m := if name in metaCache then metaCache[name].(modRevision := ev.revision) else Meta(ev.revision, ev.revision);
      var event := WatchEvent(ev.typ == Delete, KeyValue(name, m.createRevision, m.modRevision, Json(obj)));
      assert event == Published(keyPrefix, old(metaCache), ev);
      if ev.typ == Delete {
        metaCache := metaCache - {name};
      } else {
        metaCache := metaCache[name := m];
      }
      FanOutToAll(ev, resource, event);
    }

    /** The loop over the watchers. */
    method FanOutToAll(ev: Event, resource: Resource, event: WatchEvent)
      requires Valid()
      modifies Streams()`queue
      ensures Valid()
      ensures forall k, i :: k in watchers ==>
        Delivered(watchers[k].queue, i) == Delivered(old(watchers[k].queue), i) + OneIf(i in old(watchers[k].Abs()).Registered(resource), ev.revision, i, event)
    {
      var rest := watchers.Keys;
      while rest != {}
        invariant rest <= watchers.Keys
        invariant forall k :: k in rest ==> watchers[k].queue == old(watchers[k].queue)
        invariant forall k, i :: k in watchers.Keys - rest ==>
          Delivered(watchers[k].queue, i) == Delivered(old(watchers[k].queue), i) + OneIf(i in old(watchers[k].Abs()).Registered(resource), ev.revision, i, event)
        decreases |rest|
      {
        ghost var some := SomeElement(rest);
        var k :| k in rest;
        watchers[k].FanOut(resource, ev.revision, event);
        rest := rest - {k};
      }
    }

    method PushEvents(events: seq<Event>)
      requires Valid()
      modifies this`metaCache, Streams()`queue
      ensures Valid()
      ensures metaCache == MetaAll(keyPrefix, old(metaCache), events)
      ensures Delivers(keyPrefix, old(metaCache), events, old(Abs()).streams, Abs().streams)
    {
      ghost var metas, streams := metaCache, Abs().streams;
      DeliversNothing(keyPrefix, metas, streams);
      for n := 0 to |events|
        invariant Valid()
        invariant metaCache == MetaAll(keyPrefix, metas, events[..n])
        invariant Delivers(keyPrefix, metas, events[..n], streams, Abs().streams)
      {
        ghost var streams1 := Abs().streams;
        assert events[..n + 1] == events[..n] + [events[n]];
        assert events[..n + 1][..n] == events[..n];
        PushEvent(events[n]);
        DeliversOne(keyPrefix, MetaAll(keyPrefix, metas, events[..n]), events[n], streams1, Abs().streams);
        DeliversAppend(keyPrefix, metas, events[..n], [events[n]], streams, streams1, Abs().streams);
      }
      assert events[..|events|] == events;
    }

    method AddWatchStream(ws: WatchStream)
      requires Valid() && ws !in Streams() && ws.Abs() == Stream({}, {}, [])
      requires NumbersFresh(Abs())
      modifies this`nextWatchId, this`watchers, ws`id
      ensures Valid() && Next(keyPrefix, old(Abs()), Open, Abs()) && NumbersFresh(Abs())
      ensures watchers == old(watchers)[ws.id := ws] && ws.id == old(nextWatchId) && ws.id !in old(watchers)
    {
      var id := nextWatchId;
      assert id !in Abs().streams;
      nextWatchId := nextWatchId + 1;
      ws.id := id;
      watchers := watchers[id := ws];
      assert OthersUnchanged(old(Abs()).streams, Abs().streams, id);
      AddedStream(old(Abs()).streams, Abs().streams, id, Stream({}, {}, []));
    }

    /** The clean-up that runs when a stream ends. */
    method RemoveWatchStream(k: int)
      requires Valid()
      modifies this`watchers
      ensures Valid() && Next(keyPrefix, old(Abs()), Close(k), Abs())
    {
      watchers := watchers - {k};
    }

    /** findAllRoutes and findAllUpstreams. */
    method FindChanged(resource: Resource, minRev: int) returns (kvs: seq<KeyValue>)
      requires Valid()
      ensures Enumerates(kvs, FirstWatchKvs(keyPrefix, resource, cache.View(), metaCache, minRev))
    {
      var objs := ListObjects(resource);
      kvs := [];
      for i := 0 to |objs|
        invariant kvs == Selected(keyPrefix, metaCache, minRev, objs[..i])
      {
        assert objs[..i + 1][..i] == objs[..i];
        var key := ObjectName(keyPrefix, objs[i]);
        if key in metaCache && metaCache[key].modRevision >= minRev {
          kvs := kvs + [Compose(key, metaCache[key], objs[i])];
        }
      }
      assert objs[..|objs|] == objs;
      SelectedEnumerates(keyPrefix, resource, cache.View(), metaCache, minRev, objs);
    }

    /** The first response of a watch: PUTs of what changed since minRev, under the current revision. */
    method FirstWatch(ws: WatchStream, id: int, resource: Resource, minRev: int, rev: int) returns (ghost kvs: seq<KeyValue>)
      requires Valid()
      modifies ws`sent
      ensures Valid()
      ensures Enumerates(kvs, FirstWatchKvs(keyPrefix, resource, cache.View(), metaCache, minRev))
      ensures ws.sent == old(ws.sent) + [WatchResponse(rev, id, true, false, Puts(kvs))]
    {
      var found := FindChanged(resource, minRev);
      var evs := [];
      for i := 0 to |found|
        invariant evs == Puts(found)[..i] && ws.sent == old(ws.sent)
      {
        evs := evs + [WatchEvent(false, found[i])];
      }
      assert Puts(found)[..|found|] == Puts(found);
      kvs := found;
      ws.sent := ws.sent + [WatchResponse(rev, id, true, false, evs)];
    }

    twostate lemma OneStreamChanged(k: int)
      requires old(Valid()) && k in watchers && watchers == old(watchers)
      requires metaCache == old(metaCache) && nextWatchId == old(nextWatchId)
      requires forall j :: j in watchers && watchers[j] != watchers[k] ==> watchers[j].Abs() == old(watchers[j].Abs())
      ensures Abs() == old(Abs()).(streams := old(Abs()).streams[k := watchers[k].Abs()])
    {
      assert forall j :: j in watchers && j != k ==> watchers[j] != watchers[k];
      assert forall j :: j in watchers && j != k ==> Abs().streams[j] == old(Abs()).streams[j];
    }

    /** A create request on stream k: silently skipped, fatal to the stream, or registered and
        answered, with the changes since the start revision if one is given. */
    method OnCreateRequest(k: int, c: CreateRequest, random: int, rev: int) returns (ghost kvs: seq<KeyValue>)
      requires Valid() && k in watchers
      modifies this`watchers, StreamAt(k)`route, StreamAt(k)`upstream, StreamAt(k)`sent
      ensures Valid()
      ensures Next(keyPrefix, old(Abs()), Create(k, c, random), Abs())
      ensures k in watchers ==> watchers == old(watchers)
      ensures var ws, res := old(watchers[k]), WatchedResource(keyPrefix, c.key);
        if k in watchers && CheckWatch(keyPrefix, WatchCreate(Some(c))) == Accepted then
          && res.Some?
          && ws.sent == old(ws.sent) + [WatchResponse(rev, CreateId(c, random), true, false, Puts(kvs))]
          && (c.startRevision == 0 ==> kvs == [])
          && (c.startRevision != 0 ==>
                Enumerates(kvs, FirstWatchKvs(keyPrefix, res.value, cache.View(), metaCache, c.startRevision)))
        else ws.sent == old(ws.sent)
    {
      kvs := [];
      var ws := watchers[k];
      var verdict := CheckWatch(keyPrefix, WatchCreate(Some(c)));
      if verdict == KeyNotFound {
        return;
      }
      if verdict != Accepted {
        watchers := watchers - {k};
        assert Abs().streams == old(Abs()).streams - {k};
        return;
      }
      DirectoryOf(keyPrefix, c.key, c.rangeEnd);
      var resource := WatchedResource(keyPrefix, c.key);
      var id := if c.watchId == 0 then random else c.watchId;
      var ok := ws.CreateWatchId(id, resource);
      if !ok {
        watchers := watchers - {k};
        assert Abs().streams == old(Abs()).streams - {k};
        return;
      }
      if c.startRevision != 0 {
        kvs := FirstWatch(ws, id, resource.value, c.startRevision, rev);
      } else {
        ws.sent := ws.sent + [WatchResponse(rev, id, true, false, [])];
        assert Puts(kvs) == [];
      }
      OneStreamChanged(k);
    }

    method OnCancelRequest(k: int, id: int, rev: int)
      requires Valid() && k in watchers
      modifies this`watchers, StreamAt(k)`route, StreamAt(k)`upstream, StreamAt(k)`sent
      ensures Valid()
      ensures Next(keyPrefix, old(Abs()), Cancel(k, id), Abs())
      ensures var ws := old(watchers[k]);
        ws.sent == if k in watchers then old(ws.sent) + [WatchResponse(rev, id, false, true, [])] else old(ws.sent)
    {
      var ws := watchers[k];
      var ok := ws.CancelWatchId(id);
      if !ok {
        watchers := watchers - {k};
        assert Abs().streams == old(Abs()).streams - {k};
        return;
      }
      ws.sent := ws.sent + [WatchResponse(rev, id, false, true, [])];
      OneStreamChanged(k);
    }

    /** One round of onWire. A create request without a key or for something unsupported, one whose
        id the resource has already, a cancel of an unknown id and a progress request end the stream
        without an answer. Keys of no directory are silenced. What is left is answered under the
        current revision. */
    method OnWire(k: int, req: WatchRequest, random: int, rev: int)
      requires Valid() && k in watchers
      modifies this`watchers, StreamAt(k)`route, StreamAt(k)`upstream, StreamAt(k)`sent
      ensures Valid()
      ensures match req
        case WatchCreate(Some(c)) => Next(keyPrefix, old(Abs()), Create(k, c, random), Abs())
        case WatchCancel(Some(id)) => Next(keyPrefix, old(Abs()), Cancel(k, id), Abs())
        case WatchProgress => Next(keyPrefix, old(Abs()), Close(k), Abs())
        case _ => Abs() == old(Abs())
      ensures var ws := old(watchers[k]);
        match req
        case WatchCreate(Some(c)) =>
          if c.key != "" && !ServedPair(keyPrefix, c.key, c.rangeEnd) then Abs() == old(Abs()) && ws.sent == old(ws.sent)
          else if k !in watchers then ws.sent == old(ws.sent)
          else exists kvs :: ws.sent == old(ws.sent) + [WatchResponse(rev, if c.watchId == 0 then random else c.watchId, true, false, Puts(kvs))]
        case WatchCancel(Some(id)) =>
          ws.sent == old(ws.sent) + if k in watchers then [WatchResponse(rev, id, false, true, [])] else []
        case _ => ws.sent == old(ws.sent)
    {
      match req {
        case WatchCreate(Some(c)) =>
          WatchVerdict(keyPrefix, req);
          CreateMeans(keyPrefix, Abs().streams[k], c, random);
          ghost var kvs := OnCreateRequest(k, c, random, rev);
          assert old(Abs()).streams[k := old(Abs()).streams[k]] == old(Abs()).streams;
        case WatchCancel(Some(id)) =>
          OnCancelRequest(k, id, rev);
        case WatchProgress =>
          watchers := watchers - {k};
        case _ =>
      }
    }
  }

  predicate Changed(prefix: string, metas: map<string, Meta>, minRev: int, o: Object) {
    o != NoObject && ObjectName(prefix, o) in metas && metas[ObjectName(prefix, o)].modRevision >= minRev
  }

  function Selected(prefix: string, metas: map<string, Meta>, minRev: int, objs: seq<Object>): seq<KeyValue> {
    if objs == [] then []
    else
      var o := objs[|objs| - 1];
      Selected(prefix, metas, minRev, objs[..|objs| - 1]) +
      if Changed(prefix, metas, minRev, o) then [Compose(ObjectName(prefix, o), metas[ObjectName(prefix, o)], o)] else []
  }

  lemma {:induction false} SelectedEntries(prefix: string, metas: map<string, Meta>, minRev: int, objs: seq<Object>)
    ensures forall kv :: kv in Selected(prefix, metas, minRev, objs) <==>
      exists o :: o in objs && Changed(prefix, metas, minRev, o) && kv == Compose(ObjectName(prefix, o), metas[ObjectName(prefix, o)], o)
  {
    if objs != [] {
      SelectedEntries(prefix, metas, minRev, objs[..|objs| - 1]);
      assert objs == objs[..|objs| - 1] + [objs[|objs| - 1]];
    }
  }

  lemma {:induction false} SelectedDistinct(prefix: string, metas: map<string, Meta>, minRev: int, objs: seq<Object>)
    requires forall i, j :: 0 <= i < j < |objs| && objs[i] != NoObject && objs[j] != NoObject ==>
      ObjectName(prefix, objs[i]) != ObjectName(prefix, objs[j])
    ensures DistinctKeys(Selected(prefix, metas, minRev, objs))
  {
    if objs != [] {
      var front := objs[..|objs| - 1];
      SelectedDistinct(prefix, metas, minRev, front);
      SelectedEntries(prefix, metas, minRev, front);
      var kvs := Selected(prefix, metas, minRev, front);
      forall i | 0 <= i < |kvs| && objs[|objs| - 1] != NoObject
        ensures kvs[i].key != ObjectName(prefix, objs[|objs| - 1])
      {
        assert kvs[i] in kvs;
        var o :| o in front && Changed(prefix, metas, minRev, o)
          && kvs[i] == Compose(ObjectName(prefix, o), metas[ObjectName(prefix, o)], o);
        var j :| 0 <= j < |front| && front[j] == o;
        assert objs[j] == o;
      }
      var last := objs[|objs| - 1];
      var all := Selected(prefix, metas, minRev, objs);
      if Changed(prefix, metas, minRev, last) {
        assert all == kvs + [Compose(ObjectName(prefix, last), metas[ObjectName(prefix, last)], last)];
      } else {
        assert all == kvs;
      }
    }
  }

  lemma {:induction false} SelectedIsMap(prefix: string, metas: map<string, Meta>, minRev: int, objs: seq<Object>, full: map<string, KeyValue>)
    requires forall i :: 0 <= i < |objs| ==> objs[i] != NoObject
    requires forall i, j :: 0 <= i < j < |objs| ==> ObjectName(prefix, objs[i]) != ObjectName(prefix, objs[j])
    requires forall i :: 0 <= i < |objs| && Changed(prefix, metas, minRev, objs[i]) ==>
      var n := ObjectName(prefix, objs[i]);
      n in full && full[n] == Compose(n, metas[n], objs[i])
    requires forall n :: n in full ==>
      exists i :: 0 <= i < |objs| && Changed(prefix, metas, minRev, objs[i]) && ObjectName(prefix, objs[i]) == n
    ensures Enumerates(Selected(prefix, metas, minRev, objs), full)
  {
    var kvs := Selected(prefix, metas, minRev, objs);
    SelectedEntries(prefix, metas, minRev, objs);
    SelectedDistinct(prefix, metas, minRev, objs);
    forall k | 0 <= k < |kvs|
      ensures kvs[k].key in full && full[kvs[k].key] == kvs[k]
    {
      assert kvs[k] in kvs;
    }
    forall n | n in full
      ensures exists k :: 0 <= k < |kvs| && kvs[k].key == n
    {
      var i :| 0 <= i < |objs| && Changed(prefix, metas, minRev, objs[i]) && ObjectName(prefix, objs[i]) == n;
      assert objs[i] in objs;
      assert Compose(n, metas[n], objs[i]) in kvs;
    }
  }

  lemma {:induction false} SelectedEnumerates(prefix: string, res: Resource, s: Store, metas: map<string, Meta>, minRev: int,
                                              objs: seq<Object>)
    requires ListsResource(objs, res, s)
    ensures Enumerates(Selected(prefix, metas, minRev, objs), FirstWatchKvs(prefix, res, s, metas, minRev))
  {
    var full := FirstWatchKvs(prefix, res, s, metas, minRev);
    forall i, j | 0 <= i < j < |objs|
      ensures ObjectName(prefix, objs[i]) != ObjectName(prefix, objs[j])
    {
      ListedObject(prefix, res, s, objs, i);
      ListedObject(prefix, res, s, objs, j);
      NamesDiffer(prefix, res, ObjectId(objs[i]), ObjectId(objs[j]));
    }
    forall i | 0 <= i < |objs|
      ensures var n := ObjectName(prefix, objs[i]);
        && (n in full <==> Changed(prefix, metas, minRev, objs[i]))
        && (n in full ==> full[n] == Compose(n, metas[n], objs[i]))
    {
      ListedObject(prefix, res, s, objs, i);
    }
    forall n | n in full
      ensures exists i :: 0 <= i < |objs| && Changed(prefix, metas, minRev, objs[i]) && ObjectName(prefix, objs[i]) == n
    {
      var i := ListedName(prefix, res, s, objs, n);
    }
    SelectedIsMap(prefix, metas, minRev, objs, full);
  }

  lemma {:induction false} RangeCoversInterval(prefix: string, res: Resource, s: Store, metas: map<string, Meta>, rev: int, kvs: seq<KeyValue>)
    requires Enumerates(kvs, Listing(prefix, res, s, metas, rev))
    ensures Enumerates(kvs, Restrict(FullListing(prefix, s, metas, rev), Dir(prefix, res), DirEnd(prefix, res)))
  {
    ListingIsRestriction(prefix, res, s, metas, rev);
  }

  lemma {:induction false} ListedRoutes(routes: seq<Route>, objs: seq<Object>, s: Store)
    requires LastWins(RouteId, routes) == s.routes
    requires forall i, j :: 0 <= i < j < |routes| ==> RouteId(routes[i]) != RouteId(routes[j])
    requires |objs| == |routes| && forall i :: 0 <= i < |objs| ==> objs[i] == RouteObject(routes[i])
    ensures ListsResource(objs, RouteResource, s)
  {
    LastWinsEntries(RouteId, routes);
    forall i | 0 <= i < |routes|
      ensures ObjectAt(s, RouteResource, routes[i].id) == objs[i]
    {
      LastWinsDistinct(RouteId, routes, routes[i]);
    }
    forall id | id in ObjectsOf(s, RouteResource)
      ensures exists i :: 0 <= i < |objs| && ObjectId(objs[i]) == id
    {
      var i :| 0 <= i < |routes| && routes[i] == s.routes[id];
      assert ObjectId(objs[i]) == RouteId(routes[i]);
    }
  }

  lemma {:induction false} ListedUpstreams(upstreams: seq<Upstream>, objs: seq<Object>, s: Store)
    requires LastWins(UpstreamId, upstreams) == s.upstreams
    requires forall i, j :: 0 <= i < j < |upstreams| ==> UpstreamId(upstreams[i]) != UpstreamId(upstreams[j])
    requires |objs| == |upstreams| && forall i :: 0 <= i < |objs| ==> objs[i] == UpstreamObject(upstreams[i])
    ensures ListsResource(objs, UpstreamResource, s)
  {
    LastWinsEntries(UpstreamId, upstreams);
    forall i | 0 <= i < |upstreams|
      ensures ObjectAt(s, UpstreamResource, upstreams[i].id) == objs[i]
    {
      LastWinsDistinct(UpstreamId, upstreams, upstreams[i]);
    }
    forall id | id in ObjectsOf(s, UpstreamResource)
      ensures exists i :: 0 <= i < |objs| && ObjectId(objs[i]) == id
    {
      var i :| 0 <= i < |upstreams| && upstreams[i] == s.upstreams[id];
      assert ObjectId(objs[i]) == UpstreamId(upstreams[i]);
    }
  }
}
