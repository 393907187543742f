/** The key space as a function of the history: metadata, watch refinement and catch-up. */
module History {
  import opened Objects
  import opened Strings
  import opened EtcdModel

  /** Event i of a history carries revision i: the first event gets revision 0. */
  ghost predicate Stamped(h: seq<Event>) {
    forall i :: 0 <= i < |h| ==> h[i].revision == i
  }

  /** A batch with the consecutive revisions it is given on its way into the cache. */
  function Stamp(evs: seq<Event>, rev: int): seq<Event> {
    seq(|evs|, i requires 0 <= i < |evs| => evs[i].(revision := rev + i))
  }

  lemma {:induction false} StampExtends(h: seq<Event>, evs: seq<Event>)
    requires Stamped(h)
    ensures Stamped(h + Stamp(evs, |h|))
  {
  }

  /** Stamping does not matter to the stores. */
  lemma {:induction false} StampApplies(s: Store, evs: seq<Event>, rev: int)
    ensures ApplyAll(s, Stamp(evs, rev)) == ApplyAll(s, evs)
  {
    if evs != [] {
      StampApplies(s, evs[..|evs| - 1], rev);
      assert Stamp(evs, rev)[..|evs| - 1] == Stamp(evs[..|evs| - 1], rev);
    }
  }

  ghost predicate PutAt(prefix: string, name: string, h: seq<Event>, i: int) {
    0 <= i < |h| && Touches(prefix, h[i], name) && h[i].typ != Delete
  }

  ghost predicate DeleteAt(prefix: string, name: string, h: seq<Event>, i: int) {
    0 <= i < |h| && Touches(prefix, h[i], name) && h[i].typ == Delete
  }

  ghost predicate LastTouch(prefix: string, name: string, h: seq<Event>, i: int) {
    && (PutAt(prefix, name, h, i) || DeleteAt(prefix, name, h, i))
    && forall j :: i < j < |h| ==> !Touches(prefix, h[j], name)
  }

  ghost predicate FirstPutSinceDelete(prefix: string, name: string, h: seq<Event>, c: int) {
    && PutAt(prefix, name, h, c)
    && (forall d :: c < d ==> !DeleteAt(prefix, name, h, d))
    && (forall j :: j < c && PutAt(prefix, name, h, j) ==> exists d :: j < d < c && DeleteAt(prefix, name, h, d))
  }

  /** Metadata is a function of history: a key has metadata exactly when its last event was a
      PUT, modRevision is the index of that event, and createRevision is the index of the
      first PUT since the key was last deleted. */
  lemma {:induction false} MetadataIsHistory(prefix: string, h: seq<Event>, name: string)
    requires Stamped(h)
    ensures var metas := MetaAll(prefix, map[], h);
      && (name in metas <==> exists i :: LastTouch(prefix, name, h, i) && PutAt(prefix, name, h, i))
      && (name in metas ==>
            && LastTouch(prefix, name, h, metas[name].modRevision)
            && FirstPutSinceDelete(prefix, name, h, metas[name].createRevision)
            && 0 <= metas[name].createRevision <= metas[name].modRevision < |h|)
  {
    if h != [] {
      var front, ev, last := h[..|h| - 1], h[|h| - 1], |h| - 1;
      MetadataIsHistory(prefix, front, name);
      var before, after := MetaAll(prefix, map[], front), MetaAll(prefix, map[], h);
      SameBefore(prefix, name, h);
      if Touches(prefix, ev, name) {
        assert LastTouch(prefix, name, h, last);
        forall i | LastTouch(prefix, name, h, i)
          ensures i == last
        {
        }
        if name !in before && ev.typ != Delete {
          NoOpenPut(prefix, name, front);
          forall j | j < last && PutAt(prefix, name, h, j)
            ensures exists d :: j < d < last && DeleteAt(prefix, name, h, d)
          {
            assert PutAt(prefix, name, front, j);
            var d :| j < d && DeleteAt(prefix, name, front, d);
            assert DeleteAt(prefix, name, h, d);
          }
          assert FirstPutSinceDelete(prefix, name, h, last);
        } else if ev.typ != Delete {
          FirstPutKept(prefix, name, h, before[name].createRevision);
        }
      } else {
        forall i
          ensures LastTouch(prefix, name, h, i) <==> LastTouch(prefix, name, front, i)
        {
        }
        if name in before {
          FirstPutKept(prefix, name, h, before[name].createRevision);
        }
      }
    }
  }

  lemma {:induction false} SameBefore(prefix: string, name: string, h: seq<Event>)
    requires h != []
    ensures forall i :: i < |h| - 1 ==> PutAt(prefix, name, h, i) == PutAt(prefix, name, h[..|h| - 1], i)
    ensures forall i :: i < |h| - 1 ==> DeleteAt(prefix, name, h, i) == DeleteAt(prefix, name, h[..|h| - 1], i)
  {
  }

  lemma {:induction false} FirstPutKept(prefix: string, name: string, h: seq<Event>, c: int)
    requires h != [] && FirstPutSinceDelete(prefix, name, h[..|h| - 1], c)
    requires !DeleteAt(prefix, name, h, |h| - 1)
    ensures FirstPutSinceDelete(prefix, name, h, c)
  {
    var front := h[..|h| - 1];
    SameBefore(prefix, name, h);
    forall j | j < c && PutAt(prefix, name, h, j)
      ensures exists d :: j < d < c && DeleteAt(prefix, name, h, d)
    {
      assert PutAt(prefix, name, front, j);
      var d :| j < d < c && DeleteAt(prefix, name, front, d);
      assert DeleteAt(prefix, name, h, d);
    }
  }

  /** Without a PUT as the last touch, every PUT has been followed by a delete. */
  lemma {:induction false} NoOpenPut(prefix: string, name: string, h: seq<Event>)
    requires !exists i :: LastTouch(prefix, name, h, i) && PutAt(prefix, name, h, i)
    ensures forall j :: PutAt(prefix, name, h, j) ==> exists d :: j < d && DeleteAt(prefix, name, h, d)
  {
    forall j | PutAt(prefix, name, h, j)
      ensures exists d :: j < d && DeleteAt(prefix, name, h, d)
    {
      var k := LastTouchFrom(prefix, name, h, j);
      assert !PutAt(prefix, name, h, k);
      assert DeleteAt(prefix, name, h, k);
    }
  }

  lemma {:induction false} LastTouchFrom(prefix: string, name: string, h: seq<Event>, j: int) returns (k: int)
    requires PutAt(prefix, name, h, j) || DeleteAt(prefix, name, h, j)
    ensures j <= k && LastTouch(prefix, name, h, k)
    decreases |h| - j
  {
    if next :| j < next < |h| && Touches(prefix, h[next], name) {
      k := LastTouchFrom(prefix, name, h, next);
    } else {
      k := j;
    }
  }

  lemma {:induction false} EmptyListing(prefix: string, rev: int)
    ensures FullListing(prefix, EMPTY_STORE, map[], rev) == map[]
    ensures InStep(prefix, EMPTY_STORE, map[])
  {
    assert ObjectsOf(EMPTY_STORE, RouteResource) == map[];
    assert ObjectsOf(EMPTY_STORE, UpstreamResource) == map[];
    assert Names(prefix, RouteResource, EMPTY_STORE) == {};
    assert Names(prefix, UpstreamResource, EMPTY_STORE) == {};
  }

  /** The log of pushed events rebuilds what a listing of cache and metadata returns, so the
      fallback revision of a listing is never used. */
  lemma {:induction false} KeySpaceIsListing(prefix: string, h: seq<Event>, rev: int)
    ensures InStep(prefix, ApplyAll(EMPTY_STORE, h), MetaAll(prefix, map[], h))
    ensures KeySpace(prefix, h) == FullListing(prefix, ApplyAll(EMPTY_STORE, h), MetaAll(prefix, map[], h), rev)
  {
    EmptyListing(prefix, rev);
    ListingIsReplay(prefix, EMPTY_STORE, map[], h, rev);
  }

  lemma {:induction false} KeySpaceEntries(prefix: string, h: seq<Event>)
    ensures KeySpace(prefix, h).Keys == MetaAll(prefix, map[], h).Keys
    ensures forall n :: n in KeySpace(prefix, h) ==>
      var kv, m := KeySpace(prefix, h)[n], MetaAll(prefix, map[], h)[n];
      kv.key == n && kv.createRevision == m.createRevision && kv.modRevision == m.modRevision
  {
    KeySpaceIsListing(prefix, h, 0);
  }

  function Restrict(kvs: map<string, KeyValue>, lo: string, hi: string): map<string, KeyValue> {
    map n | n in kvs && InInterval(n, lo, hi) :: kvs[n]
  }

  /** The part of a log that falls into an interval of keys. */
  function InRange(log: seq<WatchEvent>, lo: string, hi: string): seq<WatchEvent> {
    if log == [] then []
    else InRange(log[..|log| - 1], lo, hi) + if InInterval(log[|log| - 1].kv.key, lo, hi) then [log[|log| - 1]] else []
  }

  lemma {:induction false} ReplayInRange(kvs: map<string, KeyValue>, log: seq<WatchEvent>, lo: string, hi: string)
    ensures Replay(Restrict(kvs, lo, hi), InRange(log, lo, hi)) == Restrict(Replay(kvs, log), lo, hi)
  {
    if log != [] {
      var front, e := log[..|log| - 1], log[|log| - 1];
      ReplayInRange(kvs, front, lo, hi);
      if InInterval(e.kv.key, lo, hi) {
        ReplayAppend(Restrict(kvs, lo, hi), InRange(front, lo, hi), [e]);
        ReplayOne(Restrict(Replay(kvs, front), lo, hi), e);
      } else {
        assert InRange(log, lo, hi) == InRange(front, lo, hi);
      }
    }
  }

  /** A directory's listing is the key space cut to the directory's interval. */
  lemma {:induction false} ListingIsRestriction(prefix: string, res: Resource, s: Store, metas: map<string, Meta>, rev: int)
    ensures Restrict(FullListing(prefix, s, metas, rev), Dir(prefix, res), DirEnd(prefix, res)) ==
      Listing(prefix, res, s, metas, rev)
  {
    var lo, hi := Dir(prefix, res), DirEnd(prefix, res);
    forall r, n | n in Names(prefix, r, s)
      ensures InInterval(n, lo, hi) <==> r == res
    {
      NamesHaveIds(prefix, r, s);
      DirectoryIsInterval(prefix, res, r, IdOf(prefix, r, n));
    }
    NamesApart(prefix, s, s);
  }

  /** The watch log refines the key-value state: a client that lists a directory after h1 and
      then applies, in order, what is published for that directory during h2, holds what a
      listing after h1 + h2 returns, in keys, both revisions and values. */
  lemma {:induction false} WatcherFollows(prefix: string, res: Resource, h1: seq<Event>, h2: seq<Event>, rev1: int, rev2: int)
    ensures var metas := MetaAll(prefix, map[], h1);
      Replay(Listing(prefix, res, ApplyAll(EMPTY_STORE, h1), metas, rev1),
             InRange(Log(prefix, metas, h2), Dir(prefix, res), DirEnd(prefix, res))) ==
      Listing(prefix, res, ApplyAll(EMPTY_STORE, h1 + h2), MetaAll(prefix, map[], h1 + h2), rev2)
  {
    var metas, s := MetaAll(prefix, map[], h1), ApplyAll(EMPTY_STORE, h1);
    var lo, hi := Dir(prefix, res), DirEnd(prefix, res);
    KeySpaceIsListing(prefix, h1, rev1);
    KeySpaceIsListing(prefix, h1 + h2, rev2);
    ListingIsRestriction(prefix, res, s, metas, rev1);
    ListingIsRestriction(prefix, res, ApplyAll(EMPTY_STORE, h1 + h2), MetaAll(prefix, map[], h1 + h2), rev2);
    LogAppend(prefix, map[], h1, h2);
    ReplayAppend(map[], Log(prefix, map[], h1), Log(prefix, metas, h2));
    ReplayInRange(KeySpace(prefix, h1), Log(prefix, metas, h2), lo, hi);
  }

  lemma {:induction false} UntouchedKept(prefix: string, metas: map<string, Meta>, kvs: map<string, KeyValue>,
                                         evs: seq<Event>, name: string)
    requires forall i :: 0 <= i < |evs| ==> !Touches(prefix, evs[i], name)
    ensures var after := Replay(kvs, Log(prefix, metas, evs));
      (name in after <==> name in kvs) && (name in kvs ==> after[name] == kvs[name])
  {
    if evs != [] {
      var front, ev := evs[..|evs| - 1], evs[|evs| - 1];
      UntouchedKept(prefix, metas, kvs, front, name);
      if ev.Payload() == NoObject {
        assert Log(prefix, metas, evs) == Log(prefix, metas, front);
      } else {
        var e := Published(prefix, MetaAll(prefix, metas, front), ev);
        ReplayAppend(kvs, Log(prefix, metas, front), [e]);
        ReplayOne(Replay(kvs, Log(prefix, metas, front)), e);
      }
    }
  }

  /** The PUTs that the first response of a watch from revision r carries. */
  function ChangedSince(kvs: map<string, KeyValue>, r: int): map<string, KeyValue> {
    map n | n in kvs && kvs[n].modRevision >= r :: kvs[n]
  }

  /** Catch-up is exact but for deletions: a client that held the directory as of revision r
      and overlays the first response of its watch from r holds the current directory plus
      exactly the keys live at r and deleted now. */
  lemma {:induction false} CatchUp(prefix: string, res: Resource, h: seq<Event>, r: nat)
    requires Stamped(h) && r <= |h|
    ensures var lo, hi := Dir(prefix, res), DirEnd(prefix, res);
      var then1, now := Restrict(KeySpace(prefix, h[..r]), lo, hi), Restrict(KeySpace(prefix, h), lo, hi);
      then1 + ChangedSince(now, r) == (then1 - now.Keys) + now
  {
    var then1, now := KeySpace(prefix, h[..r]), KeySpace(prefix, h);
    forall n | n in now && now[n].modRevision < r
      ensures n in then1 && then1[n] == now[n]
    {
      UnchangedSince(prefix, h, r, n);
    }
  }

  lemma {:induction false} UnchangedSince(prefix: string, h: seq<Event>, r: nat, n: string)
    requires Stamped(h) && r <= |h|
    requires n in KeySpace(prefix, h) && KeySpace(prefix, h)[n].modRevision < r
    ensures n in KeySpace(prefix, h[..r]) && KeySpace(prefix, h[..r])[n] == KeySpace(prefix, h)[n]
  {
    var metas := MetaAll(prefix, map[], h[..r]);
    assert h == h[..r] + h[r..];
    KeySpaceEntries(prefix, h);
    MetadataIsHistory(prefix, h, n);
    assert forall i :: 0 <= i < |h[r..]| ==> h[r..][i] == h[r + i];
    LogAppend(prefix, map[], h[..r], h[r..]);
    ReplayAppend(map[], Log(prefix, map[], h[..r]), Log(prefix, metas, h[r..]));
    UntouchedKept(prefix, metas, KeySpace(prefix, h[..r]), h[r..], n);
  }

  /** Hence a catch-up loses nothing exactly when nothing that was live at r is gone now. */
  lemma {:induction false} CatchUpIsCompleteIff(prefix: string, res: Resource, h: seq<Event>, r: nat)
    requires Stamped(h) && r <= |h|
    ensures var lo, hi := Dir(prefix, res), DirEnd(prefix, res);
      var then1, now := Restrict(KeySpace(prefix, h[..r]), lo, hi), Restrict(KeySpace(prefix, h), lo, hi);
      then1 + ChangedSince(now, r) == now <==>
        forall n :: n in then1 ==> exists i :: LastTouch(prefix, n, h, i) && PutAt(prefix, n, h, i)
  {
    CatchUp(prefix, res, h, r);
    var lo, hi := Dir(prefix, res), DirEnd(prefix, res);
    var then1, now := Restrict(KeySpace(prefix, h[..r]), lo, hi), Restrict(KeySpace(prefix, h), lo, hi);
    KeySpaceEntries(prefix, h);
    forall n | n in then1
      ensures n in now <==> exists i :: LastTouch(prefix, n, h, i) && PutAt(prefix, n, h, i)
    {
      MetadataIsHistory(prefix, h, n);
    }
    if then1 + ChangedSince(now, r) == now {
      assert forall n :: n in then1 ==> n in then1 + ChangedSince(now, r);
    }
  }

  /** A concrete loss: a route is added, the client falls behind, the route is deleted, and a
      watch from revision 1 never tells. */
  lemma {:induction false} CatchUpMissesDeletion(prefix: string, route: Route)
    ensures var h := Stamp([PutEvent(Add, RouteObject(route)), DeleteEvent(RouteObject(route))], 0);
      var n := Name(prefix, RouteResource, route.id);
      Stamped(h) && n in KeySpace(prefix, h[..1]) && n !in KeySpace(prefix, h) && ChangedSince(KeySpace(prefix, h), 1) == map[]
  {
    var put, del := PutEvent(Add, RouteObject(route)), DeleteEvent(RouteObject(route));
    var h := Stamp([put, del], 0);
    assert h[0] == put && h[1] == del.(revision := 1);
    assert h[..1] == [put] && h == [put] + [h[1]];
    PutThenDelete(prefix, put, h[1]);
  }

  lemma {:induction false} PutThenDelete(prefix: string, put: Event, del: Event)
    requires put.Payload() != NoObject && put.typ != Delete && del.typ == Delete && del.Payload() == put.Payload()
    ensures ObjectName(prefix, put.Payload()) in KeySpace(prefix, [put])
    ensures KeySpace(prefix, [put] + [del]) == map[]
  {
    var m0: map<string, Meta> := map[];
    var m1 := MetaAll(prefix, m0, [put]);
    LogAppend(prefix, m0, [put], [del]);
    OneEventLog(prefix, m0, put);
    OneEventLog(prefix, m1, del);
    ReplayAppend(map[], Log(prefix, m0, [put]), Log(prefix, m1, [del]));
    OneEventReplay(prefix, m0, put);
    OneDeleteReplay(Published(prefix, m0, put), Published(prefix, m1, del));
  }

  lemma {:induction false} OneEventReplay(prefix: string, metas: map<string, Meta>, ev: Event)
    requires ev.Payload() != NoObject && ev.typ != Delete
    ensures var e := Published(prefix, metas, ev);
      Replay(map[], [e]) == map[e.kv.key := e.kv] && e.kv.key == ObjectName(prefix, ev.Payload())
  {
    ReplayOne(map[], Published(prefix, metas, ev));
  }

  lemma {:induction false} OneDeleteReplay(a: WatchEvent, b: WatchEvent)
    requires !a.deleted && b.deleted && a.kv.key == b.kv.key
    ensures Replay(Replay(map[], [a]), [b]) == map[]
  {
    ReplayOne(map[], a);
    ReplayOne(Replay(map[], [a]), b);
  }

  lemma {:induction false} OneEventLog(prefix: string, metas: map<string, Meta>, ev: Event)
    requires ev.Payload() != NoObject
    ensures Log(prefix, metas, [ev]) == [Published(prefix, metas, ev)]
    ensures MetaAll(prefix, metas, [ev]) == MetaStep(prefix, metas, ev)
  {
    assert [ev][..0] == [];
  }

  /** The number of the published event that event j of the history gives. */
  function NumberOf(prefix: string, h: seq<Event>, j: nat): nat
    requires j <= |h|
  {
    |Log(prefix, map[], h[..j])|
  }

  lemma {:induction false} LogAround(prefix: string, h: seq<Event>, j: nat)
    requires j < |h| && h[j].Payload() != NoObject
    ensures var log, m := Log(prefix, map[], h), MetaAll(prefix, map[], h[..j + 1]);
      log == Log(prefix, map[], h[..j]) + [Published(prefix, MetaAll(prefix, map[], h[..j]), h[j])] + Log(prefix, m, h[j + 1..])
  {
    assert h[..j + 1] == h[..j] + [h[j]] && h == h[..j + 1] + h[j + 1..];
    LogSnoc(prefix, map[], h[..j], h[j]);
    LogAppend(prefix, map[], h[..j + 1], h[j + 1..]);
  }

  /** The published form of an event, field by field: its key under the prefix, its own revision,
      its object, whether it deletes, and as create revision the index of the first PUT since the
      key was last deleted, which is its own if the key was not live. */
  lemma {:induction false} LogEntry(prefix: string, h: seq<Event>, j: nat)
    requires Stamped(h) && j < |h| && h[j].Payload() != NoObject
    ensures var log, p, o, before := Log(prefix, map[], h), NumberOf(prefix, h, j), h[j].Payload(), h[..j];
      var name := prefix + (if o.RouteObject? then "/routes/" else "/upstreams/") + ObjectId(o);
      && p < |log|
      && log[p].kv.key == name && log[p].kv.modRevision == j && log[p].kv.value == Json(o)
      && (log[p].deleted <==> h[j].typ == Delete)
      && ((exists i :: LastTouch(prefix, name, before, i) && PutAt(prefix, name, before, i)) ==>
            FirstPutSinceDelete(prefix, name, before, log[p].kv.createRevision))
      && ((forall i :: !(LastTouch(prefix, name, before, i) && PutAt(prefix, name, before, i))) ==>
            log[p].kv.createRevision == j)
  {
    var o := h[j].Payload();
    LogAround(prefix, h, j);
    PathIsName(prefix, o);
    assert Stamped(h[..j]);
    MetadataIsHistory(prefix, h[..j], ObjectName(prefix, o));
  }
}
