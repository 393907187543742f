/** The sidecar: pkg/sidecar/cachereflection.go and the consume loop of pkg/sidecar/types.go. */
module Sidecars {
  import opened Objects
  import opened Strings
  import opened EtcdModel
  import opened History
  import opened WatchModel
  import opened Cache
  import opened EtcdServer

  lemma {:induction false} StampAppend(a: seq<Event>, b: seq<Event>, rev: int)
    ensures Stamp(a + b, rev) == Stamp(a, rev) + Stamp(b, rev + |a|)
  {
  }

  lemma {:induction false} StampFlatten(batches: seq<seq<Event>>, n: nat, rev: int)
    requires n < |batches|
    ensures Stamp(Flatten(batches[..n + 1]), rev) ==
      Stamp(Flatten(batches[..n]), rev) + Stamp(batches[n], rev + |Flatten(batches[..n])|)
  {
    assert batches[..n + 1][..n] == batches[..n];
    StampAppend(Flatten(batches[..n]), batches[n], rev);
  }

  /** A client that held the listing of a directory and applies, in order, what its watch was
      sent for a batch holds the listing after the batch. */
  lemma {:induction false} ClientFollows(prefix: string, res: Resource, h: seq<Event>, evs: seq<Event>,
                                         ws: Stream, id: int, rev1: int, rev2: int)
    requires forall other :: id in ws.Registered(other) <==> other == res
    ensures var metas := MetaAll(prefix, map[], h);
      Replay(Listing(prefix, res, ApplyAll(EMPTY_STORE, h), metas, rev1),
             EventsIn(OwedAll(prefix, metas, evs, ws, id))) ==
      Listing(prefix, res, ApplyAll(EMPTY_STORE, h + evs), MetaAll(prefix, map[], h + evs), rev2)
  {
    OwedIsLogInRange(prefix, MetaAll(prefix, map[], h), evs, ws, id, res);
    WatcherFollows(prefix, res, h, evs, rev1, rev2);
  }

  function KeysIn(log: seq<WatchEvent>): set<string> {
    set e | e in log :: e.kv.key
  }

  lemma {:induction false} ReplayBeside(a: map<string, KeyValue>, b: map<string, KeyValue>, log: seq<WatchEvent>)
    requires a.Keys !! b.Keys
    ensures Replay(a + b, log) == (a - KeysIn(log)) + Replay(b, log)
  {
    if log != [] {
      var front, e := log[..|log| - 1], log[|log| - 1];
      ReplayBeside(a, b, front);
      assert log == front + [e];
      assert KeysIn(log) == KeysIn(front) + {e.kv.key};
      OneKeyBeside(a, KeysIn(front), Replay(b, front), e.kv.key, e.kv);
    }
  }

  lemma {:induction false} OneKeyBeside(a: map<string, KeyValue>, gone: set<string>, b: map<string, KeyValue>, k: string, kv: KeyValue)
    ensures ((a - gone) + b) - {k} == (a - (gone + {k})) + (b - {k})
    ensures ((a - gone) + b)[k := kv] == (a - (gone + {k})) + b[k := kv]
  {
  }

  /** Listing, losing the stream, watching again and following, composed: a client that held the
      directory as of revision r, overlays the first response of a watch from r and applies what
      the watch is sent from then on holds the current directory plus exactly the keys that were
      live at r, were deleted before the new watch and have not been sent since. So it holds the
      directory if and only if there is no such key. */
  lemma {:induction false} RewatchFollows(prefix: string, res: Resource, h: seq<Event>, r: nat, evs: seq<Event>, ws: Stream, id: int, rev: int)
    requires Stamped(h) && r <= |h|
    requires forall other :: id in ws.Registered(other) <==> other == res
    ensures var then1 := Restrict(KeySpace(prefix, h[..r]), Dir(prefix, res), DirEnd(prefix, res));
      var now := Listing(prefix, res, ApplyAll(EMPTY_STORE, h), MetaAll(prefix, map[], h), rev);
      var after := Listing(prefix, res, ApplyAll(EMPTY_STORE, h + evs), MetaAll(prefix, map[], h + evs), rev);
      var owed := EventsIn(OwedAll(prefix, MetaAll(prefix, map[], h), evs, ws, id));
      var stale := (then1 - now.Keys) - KeysIn(owed);
      && Replay(then1 + ChangedSince(now, r), owed) == stale + after
      && (Replay(then1 + ChangedSince(now, r), owed) == after <==> stale == map[])
  {
    var lo, hi := Dir(prefix, res), DirEnd(prefix, res);
    var then1 := Restrict(KeySpace(prefix, h[..r]), lo, hi);
    var metas := MetaAll(prefix, map[], h);
    var now := Listing(prefix, res, ApplyAll(EMPTY_STORE, h), metas, rev);
    var after := Listing(prefix, res, ApplyAll(EMPTY_STORE, h + evs), MetaAll(prefix, map[], h + evs), rev);
    var owed := EventsIn(OwedAll(prefix, metas, evs, ws, id));
    KeySpaceIsListing(prefix, h, rev);
    ListingIsRestriction(prefix, res, ApplyAll(EMPTY_STORE, h), metas, rev);
    CatchUp(prefix, res, h, r);
    ClientFollows(prefix, res, h, evs, ws, id, rev, rev);
    ReplayBeside(then1 - now.Keys, now, owed);
    StaleApart(then1 - now.Keys, now, owed);
    OnlyStale((then1 - now.Keys) - KeysIn(owed), after);
  }

  lemma {:induction false} StaleApart(a: map<string, KeyValue>, b: map<string, KeyValue>, log: seq<WatchEvent>)
    requires a.Keys !! b.Keys
    ensures (a - KeysIn(log)).Keys !! Replay(b, log).Keys
  {
    if log != [] {
      var front, e := log[..|log| - 1], log[|log| - 1];
      StaleApart(a, b, front);
      assert log == front + [e];
      assert KeysIn(log) == KeysIn(front) + {e.kv.key};
    }
  }

  lemma {:induction false} OnlyStale(stale: map<string, KeyValue>, after: map<string, KeyValue>)
    requires stale.Keys !! after.Keys
    ensures stale + after == after <==> stale == map[]
  {
    if stale != map[] {
      var k :| k in stale;
      assert k in stale + after && k !in after;
    }
  }

  lemma {:induction false} ApplyNext(s: Store, evs: seq<Event>, i: nat)
    requires i < |evs|
    ensures ApplyAll(s, evs[..i + 1]) == Apply(ApplyAll(s, evs[..i]), evs[i])
  {
    assert evs[..i + 1][..i] == evs[..i];
  }

  class Sidecar {
    const cache: InMemoryCache
    const etcd: EtcdV3
    var revision: int
    /** All events consumed so far, with their revisions. */
    ghost var history: seq<Event>

    /** Between batches: cache, metadata and revision are functions of the history. */
    ghost predicate Valid()
      reads this, cache, cache.route, cache.upstream, etcd, etcd.cache, etcd.cache.route, etcd.cache.upstream
    {
      && cache.Valid() && etcd.Valid() && etcd.cache == cache
      && Stamped(history) && revision == |history|
      && cache.View() == ApplyAll(EMPTY_STORE, history)
      && etcd.metaCache == MetaAll(etcd.keyPrefix, map[], history)
    }

    constructor (keyPrefix: string)
      ensures Valid() && history == [] && etcd.keyPrefix == keyPrefix && etcd.watchers == map[]
      ensures fresh(cache) && fresh(cache.route) && fresh(cache.upstream) && fresh(etcd)
    {
      var c := new InMemoryCache();
      var e := new EtcdV3(keyPrefix, c);
      cache, etcd, revision, history := c, e, 0, [];
    }

    /** Revision is one past the last stamped revision. */
    function Revision(): (rev: int)
      requires Valid()
      reads this, cache, cache.route, cache.upstream, etcd, etcd.cache, etcd.cache.route, etcd.cache.upstream
      ensures rev >= 0 && forall i :: 0 <= i < |history| ==> history[i].revision < rev
      ensures forall n :: n in etcd.metaCache ==>
        0 <= etcd.metaCache[n].createRevision <= etcd.metaCache[n].modRevision < rev
    {
      MetaBelowRevision(etcd.keyPrefix, history);
      revision
    }

    method ReflectOne(ev: Event)
      requires cache.Valid()
      modifies cache.route`store, cache.upstream`store
      ensures cache.Valid()
      ensures cache.View() == Apply(old(cache.View()), ev)
    {
      if ev.typ == Add || ev.typ == Update {
        match ev.body {
          case RouteObject(r) => cache.route.Insert(r);
          case UpstreamObject(u) => cache.upstream.Insert(u);
          case NoObject =>
        }
      } else {
        match ev.tombstone {
          case RouteObject(r) => var found := cache.route.Delete(r.id);
          case UpstreamObject(u) => var found := cache.upstream.Delete(u.id);
          case NoObject =>
        }
      }
    }

    /** Folds a batch into the cache and writes consecutive revisions into the batch itself. */
    method ReflectToCache(events: array<Event>)
      requires cache.Valid()
      modifies events, this`revision, cache.route`store, cache.upstream`store
      ensures cache.Valid()
      ensures events[..] == Stamp(old(events[..]), old(revision))
      ensures revision == old(revision) + events.Length
      ensures cache.View() == ApplyAll(old(cache.View()), old(events[..]))
    {
      ghost var batch := events[..];
      var i := 0;
      while i < events.Length
        invariant 0 <= i <= events.Length
        invariant cache.Valid()
        invariant revision == old(revision) + i
        invariant forall k :: 0 <= k < i ==> events[k] == batch[k].(revision := old(revision) + k)
        invariant forall k :: i <= k < events.Length ==> events[k] == batch[k]
        invariant cache.View() == ApplyAll(old(cache.View()), batch[..i])
      {
        var ev := events[i];
        ApplyNext(old(cache.View()), batch, i);
        ReflectOne(ev);
        var rev := revision;
        revision := rev + 1;
        events[i] := ev.(revision := rev);
        i := i + 1;
      }
      assert batch[..i] == batch;
    }

    method ReflectBatch(batch: seq<Event>) returns (stamped: seq<Event>)
      requires cache.Valid()
      modifies this`revision, cache.route`store, cache.upstream`store
      ensures cache.Valid()
      ensures stamped == Stamp(batch, old(revision)) && revision == old(revision) + |batch|
      ensures cache.View() == ApplyAll(old(cache.View()), batch)
    {
      var events := new Event[|batch|](i requires 0 <= i < |batch| => batch[i]);
      assert events[..] == batch;
      ReflectToCache(events);
      stamped := events[..];
    }

    /** One round of the consume loop: cache first, then etcd. */
    method Consume(batch: seq<Event>)
      requires Valid()
      modifies this, cache.route`store, cache.upstream`store, etcd`metaCache, etcd.Streams()`queue
      ensures Valid()
      ensures history == old(history) + Stamp(batch, old(revision))
      ensures Delivers(etcd.keyPrefix, old(etcd.metaCache), Stamp(batch, old(revision)), old(etcd.Abs()).streams, etcd.Abs().streams)
    {
      ghost var streams := etcd.Abs().streams;
      HistoryGrows(etcd.keyPrefix, history, batch);
      var stamped := ReflectBatch(batch);
      history := history + stamped;
      assert etcd.Abs().streams == streams;
      etcd.PushEvents(stamped);
    }

    /** The consume loop over the batches that the provisioner's channel delivers, in order. */
    method Run(batches: seq<seq<Event>>) returns (ghost consumed: seq<Event>)
      requires Valid()
      modifies this, cache.route`store, cache.upstream`store, etcd`metaCache, etcd.Streams()`queue
      ensures Valid()
      ensures consumed == Stamp(Flatten(batches), old(revision)) && history == old(history) + consumed
      ensures Delivers(etcd.keyPrefix, old(etcd.metaCache), consumed, old(etcd.Abs()).streams, etcd.Abs().streams)
    {
      consumed := [];
      ghost var prefix, h, streams, now := etcd.keyPrefix, history, etcd.Abs().streams, etcd.Abs().streams;
      DeliversNothing(prefix, etcd.metaCache, streams);
      for n := 0 to |batches|
        invariant Valid() && now == etcd.Abs().streams
        invariant consumed == Stamp(Flatten(batches[..n]), |h|) && history == h + consumed
        invariant Delivers(prefix, MetaAll(prefix, map[], h), consumed, streams, now)
      {
        ghost var before, stamped, s1 := consumed, Stamp(batches[n], |h| + |consumed|), now;
        assert etcd.metaCache == MetaAll(prefix, map[], h + before) && Stamp(batches[n], revision) == stamped;
        Consume(batches[n]);
        now := etcd.Abs().streams;
        assert Delivers(prefix, MetaAll(prefix, map[], h + before), stamped, s1, now);
        consumed := before + stamped;
        Associative(h, before, stamped);
        RunStep(prefix, h, batches, n, before, streams, s1, now);
      }
      assert batches[..|batches|] == batches;
    }
  }

  /** A batch stamped on top of a history, seen by the stamps, the stores and the metadata. */
  lemma {:induction false} HistoryGrows(prefix: string, h: seq<Event>, batch: seq<Event>)
    requires Stamped(h)
    ensures var stamped := Stamp(batch, |h|);
      && Stamped(h + stamped)
      && ApplyAll(EMPTY_STORE, h + stamped) == ApplyAll(ApplyAll(EMPTY_STORE, h), batch)
      && MetaAll(prefix, map[], h + stamped) == MetaAll(prefix, MetaAll(prefix, map[], h), stamped)
  {
    StampExtends(h, batch);
    StampApplies(ApplyAll(EMPTY_STORE, h), batch, |h|);
    ApplyAllAppend(EMPTY_STORE, h, Stamp(batch, |h|));
    LogAppend(prefix, map[], h, Stamp(batch, |h|));
  }

  lemma {:induction false} RunStep(prefix: string, h: seq<Event>, batches: seq<seq<Event>>, n: nat, before: seq<Event>,
                                   s0: map<int, Stream>, s1: map<int, Stream>, s2: map<int, Stream>)
    requires n < |batches| && before == Stamp(Flatten(batches[..n]), |h|)
    ensures var stamped := Stamp(batches[n], |h| + |before|);
      && before + stamped == Stamp(Flatten(batches[..n + 1]), |h|)
      && (Delivers(prefix, MetaAll(prefix, map[], h), before, s0, s1)
          && Delivers(prefix, MetaAll(prefix, map[], h + before), stamped, s1, s2)
          ==> Delivers(prefix, MetaAll(prefix, map[], h), before + stamped, s0, s2))
  {
    var stamped, metas := Stamp(batches[n], |h| + |before|), MetaAll(prefix, map[], h);
    StampFlatten(batches, n, |h|);
    LogAppend(prefix, map[], h, before);
    if Delivers(prefix, metas, before, s0, s1) && Delivers(prefix, MetaAll(prefix, metas, before), stamped, s1, s2) {
      DeliversAppend(prefix, metas, before, stamped, s0, s1, s2);
    }
  }

  lemma {:induction false} MetaBelowRevision(prefix: string, h: seq<Event>)
    requires Stamped(h)
    ensures forall n :: n in MetaAll(prefix, map[], h) ==>
      var m := MetaAll(prefix, map[], h)[n];
      0 <= m.createRevision <= m.modRevision < |h|
  {
    forall n | n in MetaAll(prefix, map[], h)
      ensures var m := MetaAll(prefix, map[], h)[n];
        0 <= m.createRevision <= m.modRevision < |h|
    {
      MetadataIsHistory(prefix, h, n);
    }
  }
}
