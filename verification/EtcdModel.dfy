/** What the mimicked etcd stores and sends, as functions of the event history. */
module EtcdModel {
  import opened Objects
  import opened Strings

  /** The two directories that clients may list and watch. */
  datatype Resource = RouteResource | UpstreamResource

  function Dir(prefix: string, res: Resource): string {
    prefix + if res == RouteResource then "/routes" else "/upstreams"
  }

  function DirEnd(prefix: string, res: Resource): string {
    prefix + if res == RouteResource then "/routet" else "/upstreamt"
  }

  function Name(prefix: string, res: Resource, id: string): string {
    Dir(prefix, res) + "/" + id
  }

  function IdOf(prefix: string, res: Resource, name: string): string {
    if |Dir(prefix, res)| + 1 <= |name| then name[|Dir(prefix, res)| + 1..] else ""
  }

  lemma {:induction false} NameThenId(prefix: string, res: Resource, id: string)
    ensures IdOf(prefix, res, Name(prefix, res, id)) == id
  {
  }

  /** Key names tell both the resource and the id. */
  lemma {:induction false} NameInjective(prefix: string, r1: Resource, id1: string, r2: Resource, id2: string)
    requires Name(prefix, r1, id1) == Name(prefix, r2, id2)
    ensures r1 == r2 && id1 == id2
  {
    var n := Name(prefix, r1, id1);
    assert n[|prefix| + 1] == if r1 == RouteResource then 'r' else 'u';
    assert n[|prefix| + 1] == if r2 == RouteResource then 'r' else 'u';
    NameThenId(prefix, r1, id1);
    NameThenId(prefix, r2, id2);
  }

  /** Membership in the half-open interval that an etcd range request denotes. */
  predicate InInterval(name: string, lo: string, hi: string) {
    !Less(name, lo) && Less(name, hi)
  }

  /** The keys of a directory are exactly the stored keys that its interval holds, for every
      key prefix. */
  lemma {:induction false} DirectoryIsInterval(prefix: string, res: Resource, other: Resource, id: string)
    ensures InInterval(Name(prefix, other, id), Dir(prefix, res), DirEnd(prefix, res)) <==> other == res
  {
    var n, lo, hi := Name(prefix, other, id), Dir(prefix, res), DirEnd(prefix, res);
    if other == res {
      assert n == lo + ("/" + id);
      StartsDirectory(lo, "/" + id);
      var base, last := lo[..|lo| - 1], lo[|lo| - 1];
      assert last == 's';
      assert n == base + ([last] + "/" + id) && hi == base + "t";
      assert Less([last] + "/" + id, "t");
      LessAfterPrefix(base, [last] + "/" + id, "t");
    } else {
      var base := prefix + "/";
      var x, y, z := n[|base|..], lo[|base|..], hi[|base|..];
      assert n == base + x && lo == base + y && hi == base + z;
      assert x[0] == (if other == RouteResource then 'r' else 'u');
      assert y[0] == z[0] == (if res == RouteResource then 'r' else 'u');
      LessAfterPrefix(base, x, y);
      LessAfterPrefix(base, x, z);
    }
  }

  lemma {:induction false} StartsDirectory(dir: string, rest: string)
    ensures !Less(dir + rest, dir)
  {
    LessAfterPrefix(dir, rest, "");
    assert dir + "" == dir;
  }

  datatype Meta = Meta(createRevision: int, modRevision: int)

  /** JSON text is represented by the object it was marshalled from. */
  datatype Value = NoValue | Json(o: Object)

  datatype KeyValue = KeyValue(key: string, createRevision: int, modRevision: int, value: Value)

  datatype WatchEvent = WatchEvent(deleted: bool, kv: KeyValue)

  predicate IsResource(o: Object, res: Resource) {
    match res
    case RouteResource => o.RouteObject?
    case UpstreamResource => o.UpstreamObject?
  }

  function ObjectName(prefix: string, o: Object): string
    requires o != NoObject
  {
    match o
    case RouteObject(r) => Name(prefix, RouteResource, r.id)
    case UpstreamObject(u) => Name(prefix, UpstreamResource, u.id)
  }

  predicate Touches(prefix: string, ev: Event, name: string) {
    ev.Payload() != NoObject && ObjectName(prefix, ev.Payload()) == name
  }

  /** The metadata an event is published with. */
  function MetaFor(prefix: string, metas: map<string, Meta>, ev: Event): Meta
    requires ev.Payload() != NoObject
  {
    var name := ObjectName(prefix, ev.Payload());
    if name in metas then metas[name].(modRevision := ev.revision) else Meta(ev.revision, ev.revision)
  }

  function MetaStep(prefix: string, metas: map<string, Meta>, ev: Event): map<string, Meta> {
    if ev.Payload() == NoObject then metas
    else
      var name := ObjectName(prefix, ev.Payload());
      if ev.typ == Delete then metas - {name} else metas[name := MetaFor(prefix, metas, ev)]
  }

  function MetaAll(prefix: string, metas: map<string, Meta>, evs: seq<Event>): map<string, Meta> {
    if evs == [] then metas
    else MetaStep(prefix, MetaAll(prefix, metas, evs[..|evs| - 1]), evs[|evs| - 1])
  }

  function Published(prefix: string, metas: map<string, Meta>, ev: Event): WatchEvent
    requires ev.Payload() != NoObject
  {
    var m := MetaFor(prefix, metas, ev);
    WatchEvent(ev.typ == Delete,
               KeyValue(ObjectName(prefix, ev.Payload()), m.createRevision, m.modRevision, Json(ev.Payload())))
  }

  /** Everything that is published while evs are pushed. */
  function Log(prefix: string, metas: map<string, Meta>, evs: seq<Event>): seq<WatchEvent> {
    if evs == [] then []
    else
      var front, ev := evs[..|evs| - 1], evs[|evs| - 1];
      Log(prefix, metas, front) +
      if ev.Payload() == NoObject then [] else [Published(prefix, MetaAll(prefix, metas, front), ev)]
  }

  /** A client applying watch events to its copy of the key space. */
  function Replay(kvs: map<string, KeyValue>, log: seq<WatchEvent>): map<string, KeyValue> {
    if log == [] then kvs
    else
      var kvs', e := Replay(kvs, log[..|log| - 1]), log[|log| - 1];
      if e.deleted then kvs' - {e.kv.key} else kvs'[e.kv.key := e.kv]
  }

  /** The key space after a history that started empty. */
  function KeySpace(prefix: string, h: seq<Event>): map<string, KeyValue> {
    Replay(map[], Log(prefix, map[], h))
  }

  function ObjectsOf(s: Store, res: Resource): map<string, Object> {
    match res
    case RouteResource => map id | id in s.routes :: RouteObject(s.routes[id])
    case UpstreamResource => map id | id in s.upstreams :: UpstreamObject(s.upstreams[id])
  }

  function Names(prefix: string, res: Resource, s: Store): set<string> {
    set id | id in ObjectsOf(s, res) :: Name(prefix, res, id)
  }

  function LiveNames(prefix: string, s: Store): set<string> {
    Names(prefix, RouteResource, s) + Names(prefix, UpstreamResource, s)
  }

  /** The recorded metadata, or the current revision where none is recorded. */
  function MetaOr(metas: map<string, Meta>, name: string, rev: int): Meta {
    if name in metas then metas[name] else Meta(rev, rev)
  }

  /** Using up recorded metadata leaves the record alone; where there is none, both revisions are
      the current one and are recorded. */
  lemma {:induction false} MetaOrMeans(metas: map<string, Meta>, name: string, rev: int)
    ensures name in metas ==> MetaOr(metas, name, rev) == metas[name] && metas[name := MetaOr(metas, name, rev)] == metas
    ensures name !in metas ==> MetaOr(metas, name, rev).createRevision == MetaOr(metas, name, rev).modRevision == rev
  {
  }

  lemma {:induction false} NamesHaveIds(prefix: string, res: Resource, s: Store)
    ensures forall n :: n in Names(prefix, res, s) ==>
      IdOf(prefix, res, n) in ObjectsOf(s, res) && Name(prefix, res, IdOf(prefix, res, n)) == n
    ensures forall id :: Name(prefix, res, id) in Names(prefix, res, s) <==> id in ObjectsOf(s, res)
  {
    forall id
      ensures IdOf(prefix, res, Name(prefix, res, id)) == id
    {
      NameThenId(prefix, res, id);
    }
    forall id | Name(prefix, res, id) in Names(prefix, res, s)
      ensures id in ObjectsOf(s, res)
    {
      var id2 :| id2 in ObjectsOf(s, res) && Name(prefix, res, id) == Name(prefix, res, id2);
      NameInjective(prefix, res, id, res, id2);
    }
  }

  /** What listing a directory returns, as a map from key to key-value. */
  function Listing(prefix: string, res: Resource, s: Store, metas: map<string, Meta>, rev: int): map<string, KeyValue> {
    map n | n in Names(prefix, res, s) :: Compose(n, MetaOr(metas, n, rev), ObjectAt(s, res, IdOf(prefix, res, n)))
  }

  function ObjectAt(s: Store, res: Resource, id: string): Object {
    Lookup(s, if res == RouteResource then RouteKey(id) else UpstreamKey(id))
  }

  function Compose(name: string, m: Meta, o: Object): KeyValue {
    KeyValue(name, m.createRevision, m.modRevision, Json(o))
  }

  function FullListing(prefix: string, s: Store, metas: map<string, Meta>, rev: int): map<string, KeyValue> {
    Listing(prefix, RouteResource, s, metas, rev) + Listing(prefix, UpstreamResource, s, metas, rev)
  }

  /** Between batches every stored object has metadata and nothing else has. */
  ghost predicate InStep(prefix: string, s: Store, metas: map<string, Meta>) {
    metas.Keys == LiveNames(prefix, s)
  }

  function ResourceOf(o: Object): Resource
    requires o != NoObject
  {
    if o.RouteObject? then RouteResource else UpstreamResource
  }

  function ObjectId(o: Object): string
    requires o != NoObject
  {
    match o
    case RouteObject(r) => r.id
    case UpstreamObject(u) => u.id
  }

  /** How one event changes the names of a resource. */
  lemma {:induction false} NamesStep(prefix: string, res: Resource, s: Store, ev: Event)
    requires ev.Payload() != NoObject
    ensures var n := ObjectName(prefix, ev.Payload());
      Names(prefix, res, Apply(s, ev)) ==
        if ResourceOf(ev.Payload()) != res then Names(prefix, res, s)
        else if ev.typ == Delete then Names(prefix, res, s) - {n}
        else Names(prefix, res, s) + {n}
  {
    var n, id := ObjectName(prefix, ev.Payload()), ObjectId(ev.Payload());
    var s' := Apply(s, ev);
    if ResourceOf(ev.Payload()) == res {
      ObjectsStep(s, ev);
      NameThenId(prefix, res, id);
      forall m
        ensures m in Names(prefix, res, s') <==>
          if ev.typ == Delete then m in Names(prefix, res, s) && m != n else m in Names(prefix, res, s) || m == n
      {
        NamesMember(prefix, res, s, m);
        NamesMember(prefix, res, s', m);
      }
    } else {
      assert ObjectsOf(s', res) == ObjectsOf(s, res);
    }
  }

  lemma {:induction false} ObjectsStep(s: Store, ev: Event)
    requires ev.Payload() != NoObject
    ensures var res, id := ResourceOf(ev.Payload()), ObjectId(ev.Payload());
      ObjectsOf(Apply(s, ev), res).Keys == if ev.typ == Delete then ObjectsOf(s, res).Keys - {id} else ObjectsOf(s, res).Keys + {id}
  {
  }

  lemma {:induction false} NamesMember(prefix: string, res: Resource, s: Store, m: string)
    ensures m in Names(prefix, res, s) <==>
      Name(prefix, res, IdOf(prefix, res, m)) == m && IdOf(prefix, res, m) in ObjectsOf(s, res)
  {
    NamesHaveIds(prefix, res, s);
  }

  lemma {:induction false} NamesApart(prefix: string, s: Store, s2: Store)
    ensures Names(prefix, RouteResource, s) !! Names(prefix, UpstreamResource, s2)
  {
    forall n | n in Names(prefix, RouteResource, s) && n in Names(prefix, UpstreamResource, s2)
      ensures false
    {
      var a :| a in ObjectsOf(s, RouteResource) && n == Name(prefix, RouteResource, a);
      var b :| b in ObjectsOf(s2, UpstreamResource) && n == Name(prefix, UpstreamResource, b);
      NameInjective(prefix, RouteResource, a, UpstreamResource, b);
    }
  }

  lemma {:induction false} InStepKept(prefix: string, s: Store, metas: map<string, Meta>, ev: Event)
    requires InStep(prefix, s, metas)
    ensures InStep(prefix, Apply(s, ev), MetaStep(prefix, metas, ev))
  {
    if ev.Payload() != NoObject {
      NamesStep(prefix, RouteResource, s, ev);
      NamesStep(prefix, UpstreamResource, s, ev);
      NamesApart(prefix, s, Apply(s, ev));
      NamesApart(prefix, Apply(s, ev), s);
      var n := ObjectName(prefix, ev.Payload());
      if ev.typ == Delete {
        NotListedElsewhere(prefix, s, ev.Payload());
      }
    }
  }

  lemma {:induction false} NotListedElsewhere(prefix: string, s: Store, o: Object)
    requires o != NoObject
    ensures forall res :: res != ResourceOf(o) ==> ObjectName(prefix, o) !in Names(prefix, res, s)
  {
    forall res | res != ResourceOf(o)
      ensures ObjectName(prefix, o) !in Names(prefix, res, s)
    {
      if ObjectName(prefix, o) in Names(prefix, res, s) {
        var id :| id in ObjectsOf(s, res) && ObjectName(prefix, o) == Name(prefix, res, id);
        NameInjective(prefix, ResourceOf(o), ObjectId(o), res, id);
      }
    }
  }

  lemma {:induction false} OtherListingKept(prefix: string, res: Resource, s: Store, metas: map<string, Meta>, ev: Event, rev: int)
    requires ev.Payload() != NoObject && res != ResourceOf(ev.Payload())
    ensures Listing(prefix, res, Apply(s, ev), MetaStep(prefix, metas, ev), rev) == Listing(prefix, res, s, metas, rev)
  {
    NotListedElsewhere(prefix, s, ev.Payload());
    assert ObjectsOf(Apply(s, ev), res) == ObjectsOf(s, res);
  }

  lemma {:induction false} OwnListingStep(prefix: string, s: Store, metas: map<string, Meta>, ev: Event, rev: int)
    requires ev.Payload() != NoObject
    ensures var res, n := ResourceOf(ev.Payload()), ObjectName(prefix, ev.Payload());
      var before := Listing(prefix, res, s, metas, rev);
      Listing(prefix, res, Apply(s, ev), MetaStep(prefix, metas, ev), rev) ==
        if ev.typ == Delete then before - {n} else before[n := Published(prefix, metas, ev).kv]
  {
    var o := ev.Payload();
    var res, n, id := ResourceOf(o), ObjectName(prefix, o), ObjectId(o);
    var s', metas' := Apply(s, ev), MetaStep(prefix, metas, ev);
    NamesStep(prefix, res, s, ev);
    OwnEntries(prefix, s, metas, ev, rev);
    OneEntryChanged(Listing(prefix, res, s, metas, rev), Listing(prefix, res, s', metas', rev),
                    n, ev.typ == Delete, Published(prefix, metas, ev).kv);
  }

  lemma {:induction false} OwnEntries(prefix: string, s: Store, metas: map<string, Meta>, ev: Event, rev: int)
    requires ev.Payload() != NoObject
    ensures var res, n := ResourceOf(ev.Payload()), ObjectName(prefix, ev.Payload());
      var before := Listing(prefix, res, s, metas, rev);
      var after := Listing(prefix, res, Apply(s, ev), MetaStep(prefix, metas, ev), rev);
      && (forall m :: m in after && m != n ==> m in before && after[m] == before[m])
      && (ev.typ != Delete ==> n in after && after[n] == Published(prefix, metas, ev).kv)
  {
    var o := ev.Payload();
    var res, id := ResourceOf(o), ObjectId(o);
    NamesStep(prefix, res, s, ev);
    NameThenId(prefix, res, id);
    OtherObjectsKept(prefix, s, ev);
    assert ev.typ != Delete ==> ObjectAt(Apply(s, ev), res, id) == o;
  }

  lemma {:induction false} OneEntryChanged(before: map<string, KeyValue>, after: map<string, KeyValue>, n: string, deleted: bool, kv: KeyValue)
    requires after.Keys == if deleted then before.Keys - {n} else before.Keys + {n}
    requires forall m :: m in after && m != n ==> m in before && after[m] == before[m]
    requires !deleted ==> after[n] == kv
    ensures after == if deleted then before - {n} else before[n := kv]
  {
  }

  lemma {:induction false} OtherObjectsKept(prefix: string, s: Store, ev: Event)
    requires ev.Payload() != NoObject
    ensures var res, n := ResourceOf(ev.Payload()), ObjectName(prefix, ev.Payload());
      forall m :: m in Names(prefix, res, Apply(s, ev)) && m != n ==>
        ObjectAt(Apply(s, ev), res, IdOf(prefix, res, m)) == ObjectAt(s, res, IdOf(prefix, res, m))
  {
    var res := ResourceOf(ev.Payload());
    NamesHaveIds(prefix, res, Apply(s, ev));
  }

  /** One event seen by a listing and by a watcher: both end with the same key space. */
  lemma {:induction false} ListingStep(prefix: string, s: Store, metas: map<string, Meta>, ev: Event, rev: int)
    requires ev.Payload() != NoObject
    ensures FullListing(prefix, Apply(s, ev), MetaStep(prefix, metas, ev), rev) ==
      Replay(FullListing(prefix, s, metas, rev), [Published(prefix, metas, ev)])
  {
    var o := ev.Payload();
    var n := ObjectName(prefix, o);
    var e := Published(prefix, metas, ev);
    OwnListingStep(prefix, s, metas, ev, rev);
    OtherListingKept(prefix, if o.RouteObject? then UpstreamResource else RouteResource, s, metas, ev, rev);
    NotListedElsewhere(prefix, s, o);
    ReplayOne(FullListing(prefix, s, metas, rev), e);
    MapHalves(Listing(prefix, RouteResource, s, metas, rev), Listing(prefix, UpstreamResource, s, metas, rev), n, e.kv);
  }

  lemma {:induction false} ReplayOne(kvs: map<string, KeyValue>, e: WatchEvent)
    ensures Replay(kvs, [e]) == if e.deleted then kvs - {e.kv.key} else kvs[e.kv.key := e.kv]
  {
    assert [e][..0] == [];
  }

  lemma {:induction false} MapHalves(a: map<string, KeyValue>, b: map<string, KeyValue>, n: string, kv: KeyValue)
    ensures n !in b ==> a[n := kv] + b == (a + b)[n := kv] && (a - {n}) + b == (a + b) - {n}
    ensures a + b[n := kv] == (a + b)[n := kv]
    ensures n !in a ==> a + (b - {n}) == (a + b) - {n}
  {
  }

  lemma {:induction false} ListingIsReplay(prefix: string, s: Store, metas: map<string, Meta>, evs: seq<Event>, rev: int)
    requires InStep(prefix, s, metas)
    ensures InStep(prefix, ApplyAll(s, evs), MetaAll(prefix, metas, evs))
    ensures FullListing(prefix, ApplyAll(s, evs), MetaAll(prefix, metas, evs), rev) ==
      Replay(FullListing(prefix, s, metas, rev), Log(prefix, metas, evs))
  {
    if evs != [] {
      var front, ev := evs[..|evs| - 1], evs[|evs| - 1];
      ListingIsReplay(prefix, s, metas, front, rev);
      var s1, m1 := ApplyAll(s, front), MetaAll(prefix, metas, front);
      InStepKept(prefix, s1, m1, ev);
      if ev.Payload() != NoObject {
        ListingStep(prefix, s1, m1, ev, rev);
        var log := Log(prefix, metas, front);
        ReplayAppend(FullListing(prefix, s, metas, rev), log, [Published(prefix, m1, ev)]);
      } else {
        assert Log(prefix, metas, evs) == Log(prefix, metas, front);
      }
    }
  }

  lemma {:induction false} ReplayAppend(kvs: map<string, KeyValue>, a: seq<WatchEvent>, b: seq<WatchEvent>)
    ensures Replay(kvs, a + b) == Replay(Replay(kvs, a), b)
  {
    if b == [] {
      assert a + b == a;
    } else {
      ReplayAppend(kvs, a, b[..|b| - 1]);
      assert (a + b)[..|a + b| - 1] == a + b[..|b| - 1];
    }
  }

  lemma {:induction false} LogAppend(prefix: string, metas: map<string, Meta>, a: seq<Event>, b: seq<Event>)
    ensures MetaAll(prefix, metas, a + b) == MetaAll(prefix, MetaAll(prefix, metas, a), b)
    ensures Log(prefix, metas, a + b) == Log(prefix, metas, a) + Log(prefix, MetaAll(prefix, metas, a), b)
  {
    if b == [] {
      assert a + b == a;
    } else {
      var front, ev := b[..|b| - 1], b[|b| - 1];
      LogAppend(prefix, metas, a, front);
      assert b == front + [ev] && a + b == (a + front) + [ev];
      LogSnoc(prefix, metas, a + front, ev);
      LogSnoc(prefix, MetaAll(prefix, metas, a), front, ev);
      Associative(Log(prefix, metas, a), Log(prefix, MetaAll(prefix, metas, a), front),
                  PublishedOrNothing(prefix, MetaAll(prefix, metas, a + front), ev));
    }
  }

  function PublishedOrNothing(prefix: string, metas: map<string, Meta>, ev: Event): seq<WatchEvent> {
    if ev.Payload() == NoObject then [] else [Published(prefix, metas, ev)]
  }

  lemma {:induction false} LogSnoc(prefix: string, metas: map<string, Meta>, h: seq<Event>, ev: Event)
    ensures Log(prefix, metas, h + [ev]) == Log(prefix, metas, h) + PublishedOrNothing(prefix, MetaAll(prefix, metas, h), ev)
    ensures MetaAll(prefix, metas, h + [ev]) == MetaStep(prefix, MetaAll(prefix, metas, h), ev)
  {
    assert (h + [ev])[..|h|] == h;
  }

  lemma {:induction false} PathIsName(prefix: string, o: Object)
    requires o != NoObject
    ensures ObjectName(prefix, o) == prefix + (if o.RouteObject? then "/routes/" else "/upstreams/") + ObjectId(o)
  {
    assert "/routes" + "/" == "/routes/" && "/upstreams" + "/" == "/upstreams/";
    assert prefix + "/routes" + "/" == prefix + "/routes/";
    assert prefix + "/upstreams" + "/" == prefix + "/upstreams/";
  }
}
