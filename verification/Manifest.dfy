/** Manifests, their diff, and the events a diff turns into: pkg/provisioner/util/manifest.go
    and the two generateEvents of the provisioners. */
module Manifests {
  import opened Objects
  import opened Diff

  datatype Manifest = Manifest(routes: seq<Route>, upstreams: seq<Upstream>) {
    function Size(): nat {
      |upstreams| + |routes|
    }
  }

  const EMPTY_MANIFEST := Manifest([], [])

  function EventFor(typ: EventType, o: Object): Event {
    if typ == Delete then DeleteEvent(o) else PutEvent(typ, o)
  }

  function RouteEvents(typ: EventType, rs: seq<Route>): seq<Event> {
    seq(|rs|, i requires 0 <= i < |rs| => EventFor(typ, RouteObject(rs[i])))
  }

  function UpstreamEvents(typ: EventType, us: seq<Upstream>): seq<Event> {
    seq(|us|, i requires 0 <= i < |us| => EventFor(typ, UpstreamObject(us[i])))
  }

  function EventsOf(m: Manifest, typ: EventType): seq<Event> {
    RouteEvents(typ, m.routes) + UpstreamEvents(typ, m.upstreams)
  }

  /** The store that holds the objects of a manifest, the last of every id. */
  function Snapshot(m: Manifest): Store {
    Store(LastWins(RouteId, m.routes), LastWins(UpstreamId, m.upstreams))
  }

  function SnapshotOf(m: Option<Manifest>): Store {
    if m.None? then EMPTY_STORE else Snapshot(m.value)
  }

  function Union(a: Store, b: Store): Store {
    Store(a.routes + b.routes, a.upstreams + b.upstreams)
  }

  ghost predicate Apart(a: Store, b: Store) {
    a.routes.Keys !! b.routes.Keys && a.upstreams.Keys !! b.upstreams.Keys
  }

  function AddedOf(o: Manifest, m: Manifest): Manifest {
    Manifest(Compare(RouteId, o.routes, m.routes).added, Compare(UpstreamId, o.upstreams, m.upstreams).added)
  }

  function DeletedOf(o: Manifest, m: Manifest): Manifest {
    Manifest(Compare(RouteId, o.routes, m.routes).deleted, Compare(UpstreamId, o.upstreams, m.upstreams).deleted)
  }

  function UpdatedOf(o: Manifest, m: Manifest): Manifest {
    Manifest(Compare(RouteId, o.routes, m.routes).updated, Compare(UpstreamId, o.upstreams, m.upstreams).updated)
  }

  /** Additions, then deletions, then updates; a missing side is a nil manifest. */
  function DiffEvents(o: Option<Manifest>, m: Option<Manifest>): seq<Event> {
    match (o, m)
    case (None, None) => []
    case (None, Some(n)) => EventsOf(n, Add)
    case (Some(p), None) => EventsOf(p, Delete)
    case (Some(p), Some(n)) =>
      EventsOf(AddedOf(p, n), Add) + EventsOf(DeletedOf(p, n), Delete) + EventsOf(UpdatedOf(p, n), Update)
  }

  lemma {:induction false} ApplyRoutePuts(s: Store, typ: EventType, rs: seq<Route>)
    requires typ != Delete
    ensures ApplyAll(s, RouteEvents(typ, rs)) == s.(routes := s.routes + LastWins(RouteId, rs))
  {
    if rs != [] {
      var front, last := rs[..|rs| - 1], rs[|rs| - 1];
      ApplyRoutePuts(s, typ, front);
      assert RouteEvents(typ, rs)[..|rs| - 1] == RouteEvents(typ, front);
      LastWinsSnoc(RouteId, front, last);
      assert rs == front + [last];
      UnionPut(s.routes, LastWins(RouteId, front), last.id, last);
    }
  }

  lemma {:induction false} ApplyUpstreamPuts(s: Store, typ: EventType, us: seq<Upstream>)
    requires typ != Delete
    ensures ApplyAll(s, UpstreamEvents(typ, us)) == s.(upstreams := s.upstreams + LastWins(UpstreamId, us))
  {
    if us != [] {
      var front, last := us[..|us| - 1], us[|us| - 1];
      ApplyUpstreamPuts(s, typ, front);
      assert UpstreamEvents(typ, us)[..|us| - 1] == UpstreamEvents(typ, front);
      LastWinsSnoc(UpstreamId, front, last);
      assert us == front + [last];
      UnionPut(s.upstreams, LastWins(UpstreamId, front), last.id, last);
    }
  }

  lemma {:induction false} ApplyRouteDeletes(s: Store, rs: seq<Route>)
    ensures ApplyAll(s, RouteEvents(Delete, rs)) == s.(routes := s.routes - Ids(RouteId, rs))
  {
    if rs != [] {
      ApplyRouteDeletes(s, rs[..|rs| - 1]);
      assert RouteEvents(Delete, rs)[..|rs| - 1] == RouteEvents(Delete, rs[..|rs| - 1]);
      IdsStep(RouteId, rs);
    }
  }

  lemma {:induction false} ApplyUpstreamDeletes(s: Store, us: seq<Upstream>)
    ensures ApplyAll(s, UpstreamEvents(Delete, us)) == s.(upstreams := s.upstreams - Ids(UpstreamId, us))
  {
    if us != [] {
      ApplyUpstreamDeletes(s, us[..|us| - 1]);
      assert UpstreamEvents(Delete, us)[..|us| - 1] == UpstreamEvents(Delete, us[..|us| - 1]);
      IdsStep(UpstreamId, us);
    }
  }

  lemma {:induction false} ApplyPuts(s: Store, typ: EventType, m: Manifest)
    requires typ != Delete
    ensures ApplyAll(s, EventsOf(m, typ)) == Union(s, Snapshot(m))
  {
    ApplyAllAppend(s, RouteEvents(typ, m.routes), UpstreamEvents(typ, m.upstreams));
    ApplyRoutePuts(s, typ, m.routes);
    ApplyUpstreamPuts(ApplyAll(s, RouteEvents(typ, m.routes)), typ, m.upstreams);
  }

  lemma {:induction false} ApplyDeletes(s: Store, m: Manifest)
    ensures ApplyAll(s, EventsOf(m, Delete)) ==
      Store(s.routes - Ids(RouteId, m.routes), s.upstreams - Ids(UpstreamId, m.upstreams))
  {
    ApplyAllAppend(s, RouteEvents(Delete, m.routes), UpstreamEvents(Delete, m.upstreams));
    ApplyRouteDeletes(s, m.routes);
    ApplyUpstreamDeletes(ApplyAll(s, RouteEvents(Delete, m.routes)), m.upstreams);
  }

  lemma {:induction false} DiffEventsPatch(s: Store, o: Manifest, m: Manifest)
    ensures ApplyAll(s, DiffEvents(Some(o), Some(m))) == Store(
        Patch(RouteId, s.routes, Compare(RouteId, o.routes, m.routes)),
        Patch(UpstreamId, s.upstreams, Compare(UpstreamId, o.upstreams, m.upstreams)))
  {
    var a, d, u := AddedOf(o, m), DeletedOf(o, m), UpdatedOf(o, m);
    var s1 := ApplyAll(s, EventsOf(a, Add));
    ApplyPuts(s, Add, a);
    ApplyAllAppend(s, EventsOf(a, Add), EventsOf(d, Delete));
    ApplyDeletes(s1, d);
    ApplyAllAppend(s, EventsOf(a, Add) + EventsOf(d, Delete), EventsOf(u, Update));
    ApplyPuts(ApplyAll(s1, EventsOf(d, Delete)), Update, u);
  }

  /** Applied in order, the events of a diff turn a store that holds the old manifest, beside
      whatever other ids, into one that holds the new manifest beside the same others. */
  lemma {:induction false} DiffEventsConverge(others: Store, o: Option<Manifest>, m: Option<Manifest>)
    requires Apart(others, SnapshotOf(o)) && Apart(others, SnapshotOf(m))
    ensures ApplyAll(Union(others, SnapshotOf(o)), DiffEvents(o, m)) == Union(others, SnapshotOf(m))
  {
    match (o, m)
    case (None, None) =>
    case (None, Some(n)) =>
      assert Union(others, EMPTY_STORE) == others;
      ApplyPuts(others, Add, n);
    case (Some(p), None) =>
      DeletesConverge(others, p);
    case (Some(p), Some(n)) =>
      DiffEventsPatch(Union(others, Snapshot(p)), p, n);
      PatchMovesSnapshot(RouteId, others.routes, p.routes, n.routes);
      PatchMovesSnapshot(UpstreamId, others.upstreams, p.upstreams, n.upstreams);
  }

  lemma {:induction false} DeletesConverge(others: Store, p: Manifest)
    requires Apart(others, Snapshot(p))
    ensures ApplyAll(Union(others, Snapshot(p)), EventsOf(p, Delete)) == Union(others, EMPTY_STORE)
  {
    ApplyDeletes(Union(others, Snapshot(p)), p);
    LastWinsEntries(RouteId, p.routes);
    LastWinsEntries(UpstreamId, p.upstreams);
    WithoutPart(others.routes, LastWins(RouteId, p.routes));
    WithoutPart(others.upstreams, LastWins(UpstreamId, p.upstreams));
  }

  lemma {:induction false} WithoutPart<T>(a: map<string, T>, b: map<string, T>)
    requires a.Keys !! b.Keys
    ensures (a + b) - b.Keys == a && a + map[] == a
  {
  }

  /** What the events of a diff are, by type. An Add is of a new object whose id the old manifest
      lacks; a Delete is of an old object whose id the new one lacks; an Update carries the last new
      object of an id that both have, and some old object of that id differs from it. */
  ghost predicate Fits(o: Manifest, m: Manifest, ev: Event) {
    match ev.Payload()
    case RouteObject(r) => FitsList(RouteId, o.routes, m.routes, ev.typ, r)
    case UpstreamObject(u) => FitsList(UpstreamId, o.upstreams, m.upstreams, ev.typ, u)
    case NoObject => false
  }

  ghost predicate FitsList<T>(id: T -> string, old1: seq<T>, new1: seq<T>, typ: EventType, x: T) {
    match typ
    case Add => x in new1 && id(x) !in Ids(id, old1)
    case Delete => x in old1 && id(x) !in Ids(id, new1)
    case Update =>
      && id(x) in LastWins(id, new1) && x == LastWins(id, new1)[id(x)]
      && exists y :: y in old1 && id(y) == id(x) && y != x
  }

  lemma {:induction false} AddedFits<T>(id: T -> string, old1: map<string, T>, r2: seq<T>, x: T)
    ensures x in Added(id, old1, r2) <==> x in r2 && id(x) !in old1
  {
    if r2 != [] {
      AddedFits(id, old1, r2[..|r2| - 1], x);
      assert r2 == r2[..|r2| - 1] + [r2[|r2| - 1]];
    }
  }

  lemma {:induction false} DeletedFits<T>(id: T -> string, new2: map<string, T>, r1: seq<T>, x: T)
    ensures x in Deleted(id, new2, r1) <==> x in r1 && id(x) !in new2
  {
    if r1 != [] {
      DeletedFits(id, new2, r1[..|r1| - 1], x);
      assert r1 == r1[..|r1| - 1] + [r1[|r1| - 1]];
    }
  }

  lemma {:induction false} UpdatedFits<T>(id: T -> string, new2: map<string, T>, r1: seq<T>, x: T)
    requires forall k :: k in new2 ==> id(new2[k]) == k
    ensures x in Updated(id, new2, r1) <==> id(x) in new2 && x == new2[id(x)] && exists y :: y in r1 && id(y) == id(x) && y != x
  {
    if r1 != [] {
      var front, last := r1[..|r1| - 1], r1[|r1| - 1];
      UpdatedFits(id, new2, front, x);
      assert r1 == front + [last];
    }
  }

  lemma {:induction false} ChangesFit<T>(id: T -> string, old1: seq<T>, new1: seq<T>, x: T)
    ensures var c := Compare(id, old1, new1);
      && (x in c.added <==> FitsList(id, old1, new1, Add, x))
      && (x in c.deleted <==> FitsList(id, old1, new1, Delete, x))
      && (x in c.updated <==> FitsList(id, old1, new1, Update, x))
  {
    LastWinsEntries(id, old1);
    LastWinsEntries(id, new1);
    AddedFits(id, LastWins(id, old1), new1, x);
    DeletedFits(id, LastWins(id, new1), old1, x);
    UpdatedFits(id, LastWins(id, new1), old1, x);
  }

  lemma {:induction false} InEventsOf(m: Manifest, typ: EventType, ev: Event)
    ensures ev in EventsOf(m, typ) <==>
      || (exists r :: r in m.routes && ev == EventFor(typ, RouteObject(r)))
      || (exists u :: u in m.upstreams && ev == EventFor(typ, UpstreamObject(u)))
  {
    if r :| r in m.routes && ev == EventFor(typ, RouteObject(r)) {
      var i :| 0 <= i < |m.routes| && m.routes[i] == r;
      assert RouteEvents(typ, m.routes)[i] == ev;
    }
    if u :| u in m.upstreams && ev == EventFor(typ, UpstreamObject(u)) {
      var i :| 0 <= i < |m.upstreams| && m.upstreams[i] == u;
      assert UpstreamEvents(typ, m.upstreams)[i] == ev;
    }
  }

  /** An event as the manifests make it: the object in its place, and no revision yet. */
  predicate WellFormed(ev: Event) {
    && ev.revision == 0 && (ev.typ == Delete ==> ev.body == NoObject) && (ev.typ != Delete ==> ev.tombstone == NoObject)
  }

  /** The events of a manifest, one for each object: routes first, then upstreams, each in order. */
  lemma {:induction false} EventsMean(m: Manifest, typ: EventType)
    ensures var evs, n := EventsOf(m, typ), |m.routes|;
      && |evs| == n + |m.upstreams|
      && (forall i :: 0 <= i < |evs| ==> evs[i].typ == typ && WellFormed(evs[i]))
      && (forall i :: 0 <= i < n ==> evs[i].Payload() == RouteObject(m.routes[i]))
      && (forall i :: n <= i < |evs| ==> evs[i].Payload() == UpstreamObject(m.upstreams[i - n]))
  {
  }

  function Rank(typ: EventType): int {
    match typ
    case Add => 0
    case Delete => 1
    case Update => 2
  }

  /** The events of a diff come in the order additions, deletions, updates. */
  lemma {:induction false} DiffEventsOrder(o: Manifest, m: Manifest, i: nat, j: nat)
    requires i <= j < |DiffEvents(Some(o), Some(m))|
    ensures var evs := DiffEvents(Some(o), Some(m)); Rank(evs[i].typ) <= Rank(evs[j].typ)
  {
    EventsMean(AddedOf(o, m), Add);
    EventsMean(DeletedOf(o, m), Delete);
    EventsMean(UpdatedOf(o, m), Update);
  }

  /** The events of a diff are exactly the well-formed ones that fit. */
  lemma {:induction false} DiffEventsMembers(o: Manifest, m: Manifest, ev: Event)
    ensures ev in DiffEvents(Some(o), Some(m)) <==> WellFormed(ev) && Fits(o, m, ev)
  {
    InEventsOf(AddedOf(o, m), Add, ev);
    InEventsOf(DeletedOf(o, m), Delete, ev);
    InEventsOf(UpdatedOf(o, m), Update, ev);
    match ev.Payload()
    case RouteObject(r) => ChangesFit(RouteId, o.routes, m.routes, r);
    case UpstreamObject(u) => ChangesFit(UpstreamId, o.upstreams, m.upstreams, u);
    case NoObject =>
  }

  /** Every event changes the store that it is applied to. */
  ghost predicate EveryEventCounts(s: Store, evs: seq<Event>) {
    forall k :: 0 <= k < |evs| ==> Apply(ApplyAll(s, evs[..k]), evs[k]) != ApplyAll(s, evs[..k])
  }

  /** Each event names a key of its own and means a change to what s holds there. */
  ghost predicate Effective(s: Store, evs: seq<Event>) {
    && (forall i, j :: 0 <= i < j < |evs| ==> KeyOf(evs[i].Payload()) != KeyOf(evs[j].Payload()))
    && (forall ev :: ev in evs ==> Changes1(s, ev))
  }

  ghost predicate Changes1(s: Store, ev: Event) {
    && ev.Payload() != NoObject
    && Lookup(s, KeyOf(ev.Payload())) != (if ev.typ == Delete then NoObject else ev.Payload())
  }

  lemma {:induction false} EffectiveEventsCount(s: Store, evs: seq<Event>)
    requires Effective(s, evs)
    ensures EveryEventCounts(s, evs)
  {
    forall k | 0 <= k < |evs|
      ensures Apply(ApplyAll(s, evs[..k]), evs[k]) != ApplyAll(s, evs[..k])
    {
      var before, ev := ApplyAll(s, evs[..k]), evs[k];
      LookupUntouched(s, evs[..k], KeyOf(ev.Payload()));
      assert Changes1(s, ev);
      assert Lookup(Apply(before, ev), KeyOf(ev.Payload())) == if ev.typ == Delete then NoObject else ev.Payload();
    }
  }

  /** With distinct ids on both sides no event of the diff is wasted: no delete misses, no
      update rewrites an equal object, and no id is touched twice. */
  lemma {:induction false} DistinctDiffEventsCount(o: Manifest, m: Manifest)
    requires Distinct(RouteId, o.routes) && Distinct(RouteId, m.routes)
    requires Distinct(UpstreamId, o.upstreams) && Distinct(UpstreamId, m.upstreams)
    ensures Effective(Snapshot(o), DiffEvents(Some(o), Some(m)))
    ensures EveryEventCounts(Snapshot(o), DiffEvents(Some(o), Some(m)))
  {
    var s := Snapshot(o);
    var cr, cu := Compare(RouteId, o.routes, m.routes), Compare(UpstreamId, o.upstreams, m.upstreams);
    DistinctDiffIsMinimal(RouteId, o.routes, m.routes);
    DistinctDiffIsMinimal(UpstreamId, o.upstreams, m.upstreams);
    RouteBlock(s, cr);
    UpstreamBlock(s, cu);
    EffectiveShuffle(s,
      RouteEvents(Add, cr.added), UpstreamEvents(Add, cu.added),
      RouteEvents(Delete, cr.deleted), UpstreamEvents(Delete, cu.deleted),
      RouteEvents(Update, cr.updated), UpstreamEvents(Update, cu.updated));
    EffectiveEventsCount(s, DiffEvents(Some(o), Some(m)));
  }

  lemma {:induction false} RouteBlock(s: Store, c: Changes<Route>)
    requires Distinct(RouteId, c.added + c.deleted + c.updated)
    requires forall r :: r in c.added ==> r.id !in s.routes
    requires forall r :: r in c.deleted ==> r.id in s.routes
    requires forall r :: r in c.updated ==> r.id in s.routes && s.routes[r.id] != r
    ensures Effective(s, RouteEvents(Add, c.added) + RouteEvents(Delete, c.deleted) + RouteEvents(Update, c.updated))
    ensures forall ev :: ev in RouteEvents(Add, c.added) + RouteEvents(Delete, c.deleted) + RouteEvents(Update, c.updated)
              ==> KeyOf(ev.Payload()).RouteKey?
  {
    var evs := RouteEvents(Add, c.added) + RouteEvents(Delete, c.deleted) + RouteEvents(Update, c.updated);
    var all := c.added + c.deleted + c.updated;
    assert |evs| == |all| && forall i :: 0 <= i < |all| ==> evs[i].Payload() == RouteObject(all[i]);
    forall i, j | 0 <= i < j < |evs|
      ensures KeyOf(evs[i].Payload()) != KeyOf(evs[j].Payload())
    {
      assert RouteId(all[i]) != RouteId(all[j]);
    }
  }

  lemma {:induction false} UpstreamBlock(s: Store, c: Changes<Upstream>)
    requires Distinct(UpstreamId, c.added + c.deleted + c.updated)
    requires forall u :: u in c.added ==> u.id !in s.upstreams
    requires forall u :: u in c.deleted ==> u.id in s.upstreams
    requires forall u :: u in c.updated ==> u.id in s.upstreams && s.upstreams[u.id] != u
    ensures Effective(s, UpstreamEvents(Add, c.added) + UpstreamEvents(Delete, c.deleted) + UpstreamEvents(Update, c.updated))
    ensures forall ev :: ev in UpstreamEvents(Add, c.added) + UpstreamEvents(Delete, c.deleted) + UpstreamEvents(Update, c.updated)
              ==> KeyOf(ev.Payload()).UpstreamKey?
  {
    var evs := UpstreamEvents(Add, c.added) + UpstreamEvents(Delete, c.deleted) + UpstreamEvents(Update, c.updated);
    var all := c.added + c.deleted + c.updated;
    assert |evs| == |all| && forall i :: 0 <= i < |all| ==> evs[i].Payload() == UpstreamObject(all[i]);
    forall i, j | 0 <= i < j < |evs|
      ensures KeyOf(evs[i].Payload()) != KeyOf(evs[j].Payload())
    {
      assert UpstreamId(all[i]) != UpstreamId(all[j]);
    }
  }

  /** Interleaving route blocks with upstream blocks keeps the keys apart. */
  lemma {:induction false} EffectiveShuffle(s: Store, r1: seq<Event>, u1: seq<Event>, r2: seq<Event>, u2: seq<Event>, r3: seq<Event>, u3: seq<Event>)
    requires Effective(s, r1 + r2 + r3) && Effective(s, u1 + u2 + u3)
    requires forall ev :: ev in r1 + r2 + r3 ==> KeyOf(ev.Payload()).RouteKey?
    requires forall ev :: ev in u1 + u2 + u3 ==> KeyOf(ev.Payload()).UpstreamKey?
    ensures Effective(s, (r1 + u1) + (r2 + u2) + (r3 + u3))
  {
    var rs, us := r1 + r2 + r3, u1 + u2 + u3;
    EffectivePart(s, rs, 0, |r1|);
    EffectivePart(s, rs, |r1|, |r1 + r2|);
    EffectivePart(s, rs, |r1 + r2|, |rs|);
    EffectivePart(s, us, 0, |u1|);
    EffectivePart(s, us, |u1|, |u1 + u2|);
    EffectivePart(s, us, |u1 + u2|, |us|);
    assert rs[0..|r1|] == r1 && rs[|r1|..|r1 + r2|] == r2 && rs[|r1 + r2|..|rs|] == r3;
    assert us[0..|u1|] == u1 && us[|u1|..|u1 + u2|] == u2 && us[|u1 + u2|..|us|] == u3;
    KeysApart(rs, r1, r2, r3);
    KeysApart(us, u1, u2, u3);
    EffectiveJoin(s, r1, u1);
    EffectiveJoin(s, r2, u2);
    EffectiveJoin(s, r3, u3);
    EffectiveJoin(s, r1 + u1, r2 + u2);
    EffectiveJoin(s, (r1 + u1) + (r2 + u2), r3 + u3);
  }

  ghost function KeysOf(evs: seq<Event>): set<Key> {
    set ev | ev in evs :: KeyOf(ev.Payload())
  }

  lemma {:induction false} EffectivePart(s: Store, evs: seq<Event>, i: nat, j: nat)
    requires Effective(s, evs) && i <= j <= |evs|
    ensures Effective(s, evs[i..j])
  {
  }

  lemma {:induction false} KeysApart(all: seq<Event>, a: seq<Event>, b: seq<Event>, c: seq<Event>)
    requires all == a + b + c
    requires forall i, j :: 0 <= i < j < |all| ==> KeyOf(all[i].Payload()) != KeyOf(all[j].Payload())
    ensures KeysOf(a) !! KeysOf(b) !! KeysOf(c)
  {
    assert forall i :: 0 <= i < |a| ==> all[i] == a[i];
    assert forall i :: 0 <= i < |b| ==> all[|a| + i] == b[i];
    assert forall i :: 0 <= i < |c| ==> all[|a| + |b| + i] == c[i];
    forall x, y | x in a && (y in b || y in c)
      ensures KeyOf(x.Payload()) != KeyOf(y.Payload())
    {
    }
    forall x, y | x in b && y in c
      ensures KeyOf(x.Payload()) != KeyOf(y.Payload())
    {
    }
  }

  lemma {:induction false} EffectiveJoin(s: Store, a: seq<Event>, b: seq<Event>)
    requires Effective(s, a) && Effective(s, b)
    requires KeysOf(a) !! KeysOf(b)
    ensures Effective(s, a + b)
    ensures KeysOf(a + b) == KeysOf(a) + KeysOf(b)
  {
    forall i, j | 0 <= i < j < |a + b|
      ensures KeyOf((a + b)[i].Payload()) != KeyOf((a + b)[j].Payload())
    {
      if i < |a| <= j {
        assert KeyOf(a[i].Payload()) in KeysOf(a);
        assert KeyOf(b[j - |a|].Payload()) in KeysOf(b);
      }
    }
  }

  method Events(m: Manifest, typ: EventType) returns (events: seq<Event>)
    ensures events == EventsOf(m, typ)
  {
    events := [];
    for i := 0 to |m.routes|
      invariant events == RouteEvents(typ, m.routes)[..i]
    {
      if typ == Delete {
        events := events + [DeleteEvent(RouteObject(m.routes[i]))];
      } else {
        events := events + [PutEvent(typ, RouteObject(m.routes[i]))];
      }
    }
    for i := 0 to |m.upstreams|
      invariant events == RouteEvents(typ, m.routes) + UpstreamEvents(typ, m.upstreams)[..i]
    {
      if typ == Delete {
        events := events + [DeleteEvent(UpstreamObject(m.upstreams[i]))];
      } else {
        events := events + [PutEvent(typ, UpstreamObject(m.upstreams[i]))];
      }
    }
  }

  method DiffFrom(o: Manifest, m: Manifest) returns (added: Manifest, deleted: Manifest, updated: Manifest)
    ensures added == AddedOf(o, m) && deleted == DeletedOf(o, m) && updated == UpdatedOf(o, m)
  {
    var a, d, u := CompareLists(RouteId, o.routes, m.routes);
    var au, du, uu := CompareLists(UpstreamId, o.upstreams, m.upstreams);
    added, deleted, updated := Manifest(a, au), Manifest(d, du), Manifest(u, uu);
  }

  lemma {:induction false} DiffEventsRebuild(o: Option<Manifest>, m: Option<Manifest>)
    ensures ApplyAll(SnapshotOf(o), DiffEvents(o, m)) == SnapshotOf(m)
  {
    DiffEventsConverge(EMPTY_STORE, o, m);
    UnionWithEmpty(SnapshotOf(o));
    UnionWithEmpty(SnapshotOf(m));
  }

  lemma {:induction false} UnionWithEmpty(s: Store)
    ensures Union(EMPTY_STORE, s) == s
  {
    assert map[] + s.routes == s.routes;
    assert map[] + s.upstreams == s.upstreams;
  }

  function SizeOf(m: Option<Manifest>): nat {
    if m.None? then 0 else m.value.Size()
  }

  method EventsOrNone(m: Option<Manifest>, typ: EventType) returns (events: seq<Event>)
    ensures events == if m.None? then [] else EventsOf(m.value, typ)
    ensures SizeOf(m) == |events|
  {
    events := [];
    if m.Some? {
      events := Events(m.value, typ);
    }
  }

  /** Both generateEvents; nil manifests are None. */
  method GenerateEvents(o: Option<Manifest>, m: Option<Manifest>) returns (events: seq<Event>)
    ensures events == DiffEvents(o, m)
    ensures ApplyAll(SnapshotOf(o), events) == SnapshotOf(m)
  {
    DiffEventsRebuild(o, m);
    var added: Option<Manifest>, deleted: Option<Manifest>, updated: Option<Manifest> := None, None, None;
    if o.None? {
      added := m;
    } else if m.None? {
      deleted := o;
    } else {
      var a, d, u := DiffFrom(o.value, m.value);
      added, deleted, updated := Some(a), Some(d), Some(u);
    }
    var count := SizeOf(added) + SizeOf(deleted) + SizeOf(updated);
    var adds := EventsOrNone(added, Add);
    var deletes := EventsOrNone(deleted, Delete);
    var updates := EventsOrNone(updated, Update);
    assert adds + deletes + updates == DiffEvents(o, m);
    if count == 0 {
      return [];
    }
    events := adds + deletes + updates;
  }
}
