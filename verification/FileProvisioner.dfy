/** The file provisioner: pkg/provisioner/xds/v3/file/types.go and delivery.go, for files that
    carry routes and clusters. */
module FileProvisioner {
  import opened Objects
  import opened Diff
  import opened Manifests
  import opened Adaptor
  import opened ProvisionerModel

  /** content is None when the file cannot be read or parsed. */
  datatype FileEvent = Write(name: string, content: Option<seq<XdsResource>>) | Remove(name: string)

  /** A file that was removed keeps an entry with a nil manifest. */
  type FileState = map<string, Option<Manifest>>

  /** Resources that fail to translate are left out of the manifest, each by itself. */
  function ManifestOf(crc: string -> nat, rs: seq<XdsResource>): Manifest {
    if rs == [] then EMPTY_MANIFEST
    else
      var m := ManifestOf(crc, rs[..|rs| - 1]);
      match rs[|rs| - 1]
      case RouteRes(rc) => m.(routes := m.routes + Translate(crc, rc, map[]))
      case ClusterRes(c) =>
        (match TranslateClusterSpec(crc, c)
         case Unsupported => m
         case Translated(u) => m.(upstreams := m.upstreams + [u])
         case NeedsEds(u) => m.(upstreams := m.upstreams + [u]))
      case _ => m
  }

  /** The manifest of a file, resource by resource and in order: a route configuration gives its
      routes without an owner, a served cluster its upstream, and any other resource nothing. */
  lemma {:induction false} ManifestMeans(crc: string -> nat, rs: seq<XdsResource>, r: XdsResource)
    ensures var before, after := ManifestOf(crc, rs), ManifestOf(crc, rs + [r]);
      && ManifestOf(crc, []) == Manifest([], [])
      && after.routes == before.routes + (if r.RouteRes? then Translate(crc, r.rc, map[]) else [])
      && (r.ClusterRes? && Served(r.cluster) ==>
            exists u :: after.upstreams == before.upstreams + [u] && IsUpstreamOf(crc, u, r.cluster))
      && (!(r.ClusterRes? && Served(r.cluster)) ==> after.upstreams == before.upstreams)
  {
    assert (rs + [r])[..|rs|] == rs;
    var before := ManifestOf(crc, rs);
    assert before.routes + [] == before.routes;
    if r.ClusterRes? {
      ClusterMeans(crc, r.cluster);
    }
  }

  /** A route is in a file's manifest if and only if one of its route configurations gives it. */
  lemma {:induction false} RouteInManifest(crc: string -> nat, rs: seq<XdsResource>, r: Route)
    ensures r in ManifestOf(crc, rs).routes <==>
      exists i :: 0 <= i < |rs| && rs[i].RouteRes? && r in Translate(crc, rs[i].rc, map[])
  {
    if rs != [] {
      var front, last := rs[..|rs| - 1], rs[|rs| - 1];
      RouteInManifest(crc, front, r);
      assert rs == front + [last];
      ManifestMeans(crc, front, last);
      RoutesOfOne(crc, rs, front, r);
    }
  }

  lemma {:induction false} RoutesOfOne(crc: string -> nat, rs: seq<XdsResource>, front: seq<XdsResource>, r: Route)
    requires rs != [] && front == rs[..|rs| - 1]
    ensures (exists i :: 0 <= i < |rs| && rs[i].RouteRes? && r in Translate(crc, rs[i].rc, map[])) <==>
      || (exists i :: 0 <= i < |front| && front[i].RouteRes? && r in Translate(crc, front[i].rc, map[]))
      || (rs[|rs| - 1].RouteRes? && r in Translate(crc, rs[|rs| - 1].rc, map[]))
  {
    if i :| 0 <= i < |front| && front[i].RouteRes? && r in Translate(crc, front[i].rc, map[]) {
      assert rs[i] == front[i];
    }
  }

  function Current(state: FileState, name: string): Option<Manifest> {
    if name in state then state[name] else None
  }

  /** The manifest of the file after the event; None also where the event changes nothing. */
  function NextState(crc: string -> nat, state: FileState, ev: FileEvent): FileState {
    match ev
    case Write(name, None) => state
    case Write(name, Some(rs)) => state[name := Some(ManifestOf(crc, rs))]
    case Remove(name) => if name in state then state[name := None] else state
  }

  function EventsFor(crc: string -> nat, state: FileState, ev: FileEvent): seq<Event> {
    match ev
    case Write(name, None) => []
    case Write(name, Some(rs)) => DiffEvents(Current(state, name), Some(ManifestOf(crc, rs)))
    case Remove(name) => DiffEvents(Current(state, name), None)
  }

  /** whole holds the entries of all parts and nothing else. */
  ghost predicate IsUnion<T(!new)>(parts: map<string, map<string, T>>, whole: map<string, T>) {
    && (forall f, id :: f in parts && id in parts[f] ==> id in whole && whole[id] == parts[f][id])
    && (forall id :: id in whole ==> exists f :: f in parts && id in parts[f])
  }

  ghost predicate PartsApart<T(!new)>(parts: map<string, map<string, T>>) {
    forall f, g :: f in parts && g in parts && f != g ==> parts[f].Keys !! parts[g].Keys
  }

  function Part<T(!new)>(parts: map<string, map<string, T>>, name: string): map<string, T> {
    if name in parts then parts[name] else map[]
  }

  function Without<T(!new)>(parts: map<string, map<string, T>>, whole: map<string, T>, name: string): map<string, T> {
    whole - Part(parts, name).Keys
  }

  /** Replacing one part of a union: what it held goes, what it holds now comes, and neither
      meets the other parts. */
  lemma {:induction false} ReplacePart<T(!new)>(parts: map<string, map<string, T>>, whole: map<string, T>, name: string, m: map<string, T>)
    requires IsUnion(parts, whole) && PartsApart(parts) && PartsApart(parts[name := m])
    ensures var before, others := Part(parts, name), Without(parts, whole, name);
      && others.Keys !! before.Keys && others + before == whole
      && others.Keys !! m.Keys && IsUnion(parts[name := m], others + m)
  {
    OutsideAPart(parts, whole, name);
    var others := Without(parts, whole, name);
    forall id | id in others
      ensures id !in m
    {
      var f :| f in parts && f != name && id in parts[f];
      NotInBoth(parts[name := m], f, name, id);
    }
    AddAPart(parts, others, name, m);
  }

  lemma {:induction false} NotInBoth<T(!new)>(parts: map<string, map<string, T>>, f: string, g: string, id: string)
    requires PartsApart(parts) && f in parts && g in parts && f != g && id in parts[f]
    ensures id !in parts[g]
  {
  }

  /** What a union holds without one part comes from the others, and all of theirs is there. */
  lemma {:induction false} OutsideAPart<T(!new)>(parts: map<string, map<string, T>>, whole: map<string, T>, name: string)
    requires IsUnion(parts, whole) && PartsApart(parts)
    ensures HoldsOthers(parts, Without(parts, whole, name), name) && Without(parts, whole, name) + Part(parts, name) == whole
  {
    var others := Without(parts, whole, name);
    forall id | id in others
      ensures exists f :: f in parts && f != name && id in parts[f]
    {
      var f :| f in parts && id in parts[f];
    }
    forall f, id | f in parts && f != name && id in parts[f]
      ensures id in others && others[id] == parts[f][id]
    {
      if name in parts {
        NotInBoth(parts, f, name, id);
      }
    }
    if name in parts {
      assert forall id :: id in parts[name] ==> id in whole && whole[id] == parts[name][id];
    }
    RemoveThenAdd(whole, Part(parts, name));
  }

  lemma {:induction false} RemoveThenAdd<T(!new)>(whole: map<string, T>, part: map<string, T>)
    requires forall id :: id in part ==> id in whole && whole[id] == part[id]
    ensures (whole - part.Keys) + part == whole
  {
  }

  ghost predicate HoldsOthers<T(!new)>(parts: map<string, map<string, T>>, others: map<string, T>, name: string) {
    && (forall f, id :: f in parts && f != name && id in parts[f] ==> id in others && others[id] == parts[f][id])
    && (forall id :: id in others ==> exists f :: f in parts && f != name && id in parts[f])
  }

  lemma {:induction false} AddAPart<T(!new)>(parts: map<string, map<string, T>>, others: map<string, T>, name: string, m: map<string, T>)
    requires HoldsOthers(parts, others, name) && others.Keys !! m.Keys
    ensures IsUnion(parts[name := m], others + m)
  {
    var parts' := parts[name := m];
    forall id | id in others + m
      ensures exists f :: f in parts' && id in parts'[f]
    {
      if id in m {
        assert id in parts'[name];
      } else {
        var f :| f in parts && f != name && id in parts[f];
        assert id in parts'[f];
      }
    }
    forall f, id | f in parts' && id in parts'[f]
      ensures id in others + m && (others + m)[id] == parts'[f][id]
    {
      if f != name {
        assert f in parts && id in parts[f];
      }
    }
  }

  function RouteParts(state: FileState): map<string, map<string, Route>> {
    map f | f in state :: SnapshotOf(state[f]).routes
  }

  function UpstreamParts(state: FileState): map<string, map<string, Upstream>> {
    map f | f in state :: SnapshotOf(state[f]).upstreams
  }

  /** The cache is the union of the last-wins maps of all files' manifests. */
  ghost predicate HoldsUnion(state: FileState, s: Store) {
    IsUnion(RouteParts(state), s.routes) && IsUnion(UpstreamParts(state), s.upstreams)
  }

  /** No two files define the same id. */
  ghost predicate Disjoint(state: FileState) {
    PartsApart(RouteParts(state)) && PartsApart(UpstreamParts(state))
  }

  lemma {:induction false} OnePartReplaced(state: FileState, name: string, m: Option<Manifest>)
    ensures RouteParts(state[name := m]) == RouteParts(state)[name := SnapshotOf(m).routes]
    ensures UpstreamParts(state[name := m]) == UpstreamParts(state)[name := SnapshotOf(m).upstreams]
  {
  }

  lemma {:induction false} ReplaceFile(state: FileState, s: Store, name: string, m: Option<Manifest>)
    requires HoldsUnion(state, s) && Disjoint(state) && Disjoint(state[name := m])
    ensures HoldsUnion(state[name := m], ApplyAll(s, DiffEvents(Current(state, name), m)))
  {
    var before := Current(state, name);
    var others := Store(s.routes - SnapshotOf(before).routes.Keys, s.upstreams - SnapshotOf(before).upstreams.Keys);
    OnePartReplaced(state, name, m);
    ReplacePart(RouteParts(state), s.routes, name, SnapshotOf(m).routes);
    ReplacePart(UpstreamParts(state), s.upstreams, name, SnapshotOf(m).upstreams);
    assert SnapshotOf(None) == EMPTY_STORE;
    assert s == Union(others, SnapshotOf(before));
    DiffEventsConverge(others, before, m);
  }

  lemma {:induction false} FileStep(crc: string -> nat, state: FileState, s: Store, ev: FileEvent)
    requires HoldsUnion(state, s) && Disjoint(state) && Disjoint(NextState(crc, state, ev))
    ensures HoldsUnion(NextState(crc, state, ev), ApplyAll(s, EventsFor(crc, state, ev)))
  {
    match ev
    case Write(name, None) =>
    case Write(name, Some(rs)) => ReplaceFile(state, s, name, Some(ManifestOf(crc, rs)));
    case Remove(name) =>
      if name in state {
        ReplaceFile(state, s, name, None);
      }
  }

  /** Every state of a run of file events, from the empty one. */
  function StateAfter(crc: string -> nat, evs: seq<FileEvent>): FileState {
    if evs == [] then map[] else NextState(crc, StateAfter(crc, evs[..|evs| - 1]), evs[|evs| - 1])
  }

  /** The event says what file name holds: its content, or nothing any more. */
  predicate Settles(ev: FileEvent, name: string) {
    ev.name == name && (ev.Write? ==> ev.content.Some?)
  }

  lemma {:induction false} Unsettled(crc: string -> nat, evs: seq<FileEvent>, name: string, k: nat)
    requires k <= |evs| && forall j :: k <= j < |evs| ==> !Settles(evs[j], name)
    ensures Current(StateAfter(crc, evs), name) == Current(StateAfter(crc, evs[..k]), name)
  {
    if k == |evs| {
      assert evs[..k] == evs;
    } else {
      var front := evs[..|evs| - 1];
      Unsettled(crc, front, name, k);
      assert front[..k] == evs[..k];
      assert !Settles(evs[|evs| - 1], name);
    }
  }

  /** After any run a file holds what the last event that settles it says, and nothing if none
      does; unreadable writes and other files do not matter. */
  lemma {:induction false} FileHolds(crc: string -> nat, evs: seq<FileEvent>, name: string)
    ensures forall i :: 0 <= i < |evs| && Settles(evs[i], name) && (forall j :: i < j < |evs| ==> !Settles(evs[j], name)) ==>
      Current(StateAfter(crc, evs), name) == if evs[i].Write? then Some(ManifestOf(crc, evs[i].content.value)) else None
    ensures (forall i :: 0 <= i < |evs| ==> !Settles(evs[i], name)) ==> Current(StateAfter(crc, evs), name) == None
  {
    forall i | 0 <= i < |evs| && Settles(evs[i], name) && forall j :: i < j < |evs| ==> !Settles(evs[j], name)
      ensures Current(StateAfter(crc, evs), name) == if evs[i].Write? then Some(ManifestOf(crc, evs[i].content.value)) else None
    {
      Unsettled(crc, evs, name, i + 1);
      assert evs[..i + 1][..i] == evs[..i];
    }
    if forall i :: 0 <= i < |evs| ==> !Settles(evs[i], name) {
      Unsettled(crc, evs, name, 0);
    }
  }

  /** The batches sent on the event channel, in order; empty ones are not sent. */
  function FileBatches(crc: string -> nat, evs: seq<FileEvent>): seq<seq<Event>> {
    if evs == [] then []
    else
      var batch := EventsFor(crc, StateAfter(crc, evs[..|evs| - 1]), evs[|evs| - 1]);
      FileBatches(crc, evs[..|evs| - 1]) + if batch == [] then [] else [batch]
  }

  /** No two files define the same id after any event of the run. */
  ghost predicate AlwaysDisjoint(crc: string -> nat, evs: seq<FileEvent>) {
    Disjoint(StateAfter(crc, evs)) && (evs != [] ==> AlwaysDisjoint(crc, evs[..|evs| - 1]))
  }

  lemma {:induction false} SentBatch(s: Store, batches: seq<seq<Event>>, batch: seq<Event>)
    ensures ApplyAll(s, Flatten(batches + if batch == [] then [] else [batch]))
         == ApplyAll(ApplyAll(s, Flatten(batches)), batch)
  {
    if batch == [] {
      assert batches + [] == batches;
    } else {
      assert (batches + [batch])[..|batches|] == batches;
      ApplyAllAppend(s, Flatten(batches), batch);
    }
  }

  /** Over any run of writes, unreadable writes and removals with ids disjoint between files,
      the cache is the union of the current last-wins maps of all files. */
  lemma {:induction false} CacheIsUnionOfFiles(crc: string -> nat, evs: seq<FileEvent>)
    requires AlwaysDisjoint(crc, evs)
    ensures HoldsUnion(StateAfter(crc, evs), ApplyAll(EMPTY_STORE, Flatten(FileBatches(crc, evs))))
  {
    if evs != [] {
      var front, ev := evs[..|evs| - 1], evs[|evs| - 1];
      CacheIsUnionOfFiles(crc, front);
      var batches := FileBatches(crc, front);
      FileStep(crc, StateAfter(crc, front), ApplyAll(EMPTY_STORE, Flatten(batches)), ev);
      SentBatch(EMPTY_STORE, batches, EventsFor(crc, StateAfter(crc, front), ev));
    }
  }

  /** Removing a file again, or one that was never written, sends nothing and changes nothing. */
  lemma {:induction false} RepeatedRemovalIsSilent(crc: string -> nat, evs: seq<FileEvent>, name: string)
    ensures FileBatches(crc, evs + [Remove(name), Remove(name)]) == FileBatches(crc, evs + [Remove(name)])
    ensures StateAfter(crc, evs + [Remove(name), Remove(name)]) == StateAfter(crc, evs + [Remove(name)])
  {
    var once, twice := evs + [Remove(name)], evs + [Remove(name), Remove(name)];
    assert twice[..|twice| - 1] == once && once[..|once| - 1] == evs;
  }

  class Provisioner {
    const crc: string -> nat
    var state: FileState
    /** Filled by EDS resources only. */
    var updatedUpstreamsFromEDS: map<string, seq<Upstream>>
    /** evChan, in order. */
    var batches: seq<seq<Event>>

    constructor (crc: string -> nat)
      ensures state == map[] && updatedUpstreamsFromEDS == map[] && batches == [] && this.crc == crc
    {
      this.crc, state, updatedUpstreamsFromEDS, batches := crc, map[], map[], [];
    }

    method ReadManifest(rs: seq<XdsResource>) returns (rm: Manifest)
      ensures rm == ManifestOf(crc, rs)
    {
      rm := EMPTY_MANIFEST;
      for i := 0 to |rs|
        invariant rm == ManifestOf(crc, rs[..i])
      {
        assert rs[..i + 1][..i] == rs[..i];
        match rs[i] {
          case RouteRes(rc) =>
            var routes := TranslateRouteConfiguration(crc, rc, map[]);
            rm := rm.(routes := rm.routes + routes);
          case ClusterRes(c) =>
            var outcome := TranslateCluster(crc, c);
            match outcome {
              case Unsupported =>
              case Translated(u) => rm := rm.(upstreams := rm.upstreams + [u]);
              case NeedsEds(u) => rm := rm.(upstreams := rm.upstreams + [u]);
            }
          case _ =>
        }
      }
      assert rs[..|rs|] == rs;
    }

    method GenerateFileEvents(filename: string, rmo: Option<Manifest>, rm: Option<Manifest>) returns (events: seq<Event>)
      modifies this`state
      ensures state == old(state)[filename := rm] && events == DiffEvents(rmo, rm)
    {
      state := state[filename := rm];
      events := GenerateEvents(rmo, rm);
    }

    /** handleFileEvent for files without EDS resources. */
    method HandleFileEvent(ev: FileEvent)
      requires ev.Write? && ev.content.Some? ==> forall r :: r in ev.content.value ==> !r.AssignmentRes?
      modifies this
      ensures state == NextState(crc, old(state), ev)
      ensures var batch := EventsFor(crc, old(state), ev) + ResetsFor(old(state), old(updatedUpstreamsFromEDS), ev);
        batches == if batch == [] then old(batches) else old(batches) + [batch]
      ensures updatedUpstreamsFromEDS ==
        if ev.Remove? && ev.name in old(state) then old(updatedUpstreamsFromEDS) - {ev.name} else old(updatedUpstreamsFromEDS)
    {
      var events: seq<Event> := [];
      match ev {
        case Write(name, None) => return;
        case Write(name, Some(rs)) =>
          var rm := ReadManifest(rs);
          events := GenerateFileEvents(name, if name in state then state[name] else None, Some(rm));
          assert events + [] == events;
        case Remove(name) =>
          if name in state {
            events := GenerateFileEvents(name, state[name], None);
            if name in updatedUpstreamsFromEDS {
              var resets := ResetNodes(updatedUpstreamsFromEDS[name]);
              events := events + resets;
            } else {
              assert events + [] == events;
            }
            updatedUpstreamsFromEDS := updatedUpstreamsFromEDS - {name};
          }
      }
      if |events| > 0 {
        batches := batches + [events];
      }
    }
  }

  function Bare(us: seq<Upstream>): seq<Upstream> {
    seq(|us|, i requires 0 <= i < |us| => us[i].(nodes := []))
  }

  /** The updates that take the nodes of EDS-fed upstreams away when their file is removed. */
  function ResetsFor(state: FileState, fromEds: map<string, seq<Upstream>>, ev: FileEvent): seq<Event> {
    if ev.Remove? && ev.name in state && ev.name in fromEds then UpstreamEvents(Update, Bare(fromEds[ev.name])) else []
  }

  /** Removing a file that fed upstreams by EDS sends an update for each of them, in order, with its
      nodes gone and the rest as it was. */
  lemma {:induction false} ResetsMean(state: FileState, fromEds: map<string, seq<Upstream>>, name: string)
    ensures var evs := ResetsFor(state, fromEds, Remove(name));
      && |evs| == (if name in state && name in fromEds then |fromEds[name]| else 0)
      && forall i :: 0 <= i < |evs| ==>
           var u := fromEds[name][i];
           evs[i] == Event(Update, UpstreamObject(Upstream(u.id, u.name, u.lbType, u.timeout, [])), NoObject, 0)
  {
  }

  method ResetNodes(us: seq<Upstream>) returns (events: seq<Event>)
    ensures events == UpstreamEvents(Update, Bare(us))
  {
    events := [];
    for i := 0 to |us|
      invariant events == UpstreamEvents(Update, Bare(us))[..i]
    {
      events := events + [PutEvent(Update, UpstreamObject(us[i].(nodes := [])))];
    }
  }
}
