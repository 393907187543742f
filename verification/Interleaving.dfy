/** The consumer goroutine and any number of readers, interleaved at every shared access:
    pkg/sidecar/cachereflection.go, pkg/etcdv3/etcd.go and pkg/etcdv3/kv.go. */
module Interleaving {
  import opened Objects
  import opened EtcdModel
  import opened History

  /** Where the goroutine that consumes batches stands; batch[..i] is done in each phase. */
  datatype Consumer =
    | Idle
    | Reflecting(batch: seq<Event>, i: nat)
    /** The cache holds event i, which has no revision yet. */
    | Loading(batch: seq<Event>, i: nat)
    /** The revision was loaded, the compare-and-swap comes next. */
    | Swapping(batch: seq<Event>, i: nat, loaded: int)
    | Pushing(batch: seq<Event>, i: nat)
    /** The metadata of event i is computed, from what at writes had left, but not stored. */
    | Writing(batch: seq<Event>, i: nat, m: Meta, at: nat)

  /** Where a goroutine that composes a key-value for a cached object stands. A range request
      falls back to the current revision, a first watch drops the object. */
  datatype Reader =
    | Looking(o: Object, fallback: bool)
    | Missed(o: Object)
    | HasRevision(o: Object, rev: int)

  /** A write to the metadata of a key: a reader's fallback revision, or a published event by its
      number. */
  datatype Write = Fell(key: string, rev: int) | Pushed(key: string, event: nat)

  datatype State = State(
    revision: int,
    cache: Store,
    metas: map<string, Meta>,
    consumer: Consumer,
    readers: map<int, Reader>,
    received: seq<Event>,
    /** Events with their revisions, in the order they were stamped. */
    stamped: seq<Event>,
    /** How many stamped events went through pushEvent. */
    pushed: nat,
    published: seq<WatchEvent>,
    returned: seq<KeyValue>,
    /** All writes to metas, in order. */
    writes: seq<Write>,
    /** For every published event, how many writes preceded the load of its metadata. */
    loads: seq<nat>)

  const START := State(0, EMPTY_STORE, map[], Idle, map[], [], [], 0, [], [], [], [])

  datatype Step =
    | Receive(batch: seq<Event>)
    | Consume
    | StartRead(reader: int, o: Object, fallback: bool)
    | ContinueRead(reader: int)

  function ConsumerStep(prefix: string, s: State): State {
    match s.consumer
    case Idle => s
    case Reflecting(batch, i) =>
      if i >= |batch| then s.(consumer := Pushing(batch, 0))
      else s.(cache := Apply(s.cache, batch[i]), consumer := Loading(batch, i))
    case Loading(batch, i) => s.(consumer := Swapping(batch, i, s.revision))
    case Swapping(batch, i, loaded) =>
      if s.revision != loaded || i >= |batch| then s.(consumer := Loading(batch, i))
      else
        var ev := batch[i].(revision := loaded);
        s.(revision := loaded + 1, stamped := s.stamped + [ev], consumer := Reflecting(batch[i := ev], i + 1))
    case Pushing(batch, i) =>
      if i >= |batch| then s.(consumer := Idle)
      else if batch[i].Payload() == NoObject then s.(consumer := Pushing(batch, i + 1), pushed := s.pushed + 1)
      else s.(consumer := Writing(batch, i, MetaFor(prefix, s.metas, batch[i]), |s.writes|))
    case Writing(batch, i, m, at) =>
      if i >= |batch| || batch[i].Payload() == NoObject then s
      else
        var ev := batch[i];
        var name := ObjectName(prefix, ev.Payload());
        s.(metas := if ev.typ == Delete then s.metas - {name} else s.metas[name := m],
           published := s.published + [WatchEvent(ev.typ == Delete, Compose(name, m, ev.Payload()))],
           writes := s.writes + [Pushed(name, |s.published|)],
           loads := s.loads + [at],
           pushed := s.pushed + 1,
           consumer := Pushing(batch, i + 1))
  }

  function ReaderStep(prefix: string, s: State, k: int): State
    requires k in s.readers
  {
    match s.readers[k]
    case Looking(o, fallback) =>
      if o == NoObject then s
      else
        var name := ObjectName(prefix, o);
        if name in s.metas then
          s.(returned := s.returned + [Compose(name, s.metas[name], o)], readers := s.readers - {k})
        else if fallback then s.(readers := s.readers[k := Missed(o)])
        else s.(readers := s.readers - {k})
    case Missed(o) => s.(readers := s.readers[k := HasRevision(o, s.revision)])
    case HasRevision(o, rev) =>
      if o == NoObject then s
      else
        var name := ObjectName(prefix, o);
        s.(metas := s.metas[name := Meta(rev, rev)],
           returned := s.returned + [Compose(name, Meta(rev, rev), o)],
           readers := s.readers - {k},
           writes := s.writes + [Fell(name, rev)])
  }

  /** The objects a reader can have found. */
  predicate Cached(s: Store, o: Object) {
    match o
    case RouteObject(r) => r.id in s.routes && s.routes[r.id] == r
    case UpstreamObject(u) => u.id in s.upstreams && s.upstreams[u.id] == u
    case NoObject => false
  }

  predicate Enabled(s: State, step: Step) {
    match step
    case Receive(_) => s.consumer == Idle
    case Consume => s.consumer != Idle
    case StartRead(k, o, _) => k !in s.readers && Cached(s.cache, o)
    case ContinueRead(k) => k in s.readers
  }

  function Do(prefix: string, s: State, step: Step): State
    requires Enabled(s, step)
  {
    match step
    case Receive(batch) => s.(consumer := Reflecting(batch, 0), received := s.received + batch)
    case Consume => ConsumerStep(prefix, s)
    case StartRead(k, o, fallback) => s.(readers := s.readers[k := Looking(o, fallback)])
    case ContinueRead(k) => ReaderStep(prefix, s, k)
  }

  /** The state after a run; a step that is not enabled does nothing. */
  function Run(prefix: string, steps: seq<Step>): State {
    if steps == [] then START
    else
      var s, step := Run(prefix, steps[..|steps| - 1]), steps[|steps| - 1];
      if Enabled(s, step) then Do(prefix, s, step) else s
  }

  predicate Within(m: Meta, rev: int) {
    0 <= m.createRevision <= rev && 0 <= m.modRevision <= rev
  }

  /** No revision recorded, read or returned is above the current one. */
  ghost predicate Bounded(s: State) {
    && 0 <= s.revision
    && (forall n :: n in s.metas ==> Within(s.metas[n], s.revision))
    && (s.consumer.Writing? ==> Within(s.consumer.m, s.revision))
    && (forall k :: k in s.readers && s.readers[k].HasRevision? ==> 0 <= s.readers[k].rev <= s.revision)
    && (forall kv :: kv in s.returned ==> Within(Meta(kv.createRevision, kv.modRevision), s.revision))
    && (forall e :: e in s.published ==> Within(Meta(e.kv.createRevision, e.kv.modRevision), s.revision))
  }

  /** Every event received is applied to the cache, stamped and pushed once, in order. */
  ghost predicate InOrder(s: State) {
    && s.revision == |s.stamped| <= |s.received|
    && s.stamped == Stamp(s.received, 0)[..|s.stamped|]
    && match s.consumer
       case Idle => |s.stamped| == |s.received| && s.pushed == |s.stamped| && s.cache == ApplyAll(EMPTY_STORE, s.stamped)
       case Reflecting(batch, i) =>
         && Split(s.received, s.stamped, s.pushed, batch, i) && s.cache == ApplyAll(EMPTY_STORE, s.stamped)
       case Loading(batch, i) =>
         && i < |batch| && Split(s.received, s.stamped, s.pushed, batch, i)
         && s.cache == Apply(ApplyAll(EMPTY_STORE, s.stamped), batch[i])
       case Swapping(batch, i, loaded) =>
         && i < |batch| && Split(s.received, s.stamped, s.pushed, batch, i) && loaded == s.revision
         && s.cache == Apply(ApplyAll(EMPTY_STORE, s.stamped), batch[i])
       case Pushing(batch, i) =>
         && |s.stamped| == |s.received| && s.cache == ApplyAll(EMPTY_STORE, s.stamped)
         && i <= |batch| && s.pushed + |batch| - i == |s.stamped| && s.stamped[s.pushed..] == batch[i..]
       case Writing(batch, i, m, _) =>
         && |s.stamped| == |s.received| && s.cache == ApplyAll(EMPTY_STORE, s.stamped)
         && i < |batch| && s.pushed + |batch| - i == |s.stamped| && s.stamped[s.pushed..] == batch[i..]
         && batch[i].Payload() != NoObject && m.modRevision == batch[i].revision
  }

  /** batch[..i] is stamped and waits to be pushed; batch[i..] is what remains of the input. */
  ghost predicate Split(received: seq<Event>, stamped: seq<Event>, pushed: nat, batch: seq<Event>, i: nat) {
    && i <= |batch| && pushed + i == |stamped| && |stamped| + |batch| - i == |received|
    && stamped[pushed..] == batch[..i] && received[|stamped|..] == batch[i..]
  }

  lemma {:induction false} StampPrefix(evs: seq<Event>, more: seq<Event>)
    ensures Stamp(evs + more, 0)[..|evs|] == Stamp(evs, 0)
  {
  }

  lemma {:induction false} ReceiveInOrder(s: State, batch: seq<Event>)
    requires InOrder(s) && s.consumer == Idle
    ensures InOrder(s.(consumer := Reflecting(batch, 0), received := s.received + batch))
  {
    StampPrefix(s.received, batch);
    assert s.stamped == Stamp(s.received, 0);
    assert s.stamped[s.pushed..] == [] == batch[..0];
    assert (s.received + batch)[|s.received|..] == batch[0..];
  }

  lemma {:induction false} SplitStep(received: seq<Event>, stamped: seq<Event>, pushed: nat, batch: seq<Event>, i: nat, ev: Event)
    requires Split(received, stamped, pushed, batch, i) && i < |batch|
    ensures batch[i] == received[|stamped|]
    ensures Split(received, stamped + [ev], pushed, batch[i := ev], i + 1)
  {
    assert batch[i] == batch[i..][0] == received[|stamped|];
    var batch', stamped' := batch[i := ev], stamped + [ev];
    assert stamped'[pushed..] == stamped[pushed..] + [ev] == batch'[..i + 1];
    assert received[|stamped'|..] == received[|stamped|..][1..];
    assert batch'[i + 1..] == batch[i..][1..];
  }

  lemma {:induction false} SwapInOrder(prefix: string, s: State)
    requires InOrder(s) && s.consumer.Swapping?
    ensures InOrder(ConsumerStep(prefix, s))
  {
    var batch, i := s.consumer.batch, s.consumer.i;
    var ev := batch[i].(revision := s.revision);
    SplitStep(s.received, s.stamped, s.pushed, batch, i, ev);
    assert ev == Stamp(s.received, 0)[|s.stamped|];
    var stamped' := s.stamped + [ev];
    assert stamped'[..|s.stamped|] == s.stamped;
    assert stamped' == Stamp(s.received, 0)[..|stamped'|];
    assert ApplyAll(EMPTY_STORE, stamped') == Apply(ApplyAll(EMPTY_STORE, s.stamped), ev);
  }

  lemma {:induction false} PushInOrder(prefix: string, s: State)
    requires InOrder(s) && (s.consumer.Pushing? || s.consumer.Writing?)
    ensures InOrder(ConsumerStep(prefix, s))
  {
    var batch, i := s.consumer.batch, s.consumer.i;
    if i < |batch| {
      assert s.stamped[s.pushed + 1..] == s.stamped[s.pushed..][1..] == batch[i..][1..] == batch[i + 1..];
    }
  }

  lemma {:induction false} ConsumeInOrder(prefix: string, s: State)
    requires InOrder(s)
    ensures InOrder(ConsumerStep(prefix, s))
  {
    match s.consumer
    case Idle =>
    case Reflecting(batch, i) =>
      if i == |batch| {
        assert batch[..i] == batch == batch[0..];
      }
    case Loading(_, _) =>
    case Swapping(_, _, _) => SwapInOrder(prefix, s);
    case Pushing(_, _) => PushInOrder(prefix, s);
    case Writing(_, _, _, _) => PushInOrder(prefix, s);
  }

  /** Readers change nothing of the consumer's. */
  ghost predicate SameConsumer(s: State, t: State) {
    && s.revision == t.revision && s.cache == t.cache && s.consumer == t.consumer && s.received == t.received
    && s.stamped == t.stamped && s.pushed == t.pushed && s.published == t.published && s.loads == t.loads
  }

  lemma {:induction false} ReaderLeavesConsumer(prefix: string, s: State, k: int)
    requires k in s.readers
    ensures SameConsumer(s, ReaderStep(prefix, s, k))
  {
  }

  lemma {:induction false} SameConsumerInOrder(s: State, t: State)
    requires InOrder(s) && SameConsumer(s, t)
    ensures InOrder(t)
  {
  }

  lemma {:induction false} InOrderStep(prefix: string, s: State, step: Step)
    requires InOrder(s) && Enabled(s, step)
    ensures InOrder(Do(prefix, s, step))
  {
    match step
    case Receive(batch) => ReceiveInOrder(s, batch);
    case Consume => ConsumeInOrder(prefix, s);
    case StartRead(_, _, _) => SameConsumerInOrder(s, Do(prefix, s, step));
    case ContinueRead(k) =>
      ReaderLeavesConsumer(prefix, s, k);
      SameConsumerInOrder(s, ReaderStep(prefix, s, k));
  }

  lemma {:induction false} NextPushed(s: State)
    requires InOrder(s) && (s.consumer.Pushing? || s.consumer.Writing?) && s.consumer.i < |s.consumer.batch|
    ensures s.pushed < |s.stamped| && s.stamped[s.pushed] == s.consumer.batch[s.consumer.i]
    ensures 0 <= s.consumer.batch[s.consumer.i].revision == s.pushed < s.revision
  {
    assert s.stamped[s.pushed] == s.stamped[s.pushed..][0] == s.consumer.batch[s.consumer.i..][0];
    assert s.stamped[s.pushed] == Stamp(s.received, 0)[s.pushed];
  }

  lemma {:induction false} WriteBounded(prefix: string, s: State)
    requires InOrder(s) && Bounded(s) && s.consumer.Writing?
    ensures Bounded(ConsumerStep(prefix, s))
  {
    var ev, m := s.consumer.batch[s.consumer.i], s.consumer.m;
    var kv := Compose(ObjectName(prefix, ev.Payload()), m, ev.Payload());
    var t := ConsumerStep(prefix, s);
    assert Meta(kv.createRevision, kv.modRevision) == m;
    forall n | n in t.metas
      ensures Within(t.metas[n], t.revision)
    {
    }
    forall e | e in t.published
      ensures Within(Meta(e.kv.createRevision, e.kv.modRevision), t.revision)
    {
      assert e in s.published || e.kv == kv;
    }
  }

  lemma {:induction false} WithinGrows(s: State, t: State)
    requires Bounded(s) && s.revision <= t.revision
    requires s.metas == t.metas && s.readers == t.readers && s.returned == t.returned && s.published == t.published
    requires t.consumer.Writing? ==> Within(t.consumer.m, t.revision)
    ensures Bounded(t)
  {
  }

  lemma {:induction false} ConsumeBounded(prefix: string, s: State)
    requires InOrder(s) && Bounded(s)
    ensures Bounded(ConsumerStep(prefix, s)) && s.revision <= ConsumerStep(prefix, s).revision
  {
    if s.consumer.Writing? {
      WriteBounded(prefix, s);
    } else {
      if s.consumer.Pushing? && s.consumer.i < |s.consumer.batch| {
        NextPushed(s);
      }
      WithinGrows(s, ConsumerStep(prefix, s));
    }
  }

  lemma {:induction false} ReadBounded(prefix: string, s: State, k: int)
    requires Bounded(s) && k in s.readers
    ensures Bounded(ReaderStep(prefix, s, k))
  {
    var t := ReaderStep(prefix, s, k);
    forall kv | kv in t.returned
      ensures Within(Meta(kv.createRevision, kv.modRevision), t.revision)
    {
      assert kv in s.returned || kv == t.returned[|t.returned| - 1];
    }
  }

  lemma {:induction false} BoundedStep(prefix: string, s: State, step: Step)
    requires InOrder(s) && Bounded(s) && Enabled(s, step)
    ensures Bounded(Do(prefix, s, step)) && s.revision <= Do(prefix, s, step).revision
  {
    match step
    case Receive(_) => WithinGrows(s, Do(prefix, s, step));
    case Consume => ConsumeBounded(prefix, s);
    case StartRead(_, _, _) =>
    case ContinueRead(k) =>
      ReaderLeavesConsumer(prefix, s, k);
      ReadBounded(prefix, s, k);
  }

  predicate SameButCreate(a: WatchEvent, b: WatchEvent) {
    a.deleted == b.deleted && a.kv.(createRevision := 0) == b.kv.(createRevision := 0)
  }

  ghost predicate MatchesLog(published: seq<WatchEvent>, log: seq<WatchEvent>) {
    |published| == |log| && forall i :: 0 <= i < |log| ==> SameButCreate(published[i], log[i])
  }

  function Done(s: State): seq<Event>
    requires s.pushed <= |s.stamped|
  {
    s.stamped[..s.pushed]
  }

  /** The published events against the log of the events pushed so far: only createRevision
      can differ. */
  ghost predicate Logged(prefix: string, s: State) {
    s.pushed <= |s.stamped| && MatchesLog(s.published, Log(prefix, map[], Done(s)))
  }

  lemma {:induction false} PushLogged(prefix: string, s: State)
    requires InOrder(s) && Logged(prefix, s)
    requires s.consumer.Pushing? && s.consumer.i < |s.consumer.batch|
    ensures Logged(prefix, ConsumerStep(prefix, s))
  {
    var ev := s.consumer.batch[s.consumer.i];
    if ev.Payload() == NoObject {
      DoneNext(prefix, s);
      assert Log(prefix, map[], Done(s)) + [] == Log(prefix, map[], Done(s));
    }
  }

  lemma {:induction false} WriteLogged(prefix: string, s: State)
    requires InOrder(s) && Logged(prefix, s) && s.consumer.Writing?
    ensures Logged(prefix, ConsumerStep(prefix, s))
  {
    DoneNext(prefix, s);
    WriteMatches(prefix, s, s.consumer.batch[s.consumer.i]);
  }

  lemma {:induction false} DoneNext(prefix: string, s: State)
    requires InOrder(s) && (s.consumer.Pushing? || s.consumer.Writing?) && s.consumer.i < |s.consumer.batch|
    ensures var ev, next := s.consumer.batch[s.consumer.i], s.stamped[..s.pushed + 1];
      && s.pushed < |s.stamped|
      && Log(prefix, map[], next) == Log(prefix, map[], Done(s)) + PublishedOrNothing(prefix, MetaAll(prefix, map[], Done(s)), ev)
      && MetaAll(prefix, map[], next) == MetaStep(prefix, MetaAll(prefix, map[], Done(s)), ev)
  {
    NextPushed(s);
    assert s.stamped[..s.pushed + 1] == Done(s) + [s.consumer.batch[s.consumer.i]];
    LogSnoc(prefix, map[], Done(s), s.consumer.batch[s.consumer.i]);
  }

  lemma {:induction false} WriteMatches(prefix: string, s: State, ev: Event)
    requires Logged(prefix, s) && s.consumer.Writing? && ev.Payload() != NoObject && s.consumer.m.modRevision == ev.revision
    ensures var e := WatchEvent(ev.typ == Delete, Compose(ObjectName(prefix, ev.Payload()), s.consumer.m, ev.Payload()));
      MatchesLog(s.published + [e],
                 Log(prefix, map[], Done(s)) + PublishedOrNothing(prefix, MetaAll(prefix, map[], Done(s)), ev))
  {
    var e := WatchEvent(ev.typ == Delete, Compose(ObjectName(prefix, ev.Payload()), s.consumer.m, ev.Payload()));
    MatchesNext(s.published, Log(prefix, map[], Done(s)), e, Published(prefix, MetaAll(prefix, map[], Done(s)), ev));
  }

  lemma {:induction false} MatchesNext(published: seq<WatchEvent>, log: seq<WatchEvent>, a: WatchEvent, b: WatchEvent)
    requires MatchesLog(published, log) && SameButCreate(a, b)
    ensures MatchesLog(published + [a], log + [b])
  {
  }

  lemma {:induction false} SameConsumerLogged(prefix: string, s: State, t: State)
    requires Logged(prefix, s) && SameConsumer(s, t)
    ensures Logged(prefix, t)
  {
  }

  lemma {:induction false} ConsumeLogged(prefix: string, s: State)
    requires InOrder(s) && Logged(prefix, s)
    ensures Logged(prefix, ConsumerStep(prefix, s))
  {
    if s.consumer.Pushing? && s.consumer.i < |s.consumer.batch| {
      PushLogged(prefix, s);
    } else if s.consumer.Writing? {
      WriteLogged(prefix, s);
    } else if s.consumer.Swapping? {
      assert Done(ConsumerStep(prefix, s)) == Done(s);
    }
  }

  lemma {:induction false} LoggedStep(prefix: string, s: State, step: Step)
    requires InOrder(s) && Logged(prefix, s) && Enabled(s, step)
    ensures Logged(prefix, Do(prefix, s, step))
  {
    match step
    case Receive(_) =>
    case Consume => ConsumeLogged(prefix, s);
    case StartRead(_, _, _) => SameConsumerLogged(prefix, s, Do(prefix, s, step));
    case ContinueRead(k) =>
      ReaderLeavesConsumer(prefix, s, k);
      SameConsumerLogged(prefix, s, ReaderStep(prefix, s, k));
  }

  /** Whatever the interleaving of the consumer and the readers. */
  lemma {:induction false} SafeUnderInterleaving(prefix: string, steps: seq<Step>)
    ensures var s := Run(prefix, steps); InOrder(s) && Bounded(s) && Logged(prefix, s)
  {
    if steps != [] {
      var front, step := steps[..|steps| - 1], steps[|steps| - 1];
      SafeUnderInterleaving(prefix, front);
      var s := Run(prefix, front);
      if Enabled(s, step) {
        InOrderStep(prefix, s, step);
        BoundedStep(prefix, s, step);
        LoggedStep(prefix, s, step);
      }
    }
  }

  lemma {:induction false} RevisionGrows(prefix: string, steps: seq<Step>, k: nat)
    requires k <= |steps|
    ensures Run(prefix, steps[..k]).revision <= Run(prefix, steps).revision
  {
    if k == |steps| {
      assert steps[..k] == steps;
    } else {
      var front, step := steps[..|steps| - 1], steps[|steps| - 1];
      RevisionGrows(prefix, front, k);
      assert front[..k] == steps[..k];
      SafeUnderInterleaving(prefix, front);
      var s := Run(prefix, front);
      if Enabled(s, step) {
        BoundedStep(prefix, s, step);
      }
    }
  }

  /** The published log has strictly increasing revisions below the current one. */
  ghost predicate Increasing(log: seq<WatchEvent>, below: int) {
    && (forall i, j :: 0 <= i < j < |log| ==> log[i].kv.modRevision < log[j].kv.modRevision)
    && (forall i :: 0 <= i < |log| ==> 0 <= log[i].kv.modRevision < below)
  }

  lemma {:induction false} LogIncreases(prefix: string, h: seq<Event>)
    requires Stamped(h)
    ensures Increasing(Log(prefix, map[], h), |h|)
  {
    if h != [] {
      var front, ev := h[..|h| - 1], h[|h| - 1];
      LogIncreases(prefix, front);
      var log := Log(prefix, map[], front);
      if ev.Payload() != NoObject {
        var e := Published(prefix, MetaAll(prefix, map[], front), ev);
        assert e.kv.modRevision == |front|;
        assert Log(prefix, map[], h) == log + [e];
        assert Increasing(log + [e], |h|);
      }
    }
  }

  /** Revision safety. Over any interleaving: the revision never goes down; the events received
      are stamped 0, 1, 2, ... in order, and the current revision is one past the last; they are
      published in strictly increasing revision order; no revision recorded, returned or
      published is above the current one. */
  lemma {:induction false} RevisionSafety(prefix: string, steps: seq<Step>, k: nat)
    requires k <= |steps|
    ensures var s := Run(prefix, steps);
      && Run(prefix, steps[..k]).revision <= s.revision == |s.stamped| <= |s.received|
      && s.stamped == Stamp(s.received, 0)[..s.revision]
      && Increasing(s.published, s.revision)
      && (forall n :: n in s.metas ==> Within(s.metas[n], s.revision))
      && (forall kv :: kv in s.returned ==> Within(Meta(kv.createRevision, kv.modRevision), s.revision))
      && (forall e :: e in s.published ==> Within(Meta(e.kv.createRevision, e.kv.modRevision), s.revision))
  {
    RevisionGrows(prefix, steps, k);
    SafeUnderInterleaving(prefix, steps);
    var s := Run(prefix, steps);
    assert Stamped(Done(s));
    LogIncreases(prefix, Done(s));
    var log := Log(prefix, map[], Done(s));
    forall i | 0 <= i < |log|
      ensures s.published[i].kv.modRevision == log[i].kv.modRevision
    {
      assert SameButCreate(s.published[i], log[i]);
      assert s.published[i].kv.(createRevision := 0).modRevision == log[i].kv.(createRevision := 0).modRevision;
    }
  }

  /** Key-values without their create revision. */
  function Strip(kvs: map<string, KeyValue>): map<string, KeyValue> {
    map n | n in kvs :: kvs[n].(createRevision := 0)
  }

  lemma {:induction false} ReplayUpToCreate(a: seq<WatchEvent>, b: seq<WatchEvent>)
    requires MatchesLog(a, b)
    ensures Strip(Replay(map[], a)) == Strip(Replay(map[], b))
  {
    if a != [] {
      var x, y := a[|a| - 1], b[|b| - 1];
      ReplayUpToCreate(a[..|a| - 1], b[..|b| - 1]);
      assert SameButCreate(x, y);
      assert x.kv.(createRevision := 0).key == y.kv.(createRevision := 0).key;
      var before, before' := Replay(map[], a[..|a| - 1]), Replay(map[], b[..|b| - 1]);
      StripPut(before, x);
      StripPut(before', y);
    }
  }

  lemma {:induction false} StripPut(kvs: map<string, KeyValue>, e: WatchEvent)
    ensures Strip(kvs - {e.kv.key}) == Strip(kvs) - {e.kv.key}
    ensures Strip(kvs[e.kv.key := e.kv]) == Strip(kvs)[e.kv.key := e.kv.(createRevision := 0)]
  {
  }

  /** Whatever the readers did, a client that replays everything published holds, once the
      consumer is idle, the keys, values and mod revisions of the whole history. */
  lemma {:induction false} ReplicaAtRest(prefix: string, steps: seq<Step>)
    requires Run(prefix, steps).consumer == Idle
    ensures var s := Run(prefix, steps);
      && s.cache == ApplyAll(EMPTY_STORE, s.received)
      && Strip(Replay(map[], s.published)) == Strip(KeySpace(prefix, Stamp(s.received, 0)))
  {
    SafeUnderInterleaving(prefix, steps);
    var s := Run(prefix, steps);
    var h := Stamp(s.received, 0);
    assert s.stamped == h && Done(s) == h;
    StampApplies(EMPTY_STORE, s.received, 0);
    ReplayUpToCreate(s.published, Log(prefix, map[], h));
  }

  const SOME_ROUTE := Route("r", "", 0, 0, [], [], "", [])
  const FOUND := RouteObject(SOME_ROUTE)

  /** One route is added, cached and stamped. */
  const REFLECTED: seq<Step> := [Receive([PutEvent(Add, FOUND)])] + [Consume] + [Consume] + [Consume]

  /** A reader finds it in the cache before pushEvent records its metadata. */
  const EARLY_READ: seq<Step> := REFLECTED + [StartRead(0, FOUND, true)] + [ContinueRead(0)]

  lemma {:induction false} AfterStep(prefix: string, steps: seq<Step>, step: Step, s: State)
    requires Run(prefix, steps) == s && Enabled(s, step)
    ensures Run(prefix, steps + [step]) == Do(prefix, s, step)
  {
    assert (steps + [step])[..|steps|] == steps;
  }

  lemma {:induction false} AfterReflected(prefix: string)
    ensures Run(prefix, REFLECTED) ==
      var ev := PutEvent(Add, FOUND);
      State(1, Store(map["r" := SOME_ROUTE], map[]), map[], Reflecting([ev], 1), map[], [ev], [ev], 0, [], [], [], [])
  {
    var ev := PutEvent(Add, FOUND);
    var batch := [ev];
    assert ev.(revision := 0) == ev && batch[0 := ev] == batch;
    var receive := [Receive(batch)];
    AfterStep(prefix, [], Receive(batch), START);
    assert [] + receive == receive;
    var s1 := Do(prefix, START, Receive(batch));
    AfterStep(prefix, receive, Consume, s1);
    var s2 := Do(prefix, s1, Consume);
    AfterStep(prefix, receive + [Consume], Consume, s2);
    var s3 := Do(prefix, s2, Consume);
    AfterStep(prefix, receive + [Consume] + [Consume], Consume, s3);
  }

  lemma {:induction false} AfterEarlyRead(prefix: string)
    ensures Run(prefix, EARLY_READ) == Run(prefix, REFLECTED).(readers := map[0 := Missed(FOUND)])
  {
    AfterReflected(prefix);
    var s := Run(prefix, REFLECTED);
    AfterStep(prefix, REFLECTED, StartRead(0, FOUND, true), s);
    AfterStep(prefix, REFLECTED + [StartRead(0, FOUND, true)], ContinueRead(0), Do(prefix, s, StartRead(0, FOUND, true)));
  }

  const FALLBACK: seq<Step> := EARLY_READ + [ContinueRead(0)] + [ContinueRead(0)]

  lemma {:induction false} AfterFallback(prefix: string)
    ensures var s := Run(prefix, FALLBACK);
      && s.consumer == Reflecting([PutEvent(Add, FOUND)], 1) && s.published == []
      && s.metas == map[ObjectName(prefix, FOUND) := Meta(1, 1)]
  {
    AfterReflected(prefix);
    AfterEarlyRead(prefix);
    var s0 := Run(prefix, EARLY_READ);
    AfterStep(prefix, EARLY_READ, ContinueRead(0), s0);
    AfterStep(prefix, EARLY_READ + [ContinueRead(0)], ContinueRead(0), Do(prefix, s0, ContinueRead(0)));
  }

  /** The reader's fallback lands before the push: the create revision published for the
      key exceeds its mod revision. */
  lemma {:induction false} CreateCanExceedMod(prefix: string)
    ensures var s := Run(prefix, FALLBACK + [Consume] + [Consume] + [Consume]);
      |s.published| == 1 && s.published[0].kv.createRevision == 1 && s.published[0].kv.modRevision == 0
  {
    AfterFallback(prefix);
    var s0 := Run(prefix, FALLBACK);
    AfterStep(prefix, FALLBACK, Consume, s0);
    var s1 := Do(prefix, s0, Consume);
    AfterStep(prefix, FALLBACK + [Consume], Consume, s1);
    AfterStep(prefix, FALLBACK + [Consume] + [Consume], Consume, Do(prefix, s1, Consume));
  }
}
