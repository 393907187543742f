/** What readers that fall back to the current revision do to the metadata: exactly when a create
    revision exceeds a mod revision, and exactly when what is published and recorded is that of the
    history; pkg/etcdv3/kv.go and pkg/etcdv3/etcd.go. */
module Fallbacks {
  import opened Objects
  import opened EtcdModel
  import opened History
  import opened Interleaving

  /** The last write to a key. */
  function LastWrite(writes: seq<Write>, key: string): Option<Write> {
    if writes == [] then None
    else if writes[|writes| - 1].key == key then Some(writes[|writes| - 1])
    else LastWrite(writes[..|writes| - 1], key)
  }

  lemma {:induction false} LastWriteSnoc(writes: seq<Write>, w: Write, key: string)
    ensures LastWrite(writes + [w], key) == if w.key == key then Some(w) else LastWrite(writes, key)
  {
    assert (writes + [w])[..|writes|] == writes;
  }

  /** The metadata that a write to a key leaves: an event that deletes leaves none. */
  function Left(published: seq<WatchEvent>, w: Option<Write>): Option<Meta> {
    match w
    case None => None
    case Some(Fell(_, rev)) => Some(Meta(rev, rev))
    case Some(Pushed(_, p)) =>
      if p >= |published| || published[p].deleted then None
      else Some(Meta(published[p].kv.createRevision, published[p].kv.modRevision))
  }

  function Recorded(metas: map<string, Meta>, key: string): Option<Meta> {
    if key in metas then Some(metas[key]) else None
  }

  /** A write by the consumer is that of an event published for the key. */
  ghost predicate OwnEvent(published: seq<WatchEvent>, w: Option<Write>, key: string) {
    w.Some? && w.value.Pushed? ==> w.value.event < |published| && published[w.value.event].kv.key == key
  }

  /** The create revision that an event gets from the metadata it loads. */
  function CreateFrom(m: Option<Meta>, mod: int): int {
    if m.Some? then m.value.createRevision else mod
  }

  /** The write that event i's metadata was loaded after. */
  function LoadedAfter(s: State, i: nat): Option<Write>
    requires i < |s.published| == |s.loads| && s.loads[i] <= |s.writes|
  {
    LastWrite(s.writes[..s.loads[i]], s.published[i].kv.key)
  }

  ghost predicate LoadsInRange(s: State) {
    |s.loads| == |s.published| && forall i :: 0 <= i < |s.loads| ==> s.loads[i] <= |s.writes|
  }

  /** Metadata is what the last write to the key left, and every published create revision comes
      from the write that was last when the metadata was loaded. */
  ghost predicate Traced(s: State) {
    && LoadsInRange(s)
    && (forall n :: OwnEvent(s.published, LastWrite(s.writes, n), n) && Recorded(s.metas, n) == Left(s.published, LastWrite(s.writes, n)))
    && (forall i :: 0 <= i < |s.published| ==> Inherits(s, i))
  }

  ghost predicate Inherits(s: State, i: int)
    requires LoadsInRange(s) && 0 <= i < |s.published|
  {
    && OwnEvent(s.published[..i], LoadedAfter(s, i), s.published[i].kv.key)
    && s.published[i].kv.createRevision == CreateFrom(Left(s.published[..i], LoadedAfter(s, i)), s.published[i].kv.modRevision)
  }

  /** The same for the event whose metadata is loaded but not stored. */
  ghost predicate WritingTraced(prefix: string, s: State) {
    s.consumer.Writing? && s.consumer.i < |s.consumer.batch| && s.consumer.batch[s.consumer.i].Payload() != NoObject ==>
      var name := ObjectName(prefix, s.consumer.batch[s.consumer.i].Payload());
      && s.consumer.at <= |s.writes|
      && OwnEvent(s.published, LastWrite(s.writes[..s.consumer.at], name), name)
      && s.consumer.m.createRevision == CreateFrom(Left(s.published, LastWrite(s.writes[..s.consumer.at], name)), s.consumer.m.modRevision)
  }

  lemma {:induction false} FellTraced(prefix: string, s: State, t: State, key: string, rev: int)
    requires Traced(s) && WritingTraced(prefix, s) && SameConsumer(s, t)
    requires t.writes == s.writes + [Fell(key, rev)] && t.metas == s.metas[key := Meta(rev, rev)]
    ensures Traced(t) && WritingTraced(prefix, t)
  {
    forall n
      ensures OwnEvent(t.published, LastWrite(t.writes, n), n) && Recorded(t.metas, n) == Left(t.published, LastWrite(t.writes, n))
    {
      LastWriteSnoc(s.writes, Fell(key, rev), n);
    }
    OldLoadsKept(s, t);
    if t.consumer.Writing? && t.consumer.at <= |s.writes| {
      assert t.writes[..t.consumer.at] == s.writes[..t.consumer.at];
    }
  }

  /** Later writes and events leave what earlier events inherited alone. */
  lemma {:induction false} OldLoadsKept(s: State, t: State)
    requires LoadsInRange(s) && LoadsInRange(t)
    requires s.writes <= t.writes && s.published <= t.published && s.loads <= t.loads
    ensures forall i :: 0 <= i < |s.published| ==> LoadedAfter(t, i) == LoadedAfter(s, i)
    ensures forall i :: 0 <= i < |s.published| && Inherits(s, i) ==> Inherits(t, i)
  {
    forall i | 0 <= i < |s.published|
      ensures LoadedAfter(t, i) == LoadedAfter(s, i) && (Inherits(s, i) ==> Inherits(t, i))
    {
      assert t.writes[..s.loads[i]] == s.writes[..s.loads[i]];
      assert t.published[..i] == s.published[..i];
    }
  }

  lemma {:induction false} WriteTraced(prefix: string, s: State)
    requires InOrder(s) && Traced(s) && WritingTraced(prefix, s) && s.consumer.Writing?
    ensures Traced(ConsumerStep(prefix, s))
  {
    var ev, m, at := s.consumer.batch[s.consumer.i], s.consumer.m, s.consumer.at;
    var name, t := ObjectName(prefix, ev.Payload()), ConsumerStep(prefix, s);
    var i := |s.published|;
    assert t.published[..i] == s.published && t.writes[..at] == s.writes[..at];
    OldLoadsKept(s, t);
    assert Inherits(t, i);
    forall n
      ensures OwnEvent(t.published, LastWrite(t.writes, n), n) && Recorded(t.metas, n) == Left(t.published, LastWrite(t.writes, n))
    {
      LastWriteSnoc(s.writes, Pushed(name, i), n);
    }
  }

  lemma {:induction false} ConsumeTraced(prefix: string, s: State)
    requires InOrder(s) && Traced(s) && WritingTraced(prefix, s)
    ensures Traced(ConsumerStep(prefix, s)) && WritingTraced(prefix, ConsumerStep(prefix, s))
  {
    var t := ConsumerStep(prefix, s);
    if s.consumer.Writing? {
      WriteTraced(prefix, s);
    } else if s.consumer.Pushing? {
      SameWritesTraced(s, t);
      if t.consumer.Writing? {
        assert s.writes[..|s.writes|] == s.writes;
      }
    } else {
      BeforePush(prefix, s);
      SameWritesTraced(s, t);
    }
  }

  lemma {:induction false} SameWritesTraced(s: State, t: State)
    requires Traced(s) && t.writes == s.writes && t.metas == s.metas && t.published == s.published && t.loads == s.loads
    ensures Traced(t)
  {
    OldLoadsKept(s, t);
  }

  lemma {:induction false} TracedStep(prefix: string, s: State, step: Step)
    requires InOrder(s) && Traced(s) && WritingTraced(prefix, s) && Enabled(s, step)
    ensures Traced(Do(prefix, s, step)) && WritingTraced(prefix, Do(prefix, s, step))
  {
    var t := Do(prefix, s, step);
    match step
    case Receive(_) => SameWritesTraced(s, t);
    case Consume => ConsumeTraced(prefix, s);
    case StartRead(_, _, _) => SameWritesTraced(s, t);
    case ContinueRead(k) =>
      ReaderLeavesConsumer(prefix, s, k);
      var r := s.readers[k];
      if r.HasRevision? && r.o != NoObject {
        FellTraced(prefix, s, t, ObjectName(prefix, r.o), r.rev);
      } else {
        SameWritesTraced(s, t);
      }
  }

  lemma {:induction false} RunTraced(prefix: string, steps: seq<Step>)
    ensures Traced(Run(prefix, steps)) && WritingTraced(prefix, Run(prefix, steps))
  {
    if steps != [] {
      var front, step := steps[..|steps| - 1], steps[|steps| - 1];
      RunTraced(prefix, front);
      SafeUnderInterleaving(prefix, front);
      if Enabled(Run(prefix, front), step) {
        TracedStep(prefix, Run(prefix, front), step);
      }
    }
  }

  // ---------------------------------------------------------------- create above mod

  ghost predicate Exceeds(s: State, key: string, i: int) {
    0 <= i < |s.published| && s.published[i].kv.key == key && s.published[i].kv.createRevision > s.published[i].kv.modRevision
  }

  /** The metadata of event i of the key was loaded right after a fallback, as far as that key
      goes, that had read a revision above the event's own. */
  ghost predicate LoadedHighFallback(s: State, key: string, i: int) {
    && LoadsInRange(s) && 0 <= i < |s.published| && s.published[i].kv.key == key
    && LoadedAfter(s, i).Some? && LoadedAfter(s, i).value.Fell? && LoadedAfter(s, i).value.rev > s.published[i].kv.modRevision
  }

  lemma {:induction false} FirstExceeding(s: State, key: string, i: nat)
    requires Traced(s) && Increasing(s.published, s.revision) && Exceeds(s, key, i)
    ensures exists j :: LoadedHighFallback(s, key, j)
  {
    assert Inherits(s, i);
    var w := LoadedAfter(s, i);
    if w.value.Pushed? {
      FirstExceeding(s, key, w.value.event);
    } else {
      assert LoadedHighFallback(s, key, i);
    }
  }

  /** When a create revision exceeds a mod revision, over every interleaving and for every key:
      some event of the key is published so if and only if the metadata of some event of the key
      was loaded when the last write to the key was a fallback with a revision above the event's. */
  lemma {:induction false} CreateExceedsModIff(prefix: string, steps: seq<Step>, key: string)
    ensures var s := Run(prefix, steps);
      (exists i :: Exceeds(s, key, i)) <==> (exists i :: LoadedHighFallback(s, key, i))
  {
    var s := Run(prefix, steps);
    RunTraced(prefix, steps);
    RevisionSafety(prefix, steps, 0);
    if i :| Exceeds(s, key, i) {
      FirstExceeding(s, key, i);
    }
    if i :| LoadedHighFallback(s, key, i) {
      assert Inherits(s, i);
      assert Exceeds(s, key, i);
    }
  }

  // ---------------------------------------------------------------- agreement with the history

  predicate FellLast(w: Option<Write>) {
    w.Some? && w.value.Fell?
  }

  function HistoryLog(prefix: string, s: State): seq<WatchEvent> {
    if s.pushed <= |s.stamped| then Log(prefix, map[], Done(s)) else []
  }

  function HistoryMetas(prefix: string, s: State): map<string, Meta> {
    if s.pushed <= |s.stamped| then MetaAll(prefix, map[], Done(s)) else map[]
  }

  /** Every fallback that an event loaded had read the create revision of the history. */
  ghost predicate FallbacksAgree(prefix: string, s: State) {
    LoadsInRange(s) && |s.published| == |HistoryLog(prefix, s)| &&
    forall i :: 0 <= i < |s.published| && FellLast(LoadedAfter(s, i)) ==> AgreesAt(prefix, s, i)
  }

  ghost predicate AgreesAt(prefix: string, s: State, i: int)
    requires LoadsInRange(s) && |s.published| == |HistoryLog(prefix, s)| && 0 <= i < |s.published| && FellLast(LoadedAfter(s, i))
  {
    LoadedAfter(s, i).value.rev == HistoryLog(prefix, s)[i].kv.createRevision
  }

  /** As long as the published log is that of the history, so is whatever metadata the consumer
      wrote last. */
  ghost predicate ConsumersMetas(prefix: string, s: State) {
    s.published == HistoryLog(prefix, s) ==>
      forall n :: !FellLast(LastWrite(s.writes, n)) ==> Recorded(s.metas, n) == Recorded(HistoryMetas(prefix, s), n)
  }

  ghost predicate ConsumersLoad(prefix: string, s: State) {
    s.published == HistoryLog(prefix, s) && s.consumer.Writing? && s.consumer.i < |s.consumer.batch|
    && s.consumer.batch[s.consumer.i].Payload() != NoObject && s.consumer.at <= |s.writes| ==>
      var ev := s.consumer.batch[s.consumer.i];
      !FellLast(LastWrite(s.writes[..s.consumer.at], ObjectName(prefix, ev.Payload()))) ==>
        s.consumer.m == MetaFor(prefix, HistoryMetas(prefix, s), ev)
  }

  ghost predicate Exact(prefix: string, s: State) {
    && (s.published == HistoryLog(prefix, s) <==> FallbacksAgree(prefix, s))
    && ConsumersMetas(prefix, s) && ConsumersLoad(prefix, s)
  }

  /** Steps that neither publish nor write. */
  lemma {:induction false} ExactKept(prefix: string, s: State, t: State)
    requires Exact(prefix, s) && LoadsInRange(s)
    requires t.writes == s.writes && t.metas == s.metas && t.published == s.published && t.loads == s.loads
    requires HistoryLog(prefix, t) == HistoryLog(prefix, s) && HistoryMetas(prefix, t) == HistoryMetas(prefix, s)
    requires ConsumersLoad(prefix, t)
    ensures Exact(prefix, t)
  {
    OldLoadsKept(s, t);
    assert forall i :: 0 <= i < |s.published| ==> LoadedAfter(t, i) == LoadedAfter(s, i);
  }

  lemma {:induction false} FellExact(prefix: string, s: State, t: State, key: string, rev: int)
    requires Exact(prefix, s) && LoadsInRange(s) && SameConsumer(s, t)
    requires s.consumer.Writing? ==> s.consumer.at <= |s.writes|
    requires t.writes == s.writes + [Fell(key, rev)] && t.metas == s.metas[key := Meta(rev, rev)]
    ensures Exact(prefix, t)
  {
    OldLoadsKept(s, t);
    assert forall i :: 0 <= i < |s.published| ==> LoadedAfter(t, i) == LoadedAfter(s, i);
    forall n | !FellLast(LastWrite(t.writes, n))
      ensures LastWrite(t.writes, n) == LastWrite(s.writes, n) && Recorded(t.metas, n) == Recorded(s.metas, n)
    {
      LastWriteSnoc(s.writes, Fell(key, rev), n);
    }
    if t.consumer.Writing? {
      assert t.writes[..t.consumer.at] == s.writes[..t.consumer.at];
    }
  }

  /** A load: what the consumer computes is the history's metadata unless the last write to the
      key was a fallback. */
  lemma {:induction false} LoadExact(prefix: string, s: State)
    requires InOrder(s) && Exact(prefix, s) && LoadsInRange(s) && s.consumer.Pushing?
    requires s.consumer.i < |s.consumer.batch| && s.consumer.batch[s.consumer.i].Payload() != NoObject
    ensures Exact(prefix, ConsumerStep(prefix, s))
  {
    assert s.writes[..|s.writes|] == s.writes;
    SameRecordSameMeta(prefix, s.metas, HistoryMetas(prefix, s), s.consumer.batch[s.consumer.i]);
    ExactKept(prefix, s, ConsumerStep(prefix, s));
  }

  lemma {:induction false} SameRecordSameMeta(prefix: string, a: map<string, Meta>, b: map<string, Meta>, ev: Event)
    requires ev.Payload() != NoObject
    ensures var name := ObjectName(prefix, ev.Payload());
      Recorded(a, name) == Recorded(b, name) ==> MetaFor(prefix, a, ev) == MetaFor(prefix, b, ev)
  {
  }

  lemma {:induction false} SkipExact(prefix: string, s: State)
    requires InOrder(s) && Exact(prefix, s) && LoadsInRange(s) && s.consumer.Pushing?
    requires s.consumer.i < |s.consumer.batch| ==> s.consumer.batch[s.consumer.i].Payload() == NoObject
    ensures Exact(prefix, ConsumerStep(prefix, s))
  {
    if s.consumer.i < |s.consumer.batch| {
      DoneNext(prefix, s);
      assert HistoryLog(prefix, s) + [] == HistoryLog(prefix, s);
    }
    ExactKept(prefix, s, ConsumerStep(prefix, s));
  }

  /** A write: the event is published as in the history exactly when its create revision is. */
  lemma {:induction false} WritePublishes(prefix: string, s: State)
    requires InOrder(s) && Logged(prefix, s) && s.consumer.Writing?
    ensures var ev, t := s.consumer.batch[s.consumer.i], ConsumerStep(prefix, s);
      var due := Published(prefix, HistoryMetas(prefix, s), ev);
      && |s.published| == |HistoryLog(prefix, s)|
      && HistoryLog(prefix, t) == HistoryLog(prefix, s) + [due]
      && HistoryMetas(prefix, t) == MetaStep(prefix, HistoryMetas(prefix, s), ev)
      && (t.published == HistoryLog(prefix, t) <==>
           s.published == HistoryLog(prefix, s) && s.consumer.m.createRevision == due.kv.createRevision)
  {
    var ev, m := s.consumer.batch[s.consumer.i], s.consumer.m;
    DoneNext(prefix, s);
    var e := WatchEvent(ev.typ == Delete, Compose(ObjectName(prefix, ev.Payload()), m, ev.Payload()));
    var due := Published(prefix, HistoryMetas(prefix, s), ev);
    assert e == due <==> m.createRevision == due.kv.createRevision;
    SnocEqual(s.published, e, HistoryLog(prefix, s), due);
  }

  lemma {:induction false} WriteMetasExact(prefix: string, s: State)
    requires InOrder(s) && Logged(prefix, s) && Exact(prefix, s) && s.consumer.Writing?
    ensures ConsumersMetas(prefix, ConsumerStep(prefix, s))
  {
    var t := ConsumerStep(prefix, s);
    var name := ObjectName(prefix, s.consumer.batch[s.consumer.i].Payload());
    WritePublishes(prefix, s);
    if t.published == HistoryLog(prefix, t) {
      forall n | !FellLast(LastWrite(t.writes, n))
        ensures Recorded(t.metas, n) == Recorded(HistoryMetas(prefix, t), n)
      {
        LastWriteSnoc(s.writes, Pushed(name, |s.published|), n);
      }
    }
  }

  lemma {:induction false} WriteExact(prefix: string, s: State)
    requires InOrder(s) && Logged(prefix, s) && Exact(prefix, s) && Traced(s) && WritingTraced(prefix, s) && s.consumer.Writing?
    ensures Exact(prefix, ConsumerStep(prefix, s))
  {
    var t := ConsumerStep(prefix, s);
    WritePublishes(prefix, s);
    WriteTraced(prefix, s);
    WriteMetasExact(prefix, s);
    assert t.writes[..s.consumer.at] == s.writes[..s.consumer.at];
    AgreeNext(prefix, s, t);
  }

  lemma {:induction false} SnocEqual(a: seq<WatchEvent>, x: WatchEvent, b: seq<WatchEvent>, y: WatchEvent)
    ensures a + [x] == b + [y] <==> a == b && x == y
  {
    if a + [x] == b + [y] {
      assert a == (a + [x])[..|a|] && b == (b + [y])[..|b|];
      assert (a + [x])[|a|] == x && (b + [y])[|b|] == y;
    }
  }

  lemma {:induction false} AgreeNext(prefix: string, s: State, t: State)
    requires LoadsInRange(s) && LoadsInRange(t) && s.writes <= t.writes && s.published <= t.published && s.loads <= t.loads
    requires |t.published| == |s.published| + 1 && |s.published| == |HistoryLog(prefix, s)|
    requires |HistoryLog(prefix, t)| == |HistoryLog(prefix, s)| + 1 && HistoryLog(prefix, s) <= HistoryLog(prefix, t)
    ensures FallbacksAgree(prefix, t) <==>
      FallbacksAgree(prefix, s) && (FellLast(LoadedAfter(t, |s.published|)) ==> AgreesAt(prefix, t, |s.published|))
  {
    OldLoadsKept(s, t);
    forall i | 0 <= i < |s.published|
      ensures LoadedAfter(t, i) == LoadedAfter(s, i) && HistoryLog(prefix, t)[i] == HistoryLog(prefix, s)[i]
    {
    }
    if FallbacksAgree(prefix, t) {
      forall i | 0 <= i < |s.published| && FellLast(LoadedAfter(s, i))
        ensures AgreesAt(prefix, s, i)
      {
        assert FellLast(LoadedAfter(t, i)) && AgreesAt(prefix, t, i);
      }
    }
    if FallbacksAgree(prefix, s) {
      forall i | 0 <= i < |s.published| && FellLast(LoadedAfter(t, i))
        ensures AgreesAt(prefix, t, i)
      {
        assert AgreesAt(prefix, s, i);
      }
    }
  }

  lemma {:induction false} ConsumeExact(prefix: string, s: State)
    requires InOrder(s) && Logged(prefix, s) && Exact(prefix, s) && Traced(s) && WritingTraced(prefix, s)
    ensures Exact(prefix, ConsumerStep(prefix, s))
  {
    if s.consumer.Writing? {
      WriteExact(prefix, s);
    } else if s.consumer.Pushing? && s.consumer.i < |s.consumer.batch| && s.consumer.batch[s.consumer.i].Payload() != NoObject {
      LoadExact(prefix, s);
    } else if s.consumer.Pushing? {
      SkipExact(prefix, s);
    } else {
      BeforePush(prefix, s);
      ExactKept(prefix, s, ConsumerStep(prefix, s));
    }
  }

  /** The phases before pushing leave metadata, log and what is done alone. */
  lemma {:induction false} BeforePush(prefix: string, s: State)
    requires InOrder(s) && !s.consumer.Pushing? && !s.consumer.Writing?
    ensures var t := ConsumerStep(prefix, s);
      && t.writes == s.writes && t.metas == s.metas && t.published == s.published && t.loads == s.loads
      && !t.consumer.Writing?
      && HistoryLog(prefix, t) == HistoryLog(prefix, s) && HistoryMetas(prefix, t) == HistoryMetas(prefix, s)
  {
    if s.consumer.Swapping? {
      assert Done(ConsumerStep(prefix, s)) == Done(s);
    }
  }

  lemma {:induction false} ExactStep(prefix: string, s: State, step: Step)
    requires InOrder(s) && Logged(prefix, s) && Exact(prefix, s) && Traced(s) && WritingTraced(prefix, s) && Enabled(s, step)
    ensures Exact(prefix, Do(prefix, s, step))
  {
    var t := Do(prefix, s, step);
    match step
    case Receive(_) => ExactKept(prefix, s, t);
    case Consume => ConsumeExact(prefix, s);
    case StartRead(_, _, _) => ExactKept(prefix, s, t);
    case ContinueRead(k) =>
      ReaderLeavesConsumer(prefix, s, k);
      var r := s.readers[k];
      if r.HasRevision? && r.o != NoObject {
        FellExact(prefix, s, t, ObjectName(prefix, r.o), r.rev);
      } else {
        ExactKept(prefix, s, t);
      }
  }

  lemma {:induction false} RunExact(prefix: string, steps: seq<Step>)
    ensures Exact(prefix, Run(prefix, steps))
  {
    if steps != [] {
      var front, step := steps[..|steps| - 1], steps[|steps| - 1];
      RunExact(prefix, front);
      RunTraced(prefix, front);
      SafeUnderInterleaving(prefix, front);
      if Enabled(Run(prefix, front), step) {
        ExactStep(prefix, Run(prefix, front), step);
      }
    }
  }

  /** What is published is the log of the history, create revisions included, if and only if every
      fallback that an event loaded had read the create revision that the history gives the event;
      in particular if no event ever loaded one. */
  lemma {:induction false} PublishedIsHistoryIff(prefix: string, steps: seq<Step>)
    ensures var s := Run(prefix, steps);
      s.published == HistoryLog(prefix, s) <==> FallbacksAgree(prefix, s)
  {
    RunExact(prefix, steps);
  }

  /** Once the consumer is idle and the log agrees, the recorded metadata is that of the history if
      and only if every fallback that is still the last write to its key stands where the history
      has the very same metadata. */
  lemma {:induction false} RecordedIsHistoryIff(prefix: string, steps: seq<Step>)
    requires Run(prefix, steps).consumer == Idle && FallbacksAgree(prefix, Run(prefix, steps))
    ensures var s := Run(prefix, steps);
      var h := Stamp(s.received, 0);
      && Replay(map[], s.published) == KeySpace(prefix, h)
      && (s.metas == MetaAll(prefix, map[], h) <==>
           forall n :: FellLast(LastWrite(s.writes, n)) ==>
             var rev := LastWrite(s.writes, n).value.rev;
             Recorded(MetaAll(prefix, map[], h), n) == Some(Meta(rev, rev)))
  {
    RunExact(prefix, steps);
    RunTraced(prefix, steps);
    SafeUnderInterleaving(prefix, steps);
    var s := Run(prefix, steps);
    var h := Stamp(s.received, 0);
    assert s.stamped == h && Done(s) == h;
    var m := MetaAll(prefix, map[], h);
    forall n
      ensures Recorded(s.metas, n) == Left(s.published, LastWrite(s.writes, n))
      ensures !FellLast(LastWrite(s.writes, n)) ==> Recorded(s.metas, n) == Recorded(m, n)
    {
    }
    SameRecords(s.metas, m);
  }

  lemma {:induction false} SameRecords(a: map<string, Meta>, b: map<string, Meta>)
    ensures a == b <==> forall n :: Recorded(a, n) == Recorded(b, n)
  {
    if forall n :: Recorded(a, n) == Recorded(b, n) {
      forall n
        ensures n in a <==> n in b
      {
        assert Recorded(a, n) == Recorded(b, n);
      }
      forall n | n in a
        ensures a[n] == b[n]
      {
        assert Recorded(a, n) == Recorded(b, n);
      }
    }
  }

  // ---------------------------------------------------------------- what readers return

  ghost predicate FoundAt(prefix: string, steps: seq<Step>, k: int, o: Object) {
    0 <= k <= |steps| && Cached(Run(prefix, steps[..k]).cache, o)
  }

  ghost predicate RecordedAt(prefix: string, steps: seq<Step>, k: int, name: string, m: Meta) {
    0 <= k <= |steps| && Recorded(Run(prefix, steps[..k]).metas, name) == Some(m)
  }

  ghost predicate Found(prefix: string, steps: seq<Step>, o: Object) {
    o != NoObject && exists k :: FoundAt(prefix, steps, k, o)
  }

  /** The key-value is of an object that was cached at some moment, under its key, with metadata that
      was recorded for that key at some moment. */
  ghost predicate Explained(prefix: string, steps: seq<Step>, kv: KeyValue) {
    && kv.value.Json? && Found(prefix, steps, kv.value.o) && kv.key == ObjectName(prefix, kv.value.o)
    && exists k :: RecordedAt(prefix, steps, k, kv.key, Meta(kv.createRevision, kv.modRevision))
  }

  lemma {:induction false} FoundStays(prefix: string, steps: seq<Step>, step: Step, o: Object)
    requires Found(prefix, steps, o)
    ensures Found(prefix, steps + [step], o)
  {
    var k :| FoundAt(prefix, steps, k, o);
    assert (steps + [step])[..k] == steps[..k];
    assert FoundAt(prefix, steps + [step], k, o);
  }

  lemma {:induction false} ExplainedStays(prefix: string, steps: seq<Step>, step: Step, kv: KeyValue)
    requires Explained(prefix, steps, kv)
    ensures Explained(prefix, steps + [step], kv)
  {
    FoundStays(prefix, steps, step, kv.value.o);
    var m := Meta(kv.createRevision, kv.modRevision);
    var k :| RecordedAt(prefix, steps, k, kv.key, m);
    assert (steps + [step])[..k] == steps[..k];
    assert RecordedAt(prefix, steps + [step], k, kv.key, m);
  }

  lemma {:induction false} NewlyReturned(prefix: string, steps: seq<Step>, k: int)
    requires k in Run(prefix, steps).readers && Found(prefix, steps, Run(prefix, steps).readers[k].o)
    ensures var s, t := Run(prefix, steps), ReaderStep(prefix, Run(prefix, steps), k);
      t.returned == s.returned ||
      (t.returned[..|t.returned| - 1] == s.returned && Explained(prefix, steps + [ContinueRead(k)], t.returned[|t.returned| - 1]))
  {
    var s, t, step := Run(prefix, steps), ReaderStep(prefix, Run(prefix, steps), k), ContinueRead(k);
    var o := s.readers[k].o;
    if t.returned != s.returned {
      var kv := t.returned[|t.returned| - 1];
      FoundStays(prefix, steps, step, o);
      AfterStep(prefix, steps, step, s);
      var m := Meta(kv.createRevision, kv.modRevision);
      if s.readers[k].Looking? {
        assert (steps + [step])[..|steps|] == steps;
        assert RecordedAt(prefix, steps + [step], |steps|, kv.key, m);
      } else {
        assert (steps + [step])[..|steps| + 1] == steps + [step];
        assert RecordedAt(prefix, steps + [step], |steps| + 1, kv.key, m);
      }
    }
  }

  ghost predicate AllExplained(prefix: string, steps: seq<Step>, s: State) {
    && (forall kv :: kv in s.returned ==> Explained(prefix, steps, kv))
    && (forall k :: k in s.readers ==> Found(prefix, steps, s.readers[k].o))
  }

  /** What was explained or found stays so. */
  lemma {:induction false} KeptExplained(prefix: string, front: seq<Step>, step: Step, s: State, t: State)
    requires AllExplained(prefix, front, s) && t.returned == s.returned && t.readers == s.readers
    ensures AllExplained(prefix, front + [step], t)
  {
    forall kv | kv in s.returned
      ensures Explained(prefix, front + [step], kv)
    {
      ExplainedStays(prefix, front, step, kv);
    }
    forall k | k in s.readers
      ensures Found(prefix, front + [step], s.readers[k].o)
    {
      FoundStays(prefix, front, step, s.readers[k].o);
    }
  }

  lemma {:induction false} ReadExplained(prefix: string, front: seq<Step>, k: int)
    requires AllExplained(prefix, front, Run(prefix, front)) && k in Run(prefix, front).readers
    ensures AllExplained(prefix, front + [ContinueRead(k)], ReaderStep(prefix, Run(prefix, front), k))
  {
    var s, t, step := Run(prefix, front), ReaderStep(prefix, Run(prefix, front), k), ContinueRead(k);
    KeptExplained(prefix, front, step, s, s);
    NewlyReturned(prefix, front, k);
    assert forall j :: j in t.readers ==> j in s.readers && t.readers[j].o == s.readers[j].o;
    if t.returned != s.returned {
      assert t.returned == t.returned[..|t.returned| - 1] + [t.returned[|t.returned| - 1]];
      assert forall kv :: kv in t.returned ==> kv in s.returned || kv == t.returned[|t.returned| - 1];
    }
  }

  lemma {:induction false} StartExplained(prefix: string, front: seq<Step>, k: int, o: Object, fallback: bool)
    requires AllExplained(prefix, front, Run(prefix, front)) && Cached(Run(prefix, front).cache, o)
    ensures var s, step := Run(prefix, front), StartRead(k, o, fallback);
      AllExplained(prefix, front + [step], s.(readers := s.readers[k := Looking(o, fallback)]))
  {
    var s, step := Run(prefix, front), StartRead(k, o, fallback);
    KeptExplained(prefix, front, step, s, s);
    assert (front + [step])[..|front|] == front;
    assert FoundAt(prefix, front + [step], |front|, o);
  }

  lemma {:induction false} ConsumerReturnsNothing(prefix: string, s: State)
    ensures ConsumerStep(prefix, s).returned == s.returned && ConsumerStep(prefix, s).readers == s.readers
  {
  }

  lemma {:induction false} RunExplained(prefix: string, steps: seq<Step>)
    ensures AllExplained(prefix, steps, Run(prefix, steps))
  {
    if steps != [] {
      var front, step := steps[..|steps| - 1], steps[|steps| - 1];
      RunExplained(prefix, front);
      assert steps == front + [step];
      var s := Run(prefix, front);
      if !Enabled(s, step) {
        KeptExplained(prefix, front, step, s, s);
      } else {
        match step
        case Receive(_) => KeptExplained(prefix, front, step, s, Do(prefix, s, step));
        case Consume =>
          ConsumerReturnsNothing(prefix, s);
          KeptExplained(prefix, front, step, s, ConsumerStep(prefix, s));
        case StartRead(k, o, fallback) => StartExplained(prefix, front, k, o, fallback);
        case ContinueRead(k) => ReadExplained(prefix, front, k);
      }
    }
  }

  /** Over every interleaving, whatever a reader returns is explained: an object that was cached,
      under its key, with metadata that was recorded for that key. */
  lemma {:induction false} ReturnedExplained(prefix: string, steps: seq<Step>, kv: KeyValue)
    requires kv in Run(prefix, steps).returned
    ensures Explained(prefix, steps, kv)
  {
    RunExplained(prefix, steps);
  }
}
