/** A watch that starts while events are being pushed, with its registration, its listing and its
    reads of the metadata interleaved with the single accesses of the consumer and of readers:
    pkg/etcdv3/watch.go and pkg/etcdv3/etcd.go. */
module WatchStart {
  import opened Objects
  import opened EtcdModel
  import opened History
  import opened Interleaving
  import opened Fallbacks

  datatype Phase = Registered | Reading(todo: set<Object>) | Answered

  /** One stream: open only, or watching a directory with a start revision. since, seen and readAt
      record what the watch depends on: the first published event due to it, how many events the
      cache held when it was listed, and how many writes to the metadata preceded each read. */
  datatype Watch =
    | Opened
    | Watching(res: Resource, start: int, phase: Phase, queue: seq<WatchEvent>, got: map<string, KeyValue>,
               since: nat, seen: nat, readAt: map<string, nat>)

  /** fanned is how many published events went out to all streams; visited are the streams that
      got the one after them. */
  datatype System = System(core: State, streams: map<int, Watch>, fanned: nat, visited: set<int>)

  const BEGIN := System(START, map[], 0, {})

  datatype Move =
    | Core(step: Step)
    | Open(k: int)
    | Register(k: int, res: Resource, start: int)
    | List(k: int)
    | ReadOne(k: int, o: Object)
    | Answer(k: int)
    | Fan(k: int)
    | FanDone

  predicate FanningOut(y: System) {
    y.fanned < |y.core.published|
  }

  /** How many published events the stream got or did without. */
  function Due(y: System, k: int): nat {
    if FanningOut(y) && k in y.visited then y.fanned + 1 else y.fanned
  }

  /** pushEvent holds the watchers' lock while it fans out, so that no stream opens meanwhile; a
      stream may register then, before or after its turn. */
  predicate Allowed(y: System, move: Move) {
    match move
    case Core(step) => Enabled(y.core, step) && (step == Consume ==> !FanningOut(y))
    case Open(k) => k !in y.streams && !FanningOut(y)
    case Register(k, _, _) => k in y.streams && y.streams[k] == Opened
    case List(k) => k in y.streams && y.streams[k].Watching? && y.streams[k].phase == Registered
    case ReadOne(k, o) =>
      k in y.streams && y.streams[k].Watching? && y.streams[k].phase.Reading? && o in y.streams[k].phase.todo && o != NoObject
    case Answer(k) => k in y.streams && y.streams[k].Watching? && y.streams[k].phase == Reading({})
    case Fan(k) => FanningOut(y) && k in y.streams && k !in y.visited
    case FanDone => FanningOut(y) && y.visited == y.streams.Keys
  }

  function InCache(s: Store, res: Resource): set<Object> {
    set id | id in ObjectsOf(s, res) :: ObjectsOf(s, res)[id]
  }

  /** How many received events the cache holds. */
  function Applied(s: State): nat {
    if s.consumer.Loading? || s.consumer.Swapping? then |s.stamped| + 1 else |s.stamped|
  }

  /** The reply to a read: the object with the recorded metadata, if that is recent enough. */
  function Reply(metas: map<string, Meta>, start: int, name: string, o: Object): Option<KeyValue> {
    if name in metas && metas[name].modRevision >= start then Some(Compose(name, metas[name], o)) else None
  }

  predicate IsFor(e: WatchEvent, res: Resource) {
    e.kv.value.Json? && IsResource(e.kv.value.o, res)
  }

  function Make(prefix: string, y: System, move: Move): System
    requires Allowed(y, move)
  {
    match move
    case Core(step) => y.(core := Do(prefix, y.core, step))
    case Open(k) => y.(streams := y.streams[k := Opened])
    case Register(k, res, start) =>
      y.(streams := y.streams[k := Watching(res, start, Registered, [], map[], Due(y, k), 0, map[])])
    case List(k) =>
      var w := y.streams[k];
      y.(streams := y.streams[k := w.(phase := Reading(InCache(y.core.cache, w.res)), seen := Applied(y.core))])
    case ReadOne(k, o) =>
      var w, name := y.streams[k], ObjectName(prefix, o);
      var reply := Reply(y.core.metas, w.start, name, o);
      y.(streams := y.streams[k := w.(phase := Reading(w.phase.todo - {o}),
                                      got := if reply.Some? then w.got[name := reply.value] else w.got,
                                      readAt := w.readAt[name := |y.core.writes|])])
    case Answer(k) => y.(streams := y.streams[k := y.streams[k].(phase := Answered)])
    case Fan(k) =>
      var w, e := y.streams[k], y.core.published[y.fanned];
      y.(visited := y.visited + {k},
         streams := if w.Watching? && IsFor(e, w.res) then y.streams[k := w.(queue := w.queue + [e])] else y.streams)
    case FanDone => y.(fanned := y.fanned + 1, visited := {})
  }

  /** A run; a move that is not allowed does nothing. */
  function After(prefix: string, moves: seq<Move>): System {
    if moves == [] then BEGIN
    else
      var y, move := After(prefix, moves[..|moves| - 1]), moves[|moves| - 1];
      if Allowed(y, move) then Make(prefix, y, move) else y
  }

  // ---------------------------------------------------------------- the consumer's writes

  /** The consumer writes each published event once, in order. */
  ghost predicate WritesInOrder(s: State) {
    && (forall a :: 0 <= a < |s.writes| && s.writes[a].Pushed? ==> s.writes[a].event < |s.published|)
    && (forall a, b :: 0 <= a < b < |s.writes| && s.writes[a].Pushed? && s.writes[b].Pushed? ==> s.writes[a].event < s.writes[b].event)
    && (forall p :: 0 <= p < |s.published| ==> WrittenBefore(s, p, |s.writes|))
  }

  ghost predicate WrittenBefore(s: State, p: int, n: int) {
    0 <= p < |s.published| && exists a :: 0 <= a < n && a < |s.writes| && s.writes[a] == Pushed(s.published[p].kv.key, p)
  }

  ghost predicate CoreOk(prefix: string, s: State) {
    InOrder(s) && Logged(prefix, s) && Traced(s) && WritingTraced(prefix, s) && WritesInOrder(s)
  }

  lemma {:induction false} WrittenStays(s: State, t: State, p: int, n: int)
    requires WrittenBefore(s, p, n) && s.published <= t.published && s.writes <= t.writes
    ensures WrittenBefore(t, p, n)
  {
    var a :| 0 <= a < n && a < |s.writes| && s.writes[a] == Pushed(s.published[p].kv.key, p);
    assert t.writes[a] == s.writes[a];
  }

  lemma {:induction false} WritesGrow(prefix: string, s: State, step: Step)
    requires InOrder(s) && Enabled(s, step)
    ensures var t := Do(prefix, s, step);
      && s.published <= t.published && s.writes <= t.writes && s.stamped <= t.stamped && s.received <= t.received
      && (t.published == s.published || (step == Consume && s.consumer.Writing?))
  {
    if step.ContinueRead? {
      ReaderLeavesConsumer(prefix, s, step.reader);
    }
  }

  lemma {:induction false} WritesInOrderStep(prefix: string, s: State, step: Step)
    requires InOrder(s) && Enabled(s, step) && WritesInOrder(s)
    ensures WritesInOrder(Do(prefix, s, step))
  {
    var t := Do(prefix, s, step);
    WritesGrow(prefix, s, step);
    forall p | 0 <= p < |s.published|
      ensures WrittenBefore(t, p, |t.writes|)
    {
      assert WrittenBefore(s, p, |s.writes|);
      WrittenStays(s, t, p, |s.writes|);
    }
    if step == Consume && s.consumer.Writing? {
      assert t.writes == s.writes + [Pushed(t.published[|s.published|].kv.key, |s.published|)];
      assert t.writes[|s.writes|] == Pushed(t.published[|s.published|].kv.key, |s.published|);
      assert WrittenBefore(t, |s.published|, |t.writes|);
    }
  }

  lemma {:induction false} CoreStep(prefix: string, s: State, step: Step)
    requires CoreOk(prefix, s) && Enabled(s, step)
    ensures CoreOk(prefix, Do(prefix, s, step))
  {
    InOrderStep(prefix, s, step);
    LoggedStep(prefix, s, step);
    TracedStep(prefix, s, step);
    WritesInOrderStep(prefix, s, step);
  }

  // ---------------------------------------------------------------- what a watch gets

  function Sent(log: seq<WatchEvent>, res: Resource): seq<WatchEvent> {
    if log == [] then []
    else Sent(log[..|log| - 1], res) + if IsFor(log[|log| - 1], res) then [log[|log| - 1]] else []
  }

  ghost predicate CountsOk(y: System) {
    && y.fanned <= |y.core.published| <= y.fanned + 1
    && (!FanningOut(y) ==> y.visited == {})
  }

  /** The queue is what was published for the directory since the registration. */
  ghost predicate QueueOk(y: System, k: int)
    requires k in y.streams
  {
    var w := y.streams[k];
    w.Watching? ==> w.since <= Due(y, k) <= |y.core.published| && w.queue == Sent(y.core.published[w.since..Due(y, k)], w.res)
  }

  function SeenStore(s: State, w: Watch): Store
    requires w.Watching? && w.seen <= |s.received|
  {
    ApplyAll(EMPTY_STORE, s.received[..w.seen])
  }

  /** A read saw what the last write to the key before it had left, and came after the writes of
      all events published before the registration. */
  ghost predicate ReadOk(s: State, w: Watch, name: string, o: Object)
    requires w.Watching?
  {
    && name in w.readAt && w.readAt[name] <= |s.writes|
    && (forall p :: 0 <= p < w.since ==> WrittenBefore(s, p, w.readAt[name]))
    && OwnEvent(s.published, LastWrite(s.writes[..w.readAt[name]], name), name)
    && Replied(w, name, o, Left(s.published, LastWrite(s.writes[..w.readAt[name]], name)))
  }

  ghost predicate Replied(w: Watch, name: string, o: Object, m: Option<Meta>)
    requires w.Watching?
  {
    if m.Some? && m.value.modRevision >= w.start then name in w.got && w.got[name] == Compose(name, m.value, o)
    else name !in w.got
  }

  ghost predicate ObjectOk(prefix: string, s: State, w: Watch, o: Object)
    requires w.Watching?
  {
    && o != NoObject
    && if w.phase.Reading? && o in w.phase.todo then ObjectName(prefix, o) !in w.got else ReadOk(s, w, ObjectName(prefix, o), o)
  }

  /** Every object of the cache as it was listed is still to be read or was read. */
  ghost predicate ListedOk(prefix: string, s: State, w: Watch) {
    w.Watching? && w.phase != Registered ==>
      && w.seen <= |s.received|
      && w.since <= |s.published|
      && (forall p :: 0 <= p < w.since ==> s.published[p].kv.modRevision < w.seen)
      && (forall o :: o in InCache(SeenStore(s, w), w.res) ==> ObjectOk(prefix, s, w, o))
      && (w.phase.Reading? ==> w.phase.todo <= InCache(SeenStore(s, w), w.res))
  }

  ghost predicate WatchesOk(prefix: string, y: System) {
    CountsOk(y) && forall k :: k in y.streams ==> QueueOk(y, k) && ListedOk(prefix, y.core, y.streams[k]) && Fresh(y.streams[k])
  }

  /** Before the listing nothing is read. */
  ghost predicate Fresh(w: Watch) {
    w.Watching? && w.phase == Registered ==> w.got == map[]
  }

  /** Core steps leave what was read as it was. */
  lemma {:induction false} ReadStays(s: State, t: State, w: Watch, name: string, o: Object)
    requires w.Watching? && ReadOk(s, w, name, o) && s.published <= t.published && s.writes <= t.writes
    ensures ReadOk(t, w, name, o)
  {
    var r := w.readAt[name];
    assert t.writes[..r] == s.writes[..r];
    forall p | 0 <= p < w.since
      ensures WrittenBefore(t, p, r)
    {
      WrittenStays(s, t, p, r);
    }
  }

  lemma {:induction false} ListedStays(prefix: string, s: State, t: State, w: Watch)
    requires ListedOk(prefix, s, w) && s.published <= t.published && s.writes <= t.writes && s.received <= t.received
    ensures ListedOk(prefix, t, w)
  {
    if w.Watching? && w.phase != Registered {
      assert t.received[..w.seen] == s.received[..w.seen];
      forall o | o in InCache(SeenStore(t, w), w.res)
        ensures ObjectOk(prefix, t, w, o)
      {
        assert ObjectOk(prefix, s, w, o);
        if !(w.phase.Reading? && o in w.phase.todo) {
          ReadStays(s, t, w, ObjectName(prefix, o), o);
        }
      }
    }
  }

  lemma {:induction false} CoreKeepsWatches(prefix: string, y: System, step: Step)
    requires CoreOk(prefix, y.core) && WatchesOk(prefix, y) && Allowed(y, Core(step))
    ensures WatchesOk(prefix, Make(prefix, y, Core(step)))
  {
    var z := Make(prefix, y, Core(step));
    WritesGrow(prefix, y.core, step);
    assert |z.core.published| <= |y.core.published| + 1;
    forall k | k in z.streams
      ensures QueueOk(z, k) && ListedOk(prefix, z.core, z.streams[k]) && Fresh(z.streams[k])
    {
      assert QueueOk(y, k) && Fresh(y.streams[k]) && Due(z, k) == Due(y, k);
      var w := y.streams[k];
      if w.Watching? {
        assert z.core.published[w.since..Due(z, k)] == y.core.published[w.since..Due(y, k)];
      }
      ListedStays(prefix, y.core, z.core, w);
    }
  }

  /** Published events are older than what the cache holds. */
  lemma {:induction false} PublishedIsApplied(prefix: string, s: State, p: nat)
    requires InOrder(s) && Logged(prefix, s) && p < |s.published|
    ensures s.published[p].kv.modRevision < |s.stamped| <= Applied(s) <= |s.received|
  {
    assert Stamped(Done(s));
    LogIncreases(prefix, Done(s));
    var log := Log(prefix, map[], Done(s));
    assert SameButCreate(s.published[p], log[p]);
    assert s.published[p].kv.(createRevision := 0).modRevision == log[p].kv.(createRevision := 0).modRevision;
  }

  lemma {:induction false} CacheIsApplied(s: State)
    requires InOrder(s)
    ensures Applied(s) <= |s.received| && s.cache == ApplyAll(EMPTY_STORE, s.received[..Applied(s)])
  {
    var n := |s.stamped|;
    assert s.stamped == Stamp(s.received[..n], 0);
    StampApplies(EMPTY_STORE, s.received[..n], 0);
    if s.consumer.Loading? || s.consumer.Swapping? {
      assert s.consumer.batch[s.consumer.i] == s.consumer.batch[s.consumer.i..][0] == s.received[n];
      assert s.received[..n + 1][..n] == s.received[..n];
    }
  }

  lemma {:induction false} ListOk(prefix: string, y: System, k: int)
    requires CoreOk(prefix, y.core) && WatchesOk(prefix, y) && Allowed(y, List(k))
    ensures WatchesOk(prefix, Make(prefix, y, List(k)))
  {
    var z := Make(prefix, y, List(k));
    assert QueueOk(y, k) && Fresh(y.streams[k]);
    ListedNow(prefix, y.core, z.streams[k]);
    OnlyOneStream(prefix, y, k, z.streams[k]);
  }

  lemma {:induction false} ListedNow(prefix: string, s: State, w: Watch)
    requires CoreOk(prefix, s) && w.Watching? && w.got == map[] && w.since <= |s.published|
    requires w.phase == Reading(InCache(s.cache, w.res)) && w.seen == Applied(s)
    ensures ListedOk(prefix, s, w)
  {
    CacheIsApplied(s);
    forall p | 0 <= p < w.since
      ensures s.published[p].kv.modRevision < w.seen
    {
      PublishedIsApplied(prefix, s, p);
    }
  }

  /** A move of one watch leaves the others as they were. */
  lemma {:induction false} OnlyOneStream(prefix: string, y: System, k: int, w: Watch)
    requires WatchesOk(prefix, y)
    requires QueueOk(y.(streams := y.streams[k := w]), k) && ListedOk(prefix, y.core, w) && Fresh(w)
    ensures WatchesOk(prefix, y.(streams := y.streams[k := w]))
  {
    var z := y.(streams := y.streams[k := w]);
    forall j | j in z.streams
      ensures QueueOk(z, j) && ListedOk(prefix, z.core, z.streams[j]) && Fresh(z.streams[j])
    {
      if j != k {
        assert QueueOk(y, j) && ListedOk(prefix, y.core, y.streams[j]) && Fresh(y.streams[j]);
      }
    }
  }

  /** Objects of one directory with the same key are the same. */
  lemma {:induction false} OneObjectPerKey(prefix: string, s: Store, res: Resource, a: Object, b: Object)
    requires a in InCache(s, res) && b in InCache(s, res) && IdsMatch(s, res)
    requires a != NoObject && b != NoObject && ObjectName(prefix, a) == ObjectName(prefix, b)
    ensures a == b
  {
    NameInjective(prefix, ResourceOf(a), ObjectId(a), ResourceOf(b), ObjectId(b));
  }

  /** Objects are stored under their own ids. */
  ghost predicate IdsMatch(s: Store, res: Resource) {
    forall id :: id in ObjectsOf(s, res) ==> ObjectId(ObjectsOf(s, res)[id]) == id
  }

  lemma {:induction false} IdsAlwaysMatch(evs: seq<Event>, res: Resource)
    ensures IdsMatch(ApplyAll(EMPTY_STORE, evs), res)
  {
    if evs != [] {
      var s, ev := ApplyAll(EMPTY_STORE, evs[..|evs| - 1]), evs[|evs| - 1];
      IdsAlwaysMatch(evs[..|evs| - 1], res);
      var t := Apply(s, ev);
      forall id | id in ObjectsOf(t, res)
        ensures ObjectId(ObjectsOf(t, res)[id]) == id
      {
        assert id in ObjectsOf(s, res) && ObjectsOf(t, res)[id] == ObjectsOf(s, res)[id] ==> ObjectId(ObjectsOf(s, res)[id]) == id;
      }
    }
  }

  lemma {:induction false} ReadOneOk(prefix: string, y: System, k: int, o: Object)
    requires CoreOk(prefix, y.core) && WatchesOk(prefix, y) && Allowed(y, ReadOne(k, o))
    ensures WatchesOk(prefix, Make(prefix, y, ReadOne(k, o)))
  {
    var z := Make(prefix, y, ReadOne(k, o));
    var s, v, w := y.core, y.streams[k], z.streams[k];
    assert QueueOk(y, k) && ListedOk(prefix, s, v);
    ReadListed(prefix, s, v, w, o);
    OnlyOneStream(prefix, y, k, z.streams[k]);
  }

  /** w is v after the read of o. */
  ghost predicate ReadsOne(prefix: string, s: State, v: Watch, w: Watch, o: Object)
    requires v.Watching? && o != NoObject
  {
    var name, reply := ObjectName(prefix, o), Reply(s.metas, v.start, ObjectName(prefix, o), o);
    && v.phase.Reading? && o in v.phase.todo
    && w == v.(phase := Reading(v.phase.todo - {o}),
               got := if reply.Some? then v.got[name := reply.value] else v.got,
               readAt := v.readAt[name := |s.writes|])
  }

  lemma {:induction false} ReadListed(prefix: string, s: State, v: Watch, w: Watch, o: Object)
    requires CoreOk(prefix, s) && v.Watching? && o != NoObject && ListedOk(prefix, s, v) && ReadsOne(prefix, s, v, w, o)
    ensures ListedOk(prefix, s, w)
  {
    assert ObjectOk(prefix, s, v, o);
    IdsAlwaysMatch(s.received[..w.seen], w.res);
    forall x | x in InCache(SeenStore(s, w), w.res)
      ensures ObjectOk(prefix, s, w, x)
    {
      assert ObjectOk(prefix, s, v, x);
      if x == o {
        ReadNow(prefix, s, v, w, o);
      } else if ObjectName(prefix, x) == ObjectName(prefix, o) {
        OneObjectPerKey(prefix, SeenStore(s, w), w.res, x, o);
      }
    }
  }

  lemma {:induction false} ReadNow(prefix: string, s: State, v: Watch, w: Watch, o: Object)
    requires CoreOk(prefix, s) && v.Watching? && o != NoObject && v.since <= |s.published|
    requires ReadsOne(prefix, s, v, w, o) && ObjectName(prefix, o) !in v.got
    ensures ReadOk(s, w, ObjectName(prefix, o), o)
  {
    var name := ObjectName(prefix, o);
    assert s.writes[..|s.writes|] == s.writes;
    assert Recorded(s.metas, name) == Left(s.published, LastWrite(s.writes, name));
  }

  lemma {:induction false} RegisterOk(prefix: string, y: System, k: int, res: Resource, start: int)
    requires CoreOk(prefix, y.core) && WatchesOk(prefix, y) && Allowed(y, Register(k, res, start))
    ensures WatchesOk(prefix, Make(prefix, y, Register(k, res, start)))
  {
    var z := Make(prefix, y, Register(k, res, start));
    assert z.core.published[Due(z, k)..Due(z, k)] == [];
    OnlyOneStream(prefix, y, k, z.streams[k]);
  }

  lemma {:induction false} AnswerOk(prefix: string, y: System, k: int)
    requires CoreOk(prefix, y.core) && WatchesOk(prefix, y) && Allowed(y, Answer(k))
    ensures WatchesOk(prefix, Make(prefix, y, Answer(k)))
  {
    var z := Make(prefix, y, Answer(k));
    assert QueueOk(y, k) && ListedOk(prefix, y.core, y.streams[k]);
    AnsweredListed(prefix, y.core, y.streams[k]);
    OnlyOneStream(prefix, y, k, z.streams[k]);
  }

  lemma {:induction false} AnsweredListed(prefix: string, s: State, v: Watch)
    requires v.Watching? && v.phase == Reading({}) && ListedOk(prefix, s, v)
    ensures ListedOk(prefix, s, v.(phase := Answered))
  {
    var w := v.(phase := Answered);
    forall o | o in InCache(SeenStore(s, w), w.res)
      ensures ObjectOk(prefix, s, w, o)
    {
      assert ObjectOk(prefix, s, v, o);
    }
  }

  lemma {:induction false} SentNext(log: seq<WatchEvent>, a: nat, b: nat, res: Resource)
    requires a <= b < |log|
    ensures Sent(log[a..b + 1], res) == Sent(log[a..b], res) + if IsFor(log[b], res) then [log[b]] else []
  {
    assert log[a..b + 1][..b - a] == log[a..b];
  }

  lemma {:induction false} FanOk(prefix: string, y: System, k: int)
    requires CoreOk(prefix, y.core) && WatchesOk(prefix, y) && Allowed(y, Fan(k))
    ensures WatchesOk(prefix, Make(prefix, y, Fan(k)))
  {
    var z := Make(prefix, y, Fan(k));
    FannedTo(prefix, y, k);
    forall j | j in z.streams
      ensures QueueOk(z, j) && ListedOk(prefix, z.core, z.streams[j]) && Fresh(z.streams[j])
    {
      if j != k {
        assert QueueOk(y, j) && ListedOk(prefix, y.core, y.streams[j]) && Fresh(y.streams[j]);
        assert z.streams[j] == y.streams[j] && Due(z, j) == Due(y, j);
      }
    }
  }

  lemma {:induction false} FannedTo(prefix: string, y: System, k: int)
    requires CoreOk(prefix, y.core) && WatchesOk(prefix, y) && Allowed(y, Fan(k))
    ensures var z := Make(prefix, y, Fan(k)); QueueOk(z, k) && ListedOk(prefix, z.core, z.streams[k]) && Fresh(z.streams[k])
  {
    assert QueueOk(y, k) && ListedOk(prefix, y.core, y.streams[k]) && Fresh(y.streams[k]);
    FannedQueue(prefix, y, k);
    var v, e := y.streams[k], y.core.published[y.fanned];
    if v.Watching? && IsFor(e, v.res) {
      SameReads(prefix, y.core, v, v.(queue := v.queue + [e]));
    }
  }

  lemma {:induction false} FannedQueue(prefix: string, y: System, k: int)
    requires CountsOk(y) && Allowed(y, Fan(k)) && QueueOk(y, k)
    ensures QueueOk(Make(prefix, y, Fan(k)), k)
  {
    var v := y.streams[k];
    if v.Watching? {
      SentNext(y.core.published, v.since, y.fanned, v.res);
      assert v.queue + [] == v.queue;
    }
  }

  /** The queue does not matter to the reads. */
  lemma {:induction false} SameReads(prefix: string, s: State, v: Watch, w: Watch)
    requires ListedOk(prefix, s, v) && v.Watching? && w.Watching? && w.(queue := v.queue) == v
    ensures ListedOk(prefix, s, w)
  {
    if v.phase != Registered {
      forall o | o in InCache(SeenStore(s, w), w.res)
        ensures ObjectOk(prefix, s, w, o)
      {
        assert ObjectOk(prefix, s, v, o);
      }
    }
  }

  lemma {:induction false} FanDoneOk(prefix: string, y: System)
    requires CoreOk(prefix, y.core) && WatchesOk(prefix, y) && Allowed(y, FanDone)
    ensures WatchesOk(prefix, Make(prefix, y, FanDone))
  {
    var z := Make(prefix, y, FanDone);
    forall j | j in z.streams
      ensures QueueOk(z, j) && ListedOk(prefix, z.core, z.streams[j]) && Fresh(z.streams[j])
    {
      assert QueueOk(y, j) && ListedOk(prefix, y.core, y.streams[j]) && Fresh(y.streams[j]);
      assert j in y.visited && Due(z, j) == Due(y, j);
    }
  }

  lemma {:induction false} OpenOk(prefix: string, y: System, k: int)
    requires CoreOk(prefix, y.core) && WatchesOk(prefix, y) && Allowed(y, Open(k))
    ensures WatchesOk(prefix, Make(prefix, y, Open(k)))
  {
    OnlyOneStream(prefix, y, k, Opened);
  }

  lemma {:induction false} MoveOk(prefix: string, y: System, move: Move)
    requires CoreOk(prefix, y.core) && WatchesOk(prefix, y) && Allowed(y, move)
    ensures CoreOk(prefix, Make(prefix, y, move).core) && WatchesOk(prefix, Make(prefix, y, move))
  {
    match move
    case Core(step) =>
      CoreStep(prefix, y.core, step);
      CoreKeepsWatches(prefix, y, step);
    case Open(k) => OpenOk(prefix, y, k);
    case Register(k, res, start) => RegisterOk(prefix, y, k, res, start);
    case List(k) => ListOk(prefix, y, k);
    case ReadOne(k, o) => ReadOneOk(prefix, y, k, o);
    case Answer(k) => AnswerOk(prefix, y, k);
    case Fan(k) => FanOk(prefix, y, k);
    case FanDone => FanDoneOk(prefix, y);
  }

  lemma {:induction false} AlwaysOk(prefix: string, moves: seq<Move>)
    ensures CoreOk(prefix, After(prefix, moves).core) && WatchesOk(prefix, After(prefix, moves))
  {
    if moves != [] {
      var front, move := moves[..|moves| - 1], moves[|moves| - 1];
      AlwaysOk(prefix, front);
      if Allowed(After(prefix, front), move) {
        MoveOk(prefix, After(prefix, front), move);
      }
    }
  }

  // ---------------------------------------------------------------- nothing is lost, or what is

  lemma {:induction false} SentHas(log: seq<WatchEvent>, res: Resource, e: WatchEvent)
    ensures e in Sent(log, res) <==> e in log && IsFor(e, res)
  {
    if log != [] {
      SentHas(log[..|log| - 1], res, e);
      assert log == log[..|log| - 1] + [log[|log| - 1]];
    }
  }

  /** Every entry of a log is of an event that touches its key. */
  lemma {:induction false} LogTouches(prefix: string, metas: map<string, Meta>, evs: seq<Event>, q: nat)
    requires q < |Log(prefix, metas, evs)|
    ensures exists i :: 0 <= i < |evs| && Touches(prefix, evs[i], Log(prefix, metas, evs)[q].kv.key)
  {
    var front, ev := evs[..|evs| - 1], evs[|evs| - 1];
    if q < |Log(prefix, metas, front)| {
      LogTouches(prefix, metas, front, q);
      var i :| 0 <= i < |front| && Touches(prefix, front[i], Log(prefix, metas, front)[q].kv.key);
      assert Touches(prefix, evs[i], Log(prefix, metas, evs)[q].kv.key);
    } else {
      assert Touches(prefix, evs[|evs| - 1], Log(prefix, metas, evs)[q].kv.key);
    }
  }

  lemma {:induction false} LastInLog(prefix: string, h: seq<Event>, n: string, j: nat)
    requires LastTouch(prefix, n, h, j) && PutAt(prefix, n, h, j)
    ensures var p, log := NumberOf(prefix, h, j), Log(prefix, map[], h);
      && p < |log| && log[p] == Published(prefix, MetaAll(prefix, map[], h[..j]), h[j])
      && forall q :: p < q < |log| ==> log[q].kv.key != n
  {
    LogAround(prefix, h, j);
    var p, log := NumberOf(prefix, h, j), Log(prefix, map[], h);
    var m, later := MetaAll(prefix, map[], h[..j + 1]), h[j + 1..];
    forall q | p < q < |log|
      ensures log[q].kv.key != n
    {
      assert log[q] == Log(prefix, m, later)[q - p - 1];
      LogTouches(prefix, m, later, q - p - 1);
      var i :| 0 <= i < |later| && Touches(prefix, later[i], log[q].kv.key);
      assert later[i] == h[j + 1 + i];
    }
  }

  /** At rest, the published form of the last event of a key. */
  lemma {:induction false} LastPublished(prefix: string, s: State, n: string, j: nat)
    requires InOrder(s) && Logged(prefix, s) && s.consumer == Idle
    requires var h := Stamp(s.received, 0); LastTouch(prefix, n, h, j) && PutAt(prefix, n, h, j)
    ensures var h := Stamp(s.received, 0);
      var p := NumberOf(prefix, h, j);
      && p < |s.published| && s.published[p].kv.key == n && s.published[p].kv.modRevision == j
      && !s.published[p].deleted && s.published[p].kv.value == Json(h[j].Payload())
      && forall q :: p < q < |s.published| ==> s.published[q].kv.key != n
  {
    var h := Stamp(s.received, 0);
    assert s.stamped == h && Done(s) == h;
    LastInLog(prefix, h, n, j);
    var log := Log(prefix, map[], h);
    forall q | 0 <= q < |log|
      ensures s.published[q].kv.key == log[q].kv.key && s.published[q].deleted == log[q].deleted
      ensures s.published[q].kv.modRevision == log[q].kv.modRevision && s.published[q].kv.value == log[q].kv.value
    {
      assert SameButCreate(s.published[q], log[q]);
      SameFields(s.published[q].kv, log[q].kv);
    }
  }

  lemma {:induction false} SameFields(a: KeyValue, b: KeyValue)
    requires a.(createRevision := 0) == b.(createRevision := 0)
    ensures a.key == b.key && a.modRevision == b.modRevision && a.value == b.value
  {
    assert a.(createRevision := 0).key == b.(createRevision := 0).key;
    assert a.(createRevision := 0).modRevision == b.(createRevision := 0).modRevision;
    assert a.(createRevision := 0).value == b.(createRevision := 0).value;
  }

  /** The last write to a key comes no earlier than any write to it. */
  lemma {:induction false} LastWriteAt(writes: seq<Write>, key: string, a: nat) returns (b: nat)
    requires a < |writes| && writes[a].key == key
    ensures a <= b < |writes| && LastWrite(writes, key) == Some(writes[b]) && writes[b].key == key
  {
    if writes[|writes| - 1].key == key {
      b := |writes| - 1;
    } else {
      b := LastWriteAt(writes[..|writes| - 1], key, a);
    }
  }

  /** After the last event of a key is written, the last write to the key is that one or a
      fallback. */
  lemma {:induction false} WrittenLast(s: State, p: nat, n: string, r: nat)
    requires WritesInOrder(s) && LoadsInRange(s) && p < |s.published| && s.published[p].kv.key == n
    requires forall q :: p < q < |s.published| ==> s.published[q].kv.key != n
    requires WrittenBefore(s, p, r) && r <= |s.writes| && OwnEvent(s.published, LastWrite(s.writes[..r], n), n)
    ensures var w := LastWrite(s.writes[..r], n); w.Some? && (w.value.Fell? || w.value == Pushed(n, p))
  {
    var a :| 0 <= a < r && a < |s.writes| && s.writes[a] == Pushed(n, p);
    var b := LastWriteAt(s.writes[..r], n, a);
    assert s.writes[..r][b] == s.writes[b];
  }

  /** The object of the last event of a key is in every later cache. */
  lemma {:induction false} StillCached(prefix: string, evs: seq<Event>, res: Resource, id: string, j: nat, c: nat)
    requires j < c <= |evs| && evs[j].Payload() != NoObject && evs[j].typ != Delete
    requires ResourceOf(evs[j].Payload()) == res && ObjectId(evs[j].Payload()) == id
    requires forall i :: j < i < |evs| ==> !Touches(prefix, evs[i], Name(prefix, res, id))
    ensures evs[j].Payload() in InCache(ApplyAll(EMPTY_STORE, evs[..c]), res)
  {
    var o, k := evs[j].Payload(), if res == RouteResource then RouteKey(id) else UpstreamKey(id);
    var s := ApplyAll(EMPTY_STORE, evs[..j + 1]);
    assert evs[..c] == evs[..j + 1] + evs[j + 1..c] && evs[..j + 1][..j] == evs[..j];
    ApplyAllAppend(EMPTY_STORE, evs[..j + 1], evs[j + 1..c]);
    forall ev | ev in evs[j + 1..c]
      ensures KeyOf(ev.Payload()) != k
    {
      var i :| j < i < c && ev == evs[i];
      assert !Touches(prefix, evs[i], Name(prefix, res, id));
    }
    LookupUntouched(s, evs[j + 1..c], k);
    var t := ApplyAll(EMPTY_STORE, evs[..c]);
    assert Lookup(t, k) == o;
    assert id in ObjectsOf(t, res) && ObjectsOf(t, res)[id] == o;
  }

  /** What the answered watch tells its client about a key: in the first response or pushed. */
  ghost predicate Told(w: Watch, n: string, j: int)
    requires w.Watching?
  {
    n in w.got || exists e :: e in w.queue && e.kv.key == n && e.kv.modRevision == j
  }

  /** The watch read the key's metadata when a fallback stood there with a revision below the
      start. */
  ghost predicate ReadLowFallback(s: State, w: Watch, n: string)
    requires w.Watching?
  {
    n in w.readAt && w.readAt[n] <= |s.writes| &&
    var last := LastWrite(s.writes[..w.readAt[n]], n);
    FellLast(last) && last.value.rev < w.start
  }

  /** Starting a watch amid pushes. However its registration, listing and reads are interleaved
      with the consumer and other readers: once the consumer is idle, everything is fanned out and
      the watch is answered, a key of its directory whose last event is a PUT with a revision from
      the start on is told to the client if and only if that event was pushed after the
      registration or the watch did not read a stale fallback in place of its metadata. A key in
      the first response that was not pushed has its current value there. */
  lemma {:induction false} ToldIff(prefix: string, moves: seq<Move>, k: int, id: string, j: nat)
    requires var y := After(prefix, moves);
      y.core.consumer == Idle && !FanningOut(y) && k in y.streams && y.streams[k].Watching? && y.streams[k].phase == Answered
    requires var y := After(prefix, moves);
      var h, n := Stamp(y.core.received, 0), Name(prefix, y.streams[k].res, id);
      LastTouch(prefix, n, h, j) && PutAt(prefix, n, h, j) && j >= y.streams[k].start
    ensures var y := After(prefix, moves);
      var s, w, n := y.core, y.streams[k], Name(prefix, y.streams[k].res, id);
      var h := Stamp(s.received, 0);
      && (Told(w, n, j) <==> NumberOf(prefix, h, j) >= w.since || !ReadLowFallback(s, w, n))
      && (NumberOf(prefix, h, j) < w.since && n in w.got ==> w.got[n].value == Json(h[j].Payload()))
  {
    AlwaysOk(prefix, moves);
    var y := After(prefix, moves);
    var s, w := y.core, y.streams[k];
    var h, n := Stamp(s.received, 0), Name(prefix, w.res, id);
    var p := NumberOf(prefix, h, j);
    assert QueueOk(y, k) && ListedOk(prefix, s, w);
    LastPublished(prefix, s, n, j);
    var o := h[j].Payload();
    NameInjective(prefix, ResourceOf(o), ObjectId(o), w.res, id);
    if p >= w.since {
      var due := s.published[w.since..Due(y, k)];
      assert due[p - w.since] == s.published[p];
      SentHas(due, w.res, s.published[p]);
    } else {
      ReadBeforehand(prefix, s, w, id, j);
      forall e | e in w.queue
        ensures e.kv.key != n
      {
        SentHas(s.published[w.since..Due(y, k)], w.res, e);
      }
    }
  }

  lemma {:induction false} ReadBeforehand(prefix: string, s: State, w: Watch, id: string, j: nat)
    requires CoreOk(prefix, s) && s.consumer == Idle && w.Watching? && w.phase == Answered && ListedOk(prefix, s, w)
    requires var h, n := Stamp(s.received, 0), Name(prefix, w.res, id);
      LastTouch(prefix, n, h, j) && PutAt(prefix, n, h, j) && j >= w.start && NumberOf(prefix, h, j) < w.since
    ensures var h, n := Stamp(s.received, 0), Name(prefix, w.res, id);
      && (n in w.got <==> !ReadLowFallback(s, w, n))
      && (n in w.got ==> w.got[n].value == Json(h[j].Payload()))
  {
    var h, n := Stamp(s.received, 0), Name(prefix, w.res, id);
    var p, o := NumberOf(prefix, h, j), h[j].Payload();
    LastPublished(prefix, s, n, j);
    NameInjective(prefix, ResourceOf(o), ObjectId(o), w.res, id);
    forall i | j < i < |s.received|
      ensures !Touches(prefix, s.received[i], n)
    {
      assert !Touches(prefix, h[i], n);
    }
    StillCached(prefix, s.received, w.res, id, j, w.seen);
    assert ObjectOk(prefix, s, w, o);
    assert WrittenBefore(s, p, w.readAt[n]);
    WrittenLast(s, p, n, w.readAt[n]);
  }

  // ---------------------------------------------------------------- a lost update

  const OLD_ROUTE := PutEvent(Add, FOUND)
  const NEW_ROUTE := PutEvent(Update, RouteObject(SOME_ROUTE.(name := "new")))
  const CONSUME := Core(Consume)

  /** The route is added; before it is stamped, a reader finds it without metadata and loads
      revision 0. */
  const LOADED: seq<Move> :=
    [Core(Receive([OLD_ROUTE, NEW_ROUTE]))] + [CONSUME] + [Core(StartRead(0, FOUND, true))]
    + [Core(ContinueRead(0))] + [Core(ContinueRead(0))]

  /** The first event is stamped, then the second, and pushing begins. */
  const STAMPED_ONE: seq<Move> := LOADED + [CONSUME] + [CONSUME]
  const STAMPED: seq<Move> := STAMPED_ONE + [CONSUME] + [CONSUME] + [CONSUME] + [CONSUME]

  /** The first event is pushed, then the second, and the consumer is idle. */
  const PUSHED_ONE: seq<Move> := STAMPED + [CONSUME] + [CONSUME] + [FanDone]
  const PUSHED_TWO: seq<Move> := PUSHED_ONE + [CONSUME] + [CONSUME] + [FanDone]
  const PUSHED: seq<Move> := PUSHED_TWO + [CONSUME]

  /** Now the reader writes what it had loaded, and a watch from revision 1 registers and starts. */
  const REGISTERED: seq<Move> := PUSHED + [Core(ContinueRead(0))] + [Open(1)] + [Register(1, RouteResource, 1)]
  const LATE_WATCH: seq<Move> := REGISTERED + [List(1)] + [ReadOne(1, NEW_ROUTE.body)] + [Answer(1)]

  lemma {:induction false} AfterMove(prefix: string, moves: seq<Move>, move: Move, y: System)
    requires After(prefix, moves) == y && Allowed(y, move)
    ensures After(prefix, moves + [move]) == Make(prefix, y, move)
  {
    assert (moves + [move])[..|moves|] == moves;
  }

  function RouteStore(o: Object): Store
    requires o.RouteObject?
  {
    Store(map[o.route.id := o.route], map[])
  }

  function Both(): seq<Event> {
    [OLD_ROUTE, NEW_ROUTE.(revision := 1)]
  }

  function AtLoaded(): System {
    System(START.(cache := RouteStore(FOUND), consumer := Loading([OLD_ROUTE, NEW_ROUTE], 0),
                  readers := map[0 := HasRevision(FOUND, 0)], received := [OLD_ROUTE, NEW_ROUTE]), map[], 0, {})
  }

  lemma {:induction false} AfterLoaded(prefix: string)
    ensures After(prefix, LOADED) == AtLoaded()
  {
    var batch := [OLD_ROUTE, NEW_ROUTE];
    var first := Core(Receive(batch));
    AfterMove(prefix, [], first, BEGIN);
    assert [] + [first] == [first];
    var y1 := Make(prefix, BEGIN, first);
    AfterMove(prefix, [first], CONSUME, y1);
    var y2 := Make(prefix, y1, CONSUME);
    var find, go := Core(StartRead(0, FOUND, true)), Core(ContinueRead(0));
    AfterMove(prefix, [first] + [CONSUME], find, y2);
    var y3 := Make(prefix, y2, find);
    AfterMove(prefix, [first] + [CONSUME] + [find], go, y3);
    var y4 := Make(prefix, y3, go);
    AfterMove(prefix, [first] + [CONSUME] + [find] + [go], go, y4);
    assert [] + batch == batch;
  }

  function AtStampedOne(): System {
    var y := AtLoaded();
    y.(core := y.core.(consumer := Reflecting([OLD_ROUTE, NEW_ROUTE], 1), revision := 1, stamped := [OLD_ROUTE]))
  }

  lemma {:induction false} AfterStampedOne(prefix: string)
    ensures After(prefix, STAMPED_ONE) == AtStampedOne()
  {
    AfterLoaded(prefix);
    AfterMove(prefix, LOADED, CONSUME, AtLoaded());
    var y := Make(prefix, AtLoaded(), CONSUME);
    AfterMove(prefix, LOADED + [CONSUME], CONSUME, y);
    var batch := [OLD_ROUTE, NEW_ROUTE];
    assert batch[0 := OLD_ROUTE] == batch && [] + [OLD_ROUTE] == [OLD_ROUTE];
  }

  function AtStamped(): System {
    var y := AtLoaded();
    y.(core := y.core.(cache := RouteStore(NEW_ROUTE.body), consumer := Pushing(Both(), 0), revision := 2, stamped := Both()))
  }

  lemma {:induction false} AfterStamped(prefix: string)
    ensures After(prefix, STAMPED) == AtStamped()
  {
    AfterStampedOne(prefix);
    var y0, m := AtStampedOne(), STAMPED_ONE;
    AfterMove(prefix, m, CONSUME, y0);
    var y1 := Make(prefix, y0, CONSUME);
    assert y1.core.cache == RouteStore(NEW_ROUTE.body);
    AfterMove(prefix, m + [CONSUME], CONSUME, y1);
    var y2 := Make(prefix, y1, CONSUME);
    AfterMove(prefix, m + [CONSUME] + [CONSUME], CONSUME, y2);
    var y3 := Make(prefix, y2, CONSUME);
    var batch := [OLD_ROUTE, NEW_ROUTE];
    assert batch[1 := NEW_ROUTE.(revision := 1)] == Both() && [OLD_ROUTE] + [NEW_ROUTE.(revision := 1)] == Both();
    AfterMove(prefix, m + [CONSUME] + [CONSUME] + [CONSUME], CONSUME, y3);
  }

  function RouteKeyName(prefix: string): string {
    Name(prefix, RouteResource, "r")
  }

  /** Only the log and the recorded loads are left open. */
  ghost predicate Reaches(y: System, core: State, published: nat) {
    && y.core.(published := [], loads := []) == core
    && |y.core.published| == published == y.fanned && y.streams == map[] && y.visited == {}
  }

  function CoreAtPushed(prefix: string, published: nat, consumer: Consumer, writes: seq<Write>): State {
    AtStamped().core.(consumer := consumer, pushed := published, writes := writes,
                      metas := map[RouteKeyName(prefix) := Meta(0, published - 1)])
  }

  lemma {:induction false} AfterPushedOne(prefix: string)
    ensures Reaches(After(prefix, PUSHED_ONE),
                    CoreAtPushed(prefix, 1, Pushing(Both(), 1), [Pushed(RouteKeyName(prefix), 0)]), 1)
  {
    AfterStamped(prefix);
    var y0, m := AtStamped(), STAMPED;
    AfterMove(prefix, m, CONSUME, y0);
    var y1 := Make(prefix, y0, CONSUME);
    AfterMove(prefix, m + [CONSUME], CONSUME, y1);
    var y2 := Make(prefix, y1, CONSUME);
    AfterMove(prefix, m + [CONSUME] + [CONSUME], FanDone, y2);
    assert [] + [Pushed(RouteKeyName(prefix), 0)] == [Pushed(RouteKeyName(prefix), 0)];
  }

  lemma {:induction false} AfterPushedTwo(prefix: string)
    ensures var n := RouteKeyName(prefix);
      Reaches(After(prefix, PUSHED_TWO), CoreAtPushed(prefix, 2, Pushing(Both(), 2), [Pushed(n, 0)] + [Pushed(n, 1)]), 2)
  {
    AfterPushedOne(prefix);
    var y0, m := After(prefix, PUSHED_ONE), PUSHED_ONE;
    AfterMove(prefix, m, CONSUME, y0);
    var y1 := Make(prefix, y0, CONSUME);
    AfterMove(prefix, m + [CONSUME], CONSUME, y1);
    var y2 := Make(prefix, y1, CONSUME);
    AfterMove(prefix, m + [CONSUME] + [CONSUME], FanDone, y2);
  }

  lemma {:induction false} AfterPushed(prefix: string)
    ensures var n := RouteKeyName(prefix);
      Reaches(After(prefix, PUSHED), CoreAtPushed(prefix, 2, Idle, [Pushed(n, 0)] + [Pushed(n, 1)]), 2)
  {
    AfterPushedTwo(prefix);
    AfterMove(prefix, PUSHED_TWO, CONSUME, After(prefix, PUSHED_TWO));
  }

  lemma {:induction false} AfterRegistered(prefix: string)
    ensures var y := After(prefix, REGISTERED);
      && y.core.consumer == Idle && !FanningOut(y) && y.core.received == [OLD_ROUTE, NEW_ROUTE]
      && y.core.cache == RouteStore(NEW_ROUTE.body) && y.core.metas == map[RouteKeyName(prefix) := Meta(0, 0)]
      && y.streams == map[1 := Watching(RouteResource, 1, Registered, [], map[], 2, 0, map[])]
  {
    AfterPushed(prefix);
    var y0, m, go := After(prefix, PUSHED), PUSHED, Core(ContinueRead(0));
    AfterMove(prefix, m, go, y0);
    var y1 := Make(prefix, y0, go);
    AfterMove(prefix, m + [go], Open(1), y1);
    var y2 := Make(prefix, y1, Open(1));
    AfterMove(prefix, m + [go] + [Open(1)], Register(1, RouteResource, 1), y2);
  }

  /** The update has revision 1, and the watch starts at revision 1, but is never told of it. */
  lemma {:induction false} UpdateNeverTold(prefix: string)
    ensures var y := After(prefix, LATE_WATCH);
      var n := RouteKeyName(prefix);
      var h := Stamp(y.core.received, 0);
      && y.core.consumer == Idle && !FanningOut(y) && 1 in y.streams && y.streams[1].Watching?
      && y.streams[1].phase == Answered && y.streams[1].start == 1
      && LastTouch(prefix, n, h, 1) && PutAt(prefix, n, h, 1) && !Told(y.streams[1], n, 1)
  {
    AfterRegistered(prefix);
    var y0, m := After(prefix, REGISTERED), REGISTERED;
    AfterMove(prefix, m, List(1), y0);
    var y1 := Make(prefix, y0, List(1));
    OneInCache(NEW_ROUTE.body);
    var read := ReadOne(1, NEW_ROUTE.body);
    AfterMove(prefix, m + [List(1)], read, y1);
    var y2 := Make(prefix, y1, read);
    AfterMove(prefix, m + [List(1)] + [read], Answer(1), y2);
    var h := Stamp(y0.core.received, 0);
    assert h[1].Payload() == NEW_ROUTE.body;
  }

  lemma {:induction false} OneInCache(o: Object)
    requires o.RouteObject?
    ensures InCache(RouteStore(o), RouteResource) == {o}
  {
    assert o.route.id in ObjectsOf(RouteStore(o), RouteResource);
  }
}
