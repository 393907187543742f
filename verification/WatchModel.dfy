/** Watch streams as a state machine: opening, closing, creating and cancelling watches, and
    pushing events; pkg/etcdv3/watch.go and the fan-out of pkg/etcdv3/etcd.go. */
module WatchModel {
  import opened Objects
  import opened EtcdModel
  import opened Conformance

  datatype WatchResponse = WatchResponse(
    revision: int,
    watchId: int,
    created: bool,
    canceled: bool,
    events: seq<WatchEvent>)

  /** A live stream: the ids registered for each resource and what is queued for sending. */
  datatype Stream = Stream(routes: set<int>, upstreams: set<int>, queue: seq<WatchResponse>) {
    function Registered(res: Resource): set<int> {
      if res == RouteResource then routes else upstreams
    }
  }

  datatype Server = Server(metas: map<string, Meta>, streams: map<int, Stream>, nextId: int)

  function PushResponse(ev: Event, id: int, e: WatchEvent): WatchResponse {
    WatchResponse(ev.revision, id, false, false, [e])
  }

  /** What a queue holds for one watch id, in order. */
  function Delivered(queue: seq<WatchResponse>, id: int): seq<WatchResponse> {
    if queue == [] then []
    else
      Delivered(queue[..|queue| - 1], id) +
      if queue[|queue| - 1].watchId == id then [queue[|queue| - 1]] else []
  }

  lemma {:induction false} DeliveredAppend(a: seq<WatchResponse>, b: seq<WatchResponse>, id: int)
    ensures Delivered(a + b, id) == Delivered(a, id) + Delivered(b, id)
  {
    if b == [] {
      assert a + b == a;
    } else {
      DeliveredAppend(a, b[..|b| - 1], id);
      assert (a + b)[..|a + b| - 1] == a + b[..|b| - 1];
    }
  }

  /** What one pushed event owes to an id of a stream. */
  function Owed(prefix: string, metas: map<string, Meta>, ev: Event, ws: Stream, id: int): seq<WatchResponse> {
    if ev.Payload() != NoObject && id in ws.Registered(ResourceOf(ev.Payload()))
    then [PushResponse(ev, id, Published(prefix, metas, ev))]
    else []
  }

  ghost predicate Fanned(prefix: string, metas: map<string, Meta>, ev: Event, before: Stream, after: Stream) {
    && after.routes == before.routes && after.upstreams == before.upstreams
    && forall id :: Delivered(after.queue, id) == Delivered(before.queue, id) + Owed(prefix, metas, ev, before, id)
  }

  datatype Action =
    | Open
    | Close(stream: int)
    | Create(stream: int, request: CreateRequest, random: int)
    | Cancel(stream: int, id: int)
    | Push(event: Event)

  /** createWatch: a repeated id on the same resource is refused. */
  function CreateWatch(ws: Stream, id: int, res: Resource): Option<Stream> {
    if id in ws.Registered(res) then None
    else if res == RouteResource then Some(ws.(routes := ws.routes + {id}))
    else Some(ws.(upstreams := ws.upstreams + {id}))
  }

  /** cancelWatch: a route watch goes first when both resources use the id. */
  function CancelWatch(ws: Stream, id: int): Option<Stream> {
    if id in ws.routes then Some(ws.(routes := ws.routes - {id}))
    else if id in ws.upstreams then Some(ws.(upstreams := ws.upstreams - {id}))
    else None
  }

  function CreateId(c: CreateRequest, random: int): int {
    if c.watchId == 0 then random else c.watchId
  }

  /** The stream after a create request: None when the request ends the stream. */
  function OnCreate(prefix: string, ws: Stream, c: CreateRequest, random: int): Option<Stream> {
    match CheckWatch(prefix, WatchCreate(Some(c)))
    case KeyNotFound => Some(ws)
    case EmptyKey => None
    case NotCapable => None
    case Accepted =>
      var res := WatchedResource(prefix, c.key);
      if res.None? then Some(ws) else CreateWatch(ws, CreateId(c, random), res.value)
  }

  function ResourceNamed(prefix: string, key: string): Resource {
    if key == prefix + "/routes" then RouteResource else UpstreamResource
  }

  /** What a create request does to its stream, by the fields of the request. One without a key, or
      asking for what is not supported, ends the stream; one for any other key is silently skipped;
      one for a directory registers the id, the given one or a random one for 0, unless the
      directory's resource has it already, which ends the stream. */
  lemma {:induction false} CreateMeans(prefix: string, ws: Stream, c: CreateRequest, random: int)
    ensures var id := if c.watchId == 0 then random else c.watchId;
      var res := ResourceNamed(prefix, c.key);
      var unsupported := c.prevKv || c.progressNotify || c.fragment;
      var after := OnCreate(prefix, ws, c, random);
      && (c.key != "" && !ServedPair(prefix, c.key, c.rangeEnd) ==> after == Some(ws))
      && (c.key == "" ==> after == None)
      && (ServedPair(prefix, c.key, c.rangeEnd) ==>
            (after == None <==> unsupported || id in (if res == RouteResource then ws.routes else ws.upstreams)))
      && (after.Some? && ServedPair(prefix, c.key, c.rangeEnd) ==>
            after.value == if res == RouteResource then Stream(ws.routes + {id}, ws.upstreams, ws.queue)
                           else Stream(ws.routes, ws.upstreams + {id}, ws.queue))
  {
    WatchVerdict(prefix, WatchCreate(Some(c)));
    assert (prefix + "/routes")[|prefix| + 1] == 'r' && (prefix + "/upstreams")[|prefix| + 1] == 'u';
    assert prefix + "/routes" != prefix && prefix + "/upstreams" != prefix;
  }

  /** A cancel takes the route registration of an id before its upstream registration, and ends
      the stream if it has neither. */
  lemma {:induction false} CancelMeans(ws: Stream, id: int)
    ensures CancelWatch(ws, id) ==
      if id in ws.routes then Some(Stream(ws.routes - {id}, ws.upstreams, ws.queue))
      else if id in ws.upstreams then Some(Stream(ws.routes, ws.upstreams - {id}, ws.queue))
      else None
  {
  }

  function Replaced(streams: map<int, Stream>, k: int, ws: Option<Stream>): map<int, Stream> {
    if ws.Some? then streams[k := ws.value] else streams - {k}
  }

  ghost predicate Next(prefix: string, s: Server, act: Action, s': Server) {
    match act
    case Open => s' == s.(streams := s.streams[s.nextId := Stream({}, {}, [])], nextId := s.nextId + 1)
    case Close(k) => s' == s.(streams := s.streams - {k})
    case Create(k, c, random) =>
      k in s.streams && s' == s.(streams := Replaced(s.streams, k, OnCreate(prefix, s.streams[k], c, random)))
    case Cancel(k, id) =>
      k in s.streams && s' == s.(streams := Replaced(s.streams, k, CancelWatch(s.streams[k], id)))
    case Push(ev) =>
      && s'.nextId == s.nextId && s'.metas == MetaStep(prefix, s.metas, ev)
      && s'.streams.Keys == s.streams.Keys
      && forall k :: k in s.streams ==> Fanned(prefix, s.metas, ev, s.streams[k], s'.streams[k])
  }

  /** states[0] leads through acts to states[|acts|]. */
  ghost predicate Run(prefix: string, states: seq<Server>, acts: seq<Action>) {
    && |states| == |acts| + 1
    && forall i :: 0 <= i < |acts| ==> Next(prefix, states[i], acts[i], states[i + 1])
  }

  /** Stream numbers in use are below the next one. */
  ghost predicate NumbersFresh(s: Server) {
    forall k :: k in s.streams ==> k < s.nextId
  }

  /** No live stream is ever overwritten: an open adds a stream under a number not in use, and
      leaves every other stream as it was. */
  lemma {:induction false} NoStreamOverwritten(prefix: string, states: seq<Server>, acts: seq<Action>, i: nat)
    requires Run(prefix, states, acts) && NumbersFresh(states[0])
    requires i <= |acts|
    ensures NumbersFresh(states[i])
    ensures i < |acts| && acts[i] == Open ==>
      && states[i].nextId !in states[i].streams
      && forall k :: k in states[i].streams ==> k in states[i + 1].streams && states[i + 1].streams[k] == states[i].streams[k]
  {
    if i > 0 {
      NoStreamOverwritten(prefix, states, acts, i - 1);
      assert Next(prefix, states[i - 1], acts[i - 1], states[i]);
    }
    if i < |acts| {
      assert Next(prefix, states[i], acts[i], states[i + 1]);
    }
  }

  /** All that a run owes to one id of one stream. */
  ghost function OwedByRun(prefix: string, states: seq<Server>, acts: seq<Action>, k: int, id: int): seq<WatchResponse>
    requires |states| == |acts| + 1
    requires forall i :: 0 <= i <= |acts| ==> k in states[i].streams
  {
    if acts == [] then []
    else
      var n := |acts| - 1;
      OwedByRun(prefix, states[..n + 1], acts[..n], k, id) +
      if acts[n].Push? then Owed(prefix, states[n].metas, acts[n].event, states[n].streams[k], id) else []
  }

  lemma {:induction false} NextKeepsQueue(prefix: string, s: Server, act: Action, s': Server, k: int)
    requires Next(prefix, s, act, s') && NumbersFresh(s)
    requires k in s.streams && k in s'.streams && !act.Push?
    ensures s'.streams[k].queue == s.streams[k].queue
  {
  }

  /** Delivery accounting: as long as a stream lives, what is queued for an id grows by exactly
      one response for every event pushed while the id was registered for the event's resource. */
  lemma {:induction false} DeliveryAccounting(prefix: string, states: seq<Server>, acts: seq<Action>, k: int, id: int)
    requires Run(prefix, states, acts) && NumbersFresh(states[0])
    requires forall i :: 0 <= i <= |acts| ==> k in states[i].streams
    ensures Delivered(states[|acts|].streams[k].queue, id) ==
      Delivered(states[0].streams[k].queue, id) + OwedByRun(prefix, states, acts, k, id)
  {
    if acts != [] {
      var n := |acts| - 1;
      assert Next(prefix, states[n], acts[n], states[n + 1]);
      DeliveryAccounting(prefix, states[..n + 1], acts[..n], k, id);
      NoStreamOverwritten(prefix, states, acts, n);
      QueueStep(prefix, states[n], acts[n], states[n + 1], k, id);
      Associative(Delivered(states[0].streams[k].queue, id), OwedByRun(prefix, states[..n + 1], acts[..n], k, id),
                  if acts[n].Push? then Owed(prefix, states[n].metas, acts[n].event, states[n].streams[k], id) else []);
    }
  }

  lemma {:induction false} QueueStep(prefix: string, s: Server, act: Action, s': Server, k: int, id: int)
    requires Next(prefix, s, act, s') && NumbersFresh(s) && k in s.streams && k in s'.streams
    ensures Delivered(s'.streams[k].queue, id) ==
      Delivered(s.streams[k].queue, id) + if act.Push? then Owed(prefix, s.metas, act.event, s.streams[k], id) else []
  {
    if act.Push? {
      assert Fanned(prefix, s.metas, act.event, s.streams[k], s'.streams[k]);
    } else {
      NextKeepsQueue(prefix, s, act, s', k);
      assert Delivered(s.streams[k].queue, id) + [] == Delivered(s.streams[k].queue, id);
    }
  }

  /** The requests that could change the registration of an id on a stream. */
  predicate Concerns(prefix: string, act: Action, k: int, id: int) {
    match act
    case Cancel(s, i) => s == k && i == id
    case Create(s, c, random) => s == k && CreateId(c, random) == id && CheckWatch(prefix, WatchCreate(Some(c))) == Accepted
    case _ => false
  }

  predicate IsRegistered(s: Server, k: int, id: int, res: Resource) {
    k in s.streams && id in s.streams[k].Registered(res)
  }

  /** A stream that survives an accepted create has the id registered, which was new to the
      resource; after a cancel that it survives, an id in use for one resource is in use no more. */
  lemma {:induction false} CreateThenCancel(prefix: string, s: Server, act: Action, s': Server, k: int, id: int)
    requires Next(prefix, s, act, s') && k in s'.streams && Concerns(prefix, act, k, id)
    ensures act.Create? ==>
      exists res :: WatchedResource(prefix, act.request.key) == Some(res) && !IsRegistered(s, k, id, res) && IsRegistered(s', k, id, res)
    ensures act.Cancel? ==> exists res :: IsRegistered(s, k, id, res)
    ensures act.Cancel? && (exists res :: !IsRegistered(s, k, id, res)) ==> forall res :: !IsRegistered(s', k, id, res)
  {
    if act.Create? {
      DirectoryOf(prefix, act.request.key, act.request.rangeEnd);
      var res := WatchedResource(prefix, act.request.key).value;
      assert !IsRegistered(s, k, id, res) && IsRegistered(s', k, id, res);
    } else {
      assert IsRegistered(s, k, id, RouteResource) || IsRegistered(s, k, id, UpstreamResource);
    }
  }

  lemma {:induction false} RegistrationLasts(prefix: string, states: seq<Server>, acts: seq<Action>, k: int, id: int, i: nat)
    requires Run(prefix, states, acts) && NumbersFresh(states[0])
    requires forall j :: 0 <= j <= |acts| ==> k in states[j].streams
    requires forall j :: 0 <= j < |acts| ==> !Concerns(prefix, acts[j], k, id)
    requires i <= |acts|
    ensures forall res :: IsRegistered(states[i], k, id, res) == IsRegistered(states[0], k, id, res)
  {
    if i > 0 {
      RegistrationLasts(prefix, states, acts, k, id, i - 1);
      NoStreamOverwritten(prefix, states, acts, i - 1);
      assert Next(prefix, states[i - 1], acts[i - 1], states[i]);
      assert !Concerns(prefix, acts[i - 1], k, id);
      if acts[i - 1].Push? {
        assert Fanned(prefix, states[i - 1].metas, acts[i - 1].event, states[i - 1].streams[k], states[i].streams[k]);
      }
    }
  }

  /** The events of a resource pushed during a run, as published. */
  ghost function PushedTo(prefix: string, states: seq<Server>, acts: seq<Action>, res: Resource, id: int): seq<WatchResponse>
    requires |states| == |acts| + 1
  {
    if acts == [] then []
    else
      var n := |acts| - 1;
      PushedTo(prefix, states[..n + 1], acts[..n], res, id) +
      if acts[n].Push? && IsResource(acts[n].event.Payload(), res)
      then [PushResponse(acts[n].event, id, Published(prefix, states[n].metas, acts[n].event))] else []
  }

  /** Between its creation and its cancel, an id that its stream uses for one resource only gets
      one response for every event of that resource and none for any other; an id in use for
      neither gets nothing. */
  lemma {:induction false} DeliveryBetween(prefix: string, states: seq<Server>, acts: seq<Action>, k: int, id: int, res: Resource)
    requires Run(prefix, states, acts) && NumbersFresh(states[0])
    requires forall i :: 0 <= i <= |acts| ==> k in states[i].streams
    requires forall i :: 0 <= i < |acts| ==> !Concerns(prefix, acts[i], k, id)
    requires forall other :: other != res ==> !IsRegistered(states[0], k, id, other)
    ensures Delivered(states[|acts|].streams[k].queue, id) == Delivered(states[0].streams[k].queue, id) +
      if IsRegistered(states[0], k, id, res) then PushedTo(prefix, states, acts, res, id) else []
  {
    DeliveryAccounting(prefix, states, acts, k, id);
    OwedIsPushed(prefix, states, acts, k, id, res);
  }

  lemma {:induction false} OwedIsPushed(prefix: string, states: seq<Server>, acts: seq<Action>, k: int, id: int, res: Resource)
    requires Run(prefix, states, acts) && NumbersFresh(states[0])
    requires forall i :: 0 <= i <= |acts| ==> k in states[i].streams
    requires forall i :: 0 <= i < |acts| ==> !Concerns(prefix, acts[i], k, id)
    requires forall other :: other != res ==> !IsRegistered(states[0], k, id, other)
    ensures OwedByRun(prefix, states, acts, k, id) ==
      if IsRegistered(states[0], k, id, res) then PushedTo(prefix, states, acts, res, id) else []
  {
    if acts != [] {
      var n := |acts| - 1;
      OwedIsPushed(prefix, states[..n + 1], acts[..n], k, id, res);
      RegistrationLasts(prefix, states, acts, k, id, n);
      if acts[n].Push? && acts[n].event.Payload() != NoObject {
        var of := ResourceOf(acts[n].event.Payload());
        assert IsRegistered(states[n], k, id, of) == IsRegistered(states[0], k, id, of);
        assert IsResource(acts[n].event.Payload(), res) == (of == res);
      }
    }
  }

  /** A registration was asked for with an accepted range: the interval of its resource. */
  lemma {:induction false} OnlyAcceptedRanges(prefix: string, states: seq<Server>, acts: seq<Action>, k: int, id: int, res: Resource)
    requires Run(prefix, states, acts) && states[0].streams == map[]
    requires IsRegistered(states[|acts|], k, id, res)
    ensures exists i :: 0 <= i < |acts| && CreatesWatch(prefix, acts[i], k, id, res)
  {
    if acts != [] {
      var n := |acts| - 1;
      assert Next(prefix, states[n], acts[n], states[n + 1]);
      if IsRegistered(states[n], k, id, res) {
        OnlyAcceptedRanges(prefix, states[..n + 1], acts[..n], k, id, res);
        var i :| 0 <= i < n && CreatesWatch(prefix, acts[..n][i], k, id, res);
        assert CreatesWatch(prefix, acts[i], k, id, res);
      } else {
        assert acts[n].Create?;
        DirectoryOf(prefix, acts[n].request.key, acts[n].request.rangeEnd);
        assert CreatesWatch(prefix, acts[n], k, id, res);
      }
    }
  }

  predicate CreatesWatch(prefix: string, act: Action, k: int, id: int, res: Resource) {
    && act.Create? && act.stream == k && CreateId(act.request, act.random) == id
    && act.request.key == Dir(prefix, res) && act.request.rangeEnd == DirEnd(prefix, res)
  }

  lemma {:induction false} DirectoryOf(prefix: string, key: string, rangeEnd: string)
    requires ServedPair(prefix, key, rangeEnd)
    ensures exists res :: WatchedResource(prefix, key) == Some(res) && key == Dir(prefix, res) && rangeEnd == DirEnd(prefix, res)
  {
    var res := if key == prefix + "/routes" then RouteResource else UpstreamResource;
    assert (prefix + "/routes")[|prefix| + 1] == 'r' && (prefix + "/upstreams")[|prefix| + 1] == 'u';
    assert WatchedResource(prefix, key) == Some(res);
  }
}
