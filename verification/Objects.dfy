/** APISIX objects, the events that carry them, and the id-keyed stores that events change. */
module Objects {

  datatype Option<+T> = None | Some(value: T)

  datatype Node = Node(host: string, port: int, weight: int)

  datatype Timeout = Timeout(connect: int, read: int, send: int)

  datatype Route = Route(
    id: string,
    name: string,
    priority: int,
    status: int,
    hosts: seq<string>,
    uris: seq<string>,
    upstreamId: string,
    vars: seq<seq<string>>)

  datatype Upstream = Upstream(
    id: string,
    name: string,
    lbType: string,
    timeout: Option<Timeout>,
    nodes: seq<Node>)

  function RouteId(r: Route): string { r.id }
  function UpstreamId(u: Upstream): string { u.id }
  function UpstreamName(u: Upstream): string { u.name }

  /** What an event carries as interface{}; NoObject is nil or a type nobody knows. */
  datatype Object = RouteObject(route: Route) | UpstreamObject(upstream: Upstream) | NoObject

  datatype EventType = Add | Delete | Update

  datatype Event = Event(typ: EventType, body: Object, tombstone: Object, revision: int) {
    function Payload(): Object {
      if typ == Delete then tombstone else body
    }
  }

  function PutEvent(typ: EventType, body: Object): Event {
    Event(typ, body, NoObject, 0)
  }

  function DeleteEvent(tombstone: Object): Event {
    Event(Delete, NoObject, tombstone, 0)
  }

  /** The two id-keyed maps of the in-memory cache. */
  datatype Store = Store(routes: map<string, Route>, upstreams: map<string, Upstream>)

  const EMPTY_STORE := Store(map[], map[])

  /** Effect of one event; an unknown object and a delete that misses change nothing. */
  function Apply(s: Store, ev: Event): Store {
    match ev.Payload()
    case RouteObject(r) =>
      if ev.typ == Delete then s.(routes := s.routes - {r.id})
      else s.(routes := s.routes[r.id := r])
    case UpstreamObject(u) =>
      if ev.typ == Delete then s.(upstreams := s.upstreams - {u.id})
      else s.(upstreams := s.upstreams[u.id := u])
    case NoObject => s
  }

  function ApplyAll(s: Store, evs: seq<Event>): Store {
    if evs == [] then s
    else Apply(ApplyAll(s, evs[..|evs| - 1]), evs[|evs| - 1])
  }

  lemma {:induction false} ApplyAllAppend(s: Store, a: seq<Event>, b: seq<Event>)
    ensures ApplyAll(s, a + b) == ApplyAll(ApplyAll(s, a), b)
  {
    if b == [] {
      assert a + b == a;
    } else {
      ApplyAllAppend(s, a, b[..|b| - 1]);
      assert (a + b)[..|a + b| - 1] == a + b[..|b| - 1];
    }
  }

  /** The events of successive batches. */
  function Flatten(batches: seq<seq<Event>>): seq<Event> {
    if batches == [] then [] else Flatten(batches[..|batches| - 1]) + batches[|batches| - 1]
  }

  /** Where an object lives in the two stores. */
  datatype Key = RouteKey(id: string) | UpstreamKey(id: string) | NoKey

  lemma {:induction false} Associative<T>(a: seq<T>, b: seq<T>, c: seq<T>)
    ensures (a + b) + c == a + (b + c)
  {
  }

  function KeyOf(o: Object): Key {
    match o
    case RouteObject(r) => RouteKey(r.id)
    case UpstreamObject(u) => UpstreamKey(u.id)
    case NoObject => NoKey
  }

  function Lookup(s: Store, k: Key): Object {
    match k
    case RouteKey(id) => if id in s.routes then RouteObject(s.routes[id]) else NoObject
    case UpstreamKey(id) => if id in s.upstreams then UpstreamObject(s.upstreams[id]) else NoObject
    case NoKey => NoObject
  }

  lemma {:induction false} LookupUntouched(s: Store, evs: seq<Event>, k: Key)
    requires forall ev :: ev in evs ==> KeyOf(ev.Payload()) != k
    ensures Lookup(ApplyAll(s, evs), k) == Lookup(s, k)
  {
    if evs != [] {
      LookupUntouched(s, evs[..|evs| - 1], k);
      var last := evs[|evs| - 1];
      assert last in evs;
    }
  }

  /** Keeping the last occurrence of every id. */
  function LastWins<T>(id: T -> string, xs: seq<T>): map<string, T> {
    if xs == [] then map[]
    else
      var x := xs[|xs| - 1];
      LastWins(id, xs[..|xs| - 1])[id(x) := x]
  }

  ghost function Ids<T>(id: T -> string, xs: seq<T>): set<string> {
    set x | x in xs :: id(x)
  }

  lemma {:induction false} IdsStep<T>(id: T -> string, xs: seq<T>)
    requires xs != []
    ensures Ids(id, xs) == Ids(id, xs[..|xs| - 1]) + {id(xs[|xs| - 1])}
  {
    assert xs == xs[..|xs| - 1] + [xs[|xs| - 1]];
  }

  ghost predicate Distinct<T(!new)>(id: T -> string, xs: seq<T>) {
    forall i, j :: 0 <= i < j < |xs| ==> id(xs[i]) != id(xs[j])
  }

  lemma {:induction false} LastWinsEntries<T>(id: T -> string, xs: seq<T>)
    ensures LastWins(id, xs).Keys == Ids(id, xs)
    ensures forall k :: k in LastWins(id, xs) ==> LastWins(id, xs)[k] in xs && id(LastWins(id, xs)[k]) == k
  {
    if xs != [] {
      var front := xs[..|xs| - 1];
      LastWinsEntries(id, front);
      IdsStep(id, xs);
      assert xs == front + [xs[|xs| - 1]];
    }
  }

  lemma {:induction false} LastWinsSnoc<T>(id: T -> string, xs: seq<T>, x: T)
    ensures LastWins(id, xs + [x]) == LastWins(id, xs)[id(x) := x]
  {
    assert (xs + [x])[..|xs|] == xs;
  }

  /** Of every id the element at the last position that has it. */
  lemma {:induction false} LastWinsIsLast<T(!new)>(id: T -> string, xs: seq<T>, i: int)
    requires 0 <= i < |xs| && forall j :: i < j < |xs| ==> id(xs[j]) != id(xs[i])
    ensures id(xs[i]) in LastWins(id, xs) && LastWins(id, xs)[id(xs[i])] == xs[i]
  {
    if i < |xs| - 1 {
      LastWinsIsLast(id, xs[..|xs| - 1], i);
    }
  }

  lemma {:induction false} UnionPut<T>(a: map<string, T>, b: map<string, T>, k: string, x: T)
    ensures a + b[k := x] == (a + b)[k := x]
  {
  }

  lemma {:induction false} LastWinsAppend<T>(id: T -> string, a: seq<T>, b: seq<T>)
    ensures LastWins(id, a + b) == LastWins(id, a) + LastWins(id, b)
  {
    if b == [] {
      assert a + b == a;
    } else {
      LastWinsAppend(id, a, b[..|b| - 1]);
      assert (a + b)[..|a + b| - 1] == a + b[..|b| - 1];
    }
  }

  /** With distinct ids nothing is overwritten. */
  lemma {:induction false} LastWinsDistinct<T(!new)>(id: T -> string, xs: seq<T>, x: T)
    requires Distinct(id, xs) && x in xs
    ensures id(x) in LastWins(id, xs) && LastWins(id, xs)[id(x)] == x
  {
    var front := xs[..|xs| - 1];
    assert xs == front + [xs[|xs| - 1]];
    if x in front {
      LastWinsDistinct(id, front, x);
      var i :| 0 <= i < |front| && front[i] == x;
      assert xs[i] == x;
    }
  }

  lemma {:induction false} SomeElement<T>(s: set<T>) returns (x: T)
    requires s != {}
    ensures x in s
  {
    x :| x in s;
  }
}
