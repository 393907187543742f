/** The in-memory cache, pkg/cache. Its route.go and upstream.go hold the same code, so one
    generic class stands for both stores. */
module Cache {
  import opened Objects

  class ObjectStore<T(==)> {
    const idOf: T -> string
    var store: map<string, T>

    ghost predicate Valid()
      reads this
    {
      forall k :: k in store ==> idOf(store[k]) == k
    }

    constructor (idOf: T -> string)
      ensures Valid() && store == map[] && this.idOf == idOf
    {
      this.idOf := idOf;
      store := map[];
    }

    method Get(id: string) returns (r: Option<T>)
      ensures r.Some? <==> id in store
      ensures r.Some? ==> r.value == store[id]
    {
      if id !in store {
        return None;
      }
      return Some(store[id]);
    }

    /** Every stored object once, in an order nobody promises. */
    method List() returns (objs: seq<T>)
      requires Valid()
      ensures LastWins(idOf, objs) == store
      ensures |objs| == |store|
      ensures forall i, j :: 0 <= i < j < |objs| ==> idOf(objs[i]) != idOf(objs[j])
    {
      objs := [];
      var rest := store.Keys;
      while rest != {}
        invariant rest <= store.Keys
        invariant LastWins(idOf, objs) == store - rest
        invariant |objs| + |rest| == |store.Keys|
        invariant forall i :: 0 <= i < |objs| ==> idOf(objs[i]) in store.Keys - rest
        invariant forall i, j :: 0 <= i < j < |objs| ==> idOf(objs[i]) != idOf(objs[j])
        decreases |rest|
      {
        var k :| k in rest;
        ghost var before := objs;
        objs := objs + [store[k]];
        assert objs[..|objs| - 1] == before;
        rest := rest - {k};
      }
      assert store - rest == store;
    }

    method Insert(obj: T)
      requires Valid()
      modifies this`store
      ensures Valid() && store == old(store)[idOf(obj) := obj]
    {
      store := store[idOf(obj) := obj];
    }

    method Delete(id: string) returns (found: bool)
      requires Valid()
      modifies this`store
      ensures Valid() && store == old(store) - {id} && (found <==> id in old(store))
    {
      if id !in store {
        return false;
      }
      store := store - {id};
      return true;
    }
  }

  class InMemoryCache {
    const route: ObjectStore<Route>
    const upstream: ObjectStore<Upstream>

    ghost predicate Valid()
      reads this, route, upstream
    {
      && route.Valid() && upstream.Valid()
      && route.idOf == RouteId && upstream.idOf == UpstreamId
    }

    function View(): Store
      reads route, upstream
    {
      Store(route.store, upstream.store)
    }

    constructor ()
      ensures Valid() && View() == EMPTY_STORE && fresh(route) && fresh(upstream)
    {
      route := new ObjectStore<Route>(RouteId);
      upstream := new ObjectStore<Upstream>(UpstreamId);
    }
  }
}
