/** The diff of two object lists, pkg/apisix/route.go and pkg/apisix/upstream.go: both files
    hold the same algorithm, so one generic member stands for the two. */
module Diff {
  import opened Objects

  /** The elements of r2 whose id the old map lacks, in order, repetitions kept. */
  function Added<T>(id: T -> string, old1: map<string, T>, r2: seq<T>): seq<T> {
    if r2 == [] then []
    else
      var r := r2[|r2| - 1];
      Added(id, old1, r2[..|r2| - 1]) + if id(r) in old1 then [] else [r]
  }

  function Deleted<T>(id: T -> string, new2: map<string, T>, r1: seq<T>): seq<T> {
    if r1 == [] then []
    else
      var r := r1[|r1| - 1];
      Deleted(id, new2, r1[..|r1| - 1]) + if id(r) in new2 then [] else [r]
  }

  /** The new value of every element of r1 that differs from it. */
  function Updated<T(==)>(id: T -> string, new2: map<string, T>, r1: seq<T>): seq<T> {
    if r1 == [] then []
    else
      var r := r1[|r1| - 1];
      Updated(id, new2, r1[..|r1| - 1]) + if id(r) in new2 && r != new2[id(r)] then [new2[id(r)]] else []
  }

  datatype Changes<T> = Changes(added: seq<T>, deleted: seq<T>, updated: seq<T>)

  function Compare<T(==)>(id: T -> string, r1: seq<T>, r2: seq<T>): Changes<T> {
    Changes(
      Added(id, LastWins(id, r1), r2),
      Deleted(id, LastWins(id, r2), r1),
      Updated(id, LastWins(id, r2), r1))
  }

  /** What a store holds after the additions, then the deletions, then the updates. */
  ghost function Patch<T>(id: T -> string, store: map<string, T>, c: Changes<T>): map<string, T> {
    store + LastWins(id, c.added) - Ids(id, c.deleted) + LastWins(id, c.updated)
  }

  /** Element by element and in order: an addition is a new element whose id the old side lacks, a
      deletion an old one whose id the new side lacks, and an update, for every old element that
      differs from it, the new element of its id. */
  lemma {:induction false} OneByOne<T>(id: T -> string, map1: map<string, T>, xs: seq<T>, x: T)
    ensures Added(id, map1, xs + [x]) == Added(id, map1, xs) + if id(x) in map1 then [] else [x]
    ensures Deleted(id, map1, xs + [x]) == Deleted(id, map1, xs) + if id(x) in map1 then [] else [x]
    ensures Updated(id, map1, xs + [x]) == Updated(id, map1, xs) + if id(x) in map1 && map1[id(x)] != x then [map1[id(x)]] else []
    ensures Added(id, map1, []) == [] && Deleted(id, map1, []) == [] && Updated(id, map1, []) == []
  {
    assert (xs + [x])[..|xs|] == xs;
    assert Added(id, map1, xs) + [] == Added(id, map1, xs);
    assert Deleted(id, map1, xs) + [] == Deleted(id, map1, xs);
    assert Updated(id, map1, xs) + [] == Updated(id, map1, xs);
  }

  lemma {:induction false} AddedWins<T>(id: T -> string, old1: map<string, T>, r2: seq<T>)
    ensures LastWins(id, Added(id, old1, r2)) == LastWins(id, r2) - old1.Keys
  {
    if r2 != [] {
      var front, r := r2[..|r2| - 1], r2[|r2| - 1];
      AddedWins(id, old1, front);
      assert r2 == front + [r];
      OneByOne(id, old1, front, r);
      LastWinsSnoc(id, front, r);
      PutThenWithout(LastWins(id, front), old1.Keys, id(r), r);
      if id(r) !in old1 {
        LastWinsSnoc(id, Added(id, old1, front), r);
      } else {
        assert Added(id, old1, front) + [] == Added(id, old1, front);
      }
    }
  }

  lemma {:induction false} PutThenWithout<T>(m: map<string, T>, keys: set<string>, k: string, x: T)
    ensures m[k := x] - keys == if k in keys then m - keys else (m - keys)[k := x]
  {
  }

  lemma {:induction false} DeletedIds<T>(id: T -> string, new2: map<string, T>, r1: seq<T>)
    ensures Ids(id, Deleted(id, new2, r1)) == Ids(id, r1) - new2.Keys
  {
    if r1 != [] {
      var front, r := r1[..|r1| - 1], r1[|r1| - 1];
      DeletedIds(id, new2, front);
      IdsStep(id, r1);
      if id(r) !in new2 {
        var d := Deleted(id, new2, front);
        assert (d + [r])[..|d|] == d;
        IdsStep(id, d + [r]);
      } else {
        assert Deleted(id, new2, r1) == Deleted(id, new2, front);
      }
    }
  }

  /** Updates carry new values only, and reach every id whose last value changed. */
  lemma {:induction false} UpdatedWins<T>(id: T -> string, new2: map<string, T>, r1: seq<T>)
    requires forall k :: k in new2 ==> id(new2[k]) == k
    ensures var w := LastWins(id, Updated(id, new2, r1));
      && (forall k :: k in w ==> k in new2 && w[k] == new2[k] && k in LastWins(id, r1))
      && (forall k :: k in LastWins(id, r1) && k in new2 && LastWins(id, r1)[k] != new2[k] ==> k in w)
  {
    if r1 != [] {
      var front, r := r1[..|r1| - 1], r1[|r1| - 1];
      UpdatedWins(id, new2, front);
      var u := Updated(id, new2, front);
      if id(r) in new2 && r != new2[id(r)] {
        assert (u + [new2[id(r)]])[..|u|] == u;
      } else {
        assert Updated(id, new2, r1) == u;
      }
    }
  }

  /** Diff correctness, repeated ids included: beside objects of other owners, the store of
      the old list becomes the store of the new list. */
  lemma {:induction false} PatchMovesSnapshot<T>(id: T -> string, others: map<string, T>, r1: seq<T>, r2: seq<T>)
    requires others.Keys !! LastWins(id, r1).Keys
    requires others.Keys !! LastWins(id, r2).Keys
    ensures Patch(id, others + LastWins(id, r1), Compare(id, r1, r2)) == others + LastWins(id, r2)
  {
    var m1, m2 := LastWins(id, r1), LastWins(id, r2);
    LastWinsEntries(id, r1);
    LastWinsEntries(id, r2);
    AddedWins(id, m1, r2);
    DeletedIds(id, m2, r1);
    UpdatedWins(id, m2, r1);
    var c := Compare(id, r1, r2);
    PatchedMap(others, m1, m2, LastWins(id, c.added), Ids(id, c.deleted), LastWins(id, c.updated));
  }

  lemma {:induction false} PatchedMap<T>(others: map<string, T>, m1: map<string, T>, m2: map<string, T>,
                      added: map<string, T>, deleted: set<string>, updated: map<string, T>)
    requires others.Keys !! m1.Keys && others.Keys !! m2.Keys
    requires added == m2 - m1.Keys
    requires deleted == m1.Keys - m2.Keys
    requires forall k :: k in updated ==> k in m2 && updated[k] == m2[k]
    requires forall k :: k in m1 && k in m2 && m1[k] != m2[k] ==> k in updated
    ensures others + m1 + added - deleted + updated == others + m2
  {
  }

  /** A diff is empty exactly when the ids agree and no element of the old list, not even a
      shadowed one, differs from what the new list ends up with. */
  lemma {:induction false} EmptyDiff<T>(id: T -> string, r1: seq<T>, r2: seq<T>)
    ensures Compare(id, r1, r2) == Changes([], [], []) <==>
      && Ids(id, r1) == Ids(id, r2)
      && forall r :: r in r1 && id(r) in LastWins(id, r2) ==> r == LastWins(id, r2)[id(r)]
  {
    LastWinsEntries(id, r1);
    LastWinsEntries(id, r2);
    EmptyAdded(id, LastWins(id, r1), r2);
    EmptyDeleted(id, LastWins(id, r2), r1);
    EmptyUpdated(id, LastWins(id, r2), r1);
    if Ids(id, r1) == Ids(id, r2) {
      assert forall r :: r in r2 ==> id(r) in Ids(id, r1);
      assert forall r :: r in r1 ==> id(r) in Ids(id, r2);
    }
    if forall r :: r in r2 ==> id(r) in LastWins(id, r1) {
      assert forall k :: k in Ids(id, r2) ==> k in Ids(id, r1);
    }
    if forall r :: r in r1 ==> id(r) in LastWins(id, r2) {
      assert forall k :: k in Ids(id, r1) ==> k in Ids(id, r2);
    }
  }

  lemma {:induction false} EmptyAdded<T>(id: T -> string, old1: map<string, T>, r2: seq<T>)
    ensures Added(id, old1, r2) == [] <==> forall r :: r in r2 ==> id(r) in old1
  {
    if r2 != [] {
      EmptyAdded(id, old1, r2[..|r2| - 1]);
      assert r2 == r2[..|r2| - 1] + [r2[|r2| - 1]];
    }
  }

  lemma {:induction false} EmptyDeleted<T>(id: T -> string, new2: map<string, T>, r1: seq<T>)
    ensures Deleted(id, new2, r1) == [] <==> forall r :: r in r1 ==> id(r) in new2
  {
    if r1 != [] {
      EmptyDeleted(id, new2, r1[..|r1| - 1]);
      assert r1 == r1[..|r1| - 1] + [r1[|r1| - 1]];
    }
  }

  lemma {:induction false} EmptyUpdated<T>(id: T -> string, new2: map<string, T>, r1: seq<T>)
    ensures Updated(id, new2, r1) == [] <==>
      forall r :: r in r1 && id(r) in new2 ==> r == new2[id(r)]
  {
    if r1 != [] {
      EmptyUpdated(id, new2, r1[..|r1| - 1]);
      assert r1 == r1[..|r1| - 1] + [r1[|r1| - 1]];
    }
  }

  /** With distinct ids the diff is minimal: no id is named twice in it, additions are new,
      deletions hit, and updates carry a changed value. */
  lemma {:induction false} DistinctDiffIsMinimal<T(!new)>(id: T -> string, r1: seq<T>, r2: seq<T>)
    requires Distinct(id, r1) && Distinct(id, r2)
    ensures var c := Compare(id, r1, r2);
      && Distinct(id, c.added + c.deleted + c.updated)
      && (forall r :: r in c.added ==> id(r) !in LastWins(id, r1))
      && (forall r :: r in c.deleted ==> id(r) in LastWins(id, r1))
      && (forall r :: r in c.updated ==> id(r) in LastWins(id, r1) && LastWins(id, r1)[id(r)] != r)
  {
    var m1, m2 := LastWins(id, r1), LastWins(id, r2);
    LastWinsEntries(id, r1);
    LastWinsEntries(id, r2);
    AddedDistinct(id, m1, r2);
    DeletedDistinct(id, m2, r1);
    UpdatedDistinct(id, m2, r1);
    forall r | r in r1
      ensures id(r) in m1 && m1[id(r)] == r
    {
      LastWinsDistinct(id, r1, r);
    }
  }

  lemma {:induction false} AddedDistinct<T(!new)>(id: T -> string, old1: map<string, T>, r2: seq<T>)
    requires Distinct(id, r2)
    ensures var a := Added(id, old1, r2);
      Distinct(id, a) && forall r :: r in a ==> r in r2 && id(r) !in old1
  {
    if r2 != [] {
      var front := r2[..|r2| - 1];
      AddedDistinct(id, old1, front);
      assert r2 == front + [r2[|r2| - 1]];
    }
  }

  lemma {:induction false} DeletedDistinct<T(!new)>(id: T -> string, new2: map<string, T>, r1: seq<T>)
    requires Distinct(id, r1)
    ensures var d := Deleted(id, new2, r1);
      Distinct(id, d) && forall r :: r in d ==> r in r1 && id(r) !in new2
  {
    if r1 != [] {
      var front := r1[..|r1| - 1];
      DeletedDistinct(id, new2, front);
      assert r1 == front + [r1[|r1| - 1]];
    }
  }

  lemma {:induction false} UpdatedDistinct<T(!new)>(id: T -> string, new2: map<string, T>, r1: seq<T>)
    requires Distinct(id, r1)
    requires forall k :: k in new2 ==> id(new2[k]) == k
    ensures var u := Updated(id, new2, r1);
      && Distinct(id, u)
      && forall n :: n in u ==> exists r :: r in r1 && id(r) == id(n) && id(n) in new2 && n == new2[id(n)] && n != r
  {
    if r1 != [] {
      var front, r := r1[..|r1| - 1], r1[|r1| - 1];
      UpdatedDistinct(id, new2, front);
      assert r1 == front + [r];
      forall n | n in Updated(id, new2, front)
        ensures id(n) != id(r)
      {
        var o :| o in front && id(o) == id(n) && id(n) in new2 && n == new2[id(n)] && n != o;
      }
    }
  }

  lemma {:induction false} SnapshotMoves<T>(id: T -> string, r1: seq<T>, r2: seq<T>)
    ensures Patch(id, LastWins(id, r1), Compare(id, r1, r2)) == LastWins(id, r2)
  {
    PatchMovesSnapshot(id, map[], r1, r2);
    assert map[] + LastWins(id, r1) == LastWins(id, r1);
    assert map[] + LastWins(id, r2) == LastWins(id, r2);
  }

  method IndexById<T>(id: T -> string, xs: seq<T>) returns (m: map<string, T>)
    ensures m == LastWins(id, xs)
  {
    m := map[];
    for i := 0 to |xs|
      invariant m == LastWins(id, xs[..i])
    {
      assert xs[..i + 1][..i] == xs[..i];
      m := m[id(xs[i]) := xs[i]];
    }
    assert xs[..|xs|] == xs;
  }

  /** CompareRoutes and CompareUpstreams. */
  method CompareLists<T(==)>(id: T -> string, r1: seq<T>, r2: seq<T>)
    returns (added: seq<T>, deleted: seq<T>, updated: seq<T>)
    ensures Changes(added, deleted, updated) == Compare(id, r1, r2)
    ensures Patch(id, LastWins(id, r1), Changes(added, deleted, updated)) == LastWins(id, r2)
  {
    SnapshotMoves(id, r1, r2);
    EmptySides(id, r1, r2);
    if |r1| == 0 {
      return r2, [], [];
    }
    if |r2| == 0 {
      return [], r1, [];
    }
    var r1Map := IndexById(id, r1);
    var r2Map := IndexById(id, r2);
    added, deleted, updated := [], [], [];
    for i := 0 to |r2|
      invariant added == Added(id, r1Map, r2[..i])
    {
      assert r2[..i + 1][..i] == r2[..i];
      if id(r2[i]) !in r1Map {
        added := added + [r2[i]];
      }
    }
    for i := 0 to |r1|
      invariant deleted == Deleted(id, r2Map, r1[..i])
      invariant updated == Updated(id, r2Map, r1[..i])
    {
      assert r1[..i + 1][..i] == r1[..i];
      var ro := r1[i];
      if id(ro) !in r2Map {
        deleted := deleted + [ro];
      } else if ro != r2Map[id(ro)] {
        updated := updated + [r2Map[id(ro)]];
      }
    }
    assert r1[..|r1|] == r1 && r2[..|r2|] == r2;
  }

  /** The early returns for a nil list agree with the general algorithm. */
  lemma {:induction false} EmptySides<T>(id: T -> string, r1: seq<T>, r2: seq<T>)
    ensures r1 == [] ==> Compare(id, r1, r2) == Changes(r2, [], [])
    ensures r2 == [] ==> Compare(id, r1, r2) == Changes([], r1, [])
  {
    KeepAll(id, r2);
    KeepAll(id, r1);
    EmptyUpdated(id, map[], r1);
  }

  lemma {:induction false} KeepAll<T>(id: T -> string, r: seq<T>)
    ensures Added(id, map[], r) == r && Deleted(id, map[], r) == r
  {
    if r != [] {
      KeepAll(id, r[..|r| - 1]);
    }
  }
}
