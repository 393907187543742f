/** pkg/set/string.go: sets of strings and their sorted listing. */
module StringSets {
  import opened Objects
  import opened Strings

  ghost predicate StrictlySorted(xs: seq<string>) {
    forall i, j :: 0 <= i < j < |xs| ==> Less(xs[i], xs[j])
  }

  function Elements(xs: seq<string>): set<string> {
    set x | x in xs
  }

  /** A strictly sorted listing of a set is unique. */
  lemma {:induction false} SortedListingUnique(a: seq<string>, b: seq<string>)
    requires StrictlySorted(a) && StrictlySorted(b)
    requires Elements(a) == Elements(b)
    ensures a == b
  {
    NoElements(a);
    NoElements(b);
    if a != [] {
      HeadIsLeast(a, b);
      HeadIsLeast(b, a);
      LessIsTotal(a[0], b[0]);
      TailElements(a);
      TailElements(b);
      SortedListingUnique(a[1..], b[1..]);
      assert a == [a[0]] + a[1..] && b == [b[0]] + b[1..];
    }
  }

  lemma {:induction false} NoElements(xs: seq<string>)
    ensures Elements(xs) == {} <==> xs == []
  {
    if xs != [] {
      assert xs[0] in Elements(xs);
    }
  }

  lemma {:induction false} ElementsAppend(a: seq<string>, b: seq<string>)
    ensures Elements(a + b) == Elements(a) + Elements(b)
  {
  }

  lemma {:induction false} HeadIsLeast(a: seq<string>, b: seq<string>)
    requires StrictlySorted(a) && a != [] && b != [] && Elements(a) == Elements(b)
    ensures a[0] == b[0] || Less(a[0], b[0])
  {
    assert b[0] in Elements(b);
    var i :| 0 <= i < |a| && a[i] == b[0];
  }

  lemma {:induction false} TailElements(a: seq<string>)
    requires StrictlySorted(a) && a != []
    ensures Elements(a[1..]) == Elements(a) - {a[0]}
  {
    forall x
      ensures x in a[1..] <==> x in a && x != a[0]
    {
      if x in a[1..] {
        var i :| 0 <= i < |a[1..]| && a[1..][i] == x;
        assert Less(a[0], a[i + 1]);
        LessIsTotal(a[0], a[0]);
      }
      if x in a && x != a[0] {
        var i :| 0 <= i < |a| && a[i] == x;
        assert a[1..][i - 1] == x;
      }
    }
  }

  function Insert(x: string, xs: seq<string>): seq<string> {
    if xs == [] then [x]
    else if x == xs[0] then xs
    else if Less(x, xs[0]) then [x] + xs
    else [xs[0]] + Insert(x, xs[1..])
  }

  function Sorted(xs: seq<string>): seq<string> {
    if xs == [] then [] else Insert(xs[|xs| - 1], Sorted(xs[..|xs| - 1]))
  }

  lemma {:induction false} InsertKeepsSorted(x: string, xs: seq<string>)
    requires StrictlySorted(xs)
    ensures StrictlySorted(Insert(x, xs)) && Elements(Insert(x, xs)) == Elements(xs) + {x}
  {
    if xs != [] && x != xs[0] {
      LessIsTotal(x, xs[0]);
      if Less(x, xs[0]) {
        ElementsAppend([x], xs);
        forall j | 0 <= j < |xs|
          ensures Less(x, xs[j])
        {
          if j > 0 {
            LessTransitive(x, xs[0], xs[j]);
          }
        }
        PrependKeepsSorted(x, xs);
      } else {
        InsertKeepsSorted(x, xs[1..]);
        HeadStays(x, xs, Insert(x, xs[1..]));
      }
    }
  }

  lemma {:induction false} HeadStays(x: string, xs: seq<string>, rest: seq<string>)
    requires StrictlySorted(xs) && xs != [] && Less(xs[0], x)
    requires StrictlySorted(rest) && Elements(rest) == Elements(xs[1..]) + {x}
    ensures StrictlySorted([xs[0]] + rest) && Elements([xs[0]] + rest) == Elements(xs) + {x}
  {
    assert xs == [xs[0]] + xs[1..];
    ElementsAppend([xs[0]], xs[1..]);
    ElementsAppend([xs[0]], rest);
    forall j | 0 <= j < |rest|
      ensures Less(xs[0], rest[j])
    {
      assert rest[j] in Elements(rest);
      if rest[j] != x {
        var i :| 0 <= i < |xs[1..]| && xs[1..][i] == rest[j];
        assert xs[i + 1] == rest[j];
      }
    }
    PrependKeepsSorted(xs[0], rest);
  }

  lemma {:induction false} PrependKeepsSorted(x: string, xs: seq<string>)
    requires StrictlySorted(xs) && forall j :: 0 <= j < |xs| ==> Less(x, xs[j])
    ensures StrictlySorted([x] + xs)
  {
  }

  /** Sorted lists each element of xs once, in order. */
  lemma {:induction false} SortedListing(xs: seq<string>)
    ensures StrictlySorted(Sorted(xs)) && Elements(Sorted(xs)) == Elements(xs)
  {
    if xs != [] {
      var front := xs[..|xs| - 1];
      SortedListing(front);
      InsertKeepsSorted(xs[|xs| - 1], Sorted(front));
      ElementsAppend(front, [xs[|xs| - 1]]);
      assert xs == front + [xs[|xs| - 1]];
    }
  }

  /** The sorted listing depends on the set of elements only, and determines it. */
  lemma {:induction false} SortedDependsOnSet(xs: seq<string>, ys: seq<string>)
    ensures Sorted(xs) == Sorted(ys) <==> Elements(xs) == Elements(ys)
  {
    SortedListing(xs);
    SortedListing(ys);
    if Elements(xs) == Elements(ys) {
      SortedListingUnique(Sorted(xs), Sorted(ys));
    }
  }

  /** Equal: a size test, then one membership pass in each direction. */
  method Equal(a: set<string>, b: set<string>) returns (eq: bool)
    ensures eq <==> a == b
  {
    if |a| != |b| {
      return false;
    }
    var rest := b;
    while rest != {}
      invariant rest <= b && b - rest <= a
      decreases |rest|
    {
      var e :| e in rest;
      if e !in a {
        return false;
      }
      rest := rest - {e};
    }
    rest := a;
    while rest != {}
      invariant rest <= a && b <= a && a - rest <= b
      decreases |rest|
    {
      var e :| e in rest;
      if e !in b {
        return false;
      }
      rest := rest - {e};
    }
    return true;
  }

  /** Strings, here ListStrings: every element once, in an order nobody promises. */
  method ListStrings(s: set<string>) returns (xs: seq<string>)
    ensures Elements(xs) == s && NoRepeats(xs)
  {
    xs := [];
    var rest := s;
    while rest != {}
      invariant rest <= s && Elements(xs) == s - rest && NoRepeats(xs)
      decreases |rest|
    {
      var e :| e in rest;
      ElementsAppend(xs, [e]);
      xs := xs + [e];
      rest := rest - {e};
    }
  }

  ghost predicate NoRepeats(xs: seq<string>) {
    forall i, j :: 0 <= i < j < |xs| ==> xs[i] != xs[j]
  }

  /** OrderedStrings: list, then sort in place. */
  method OrderedStrings(s: set<string>) returns (xs: seq<string>)
    ensures StrictlySorted(xs) && Elements(xs) == s
  {
    var listed := ListStrings(s);
    var a := new string[|listed|](i requires 0 <= i < |listed| => listed[i]);
    assert a[..] == listed;
    SortStrings(a);
    xs := a[..];
    SortedListing(listed);
  }

  /** sort.Strings on keys of a map, as an insertion sort. */
  method SortStrings(a: array<string>)
    requires NoRepeats(a[..])
    modifies a
    ensures a[..] == Sorted(old(a[..]))
  {
    ghost var xs := a[..];
    var n := 0;
    while n < a.Length
      invariant 0 <= n <= a.Length
      invariant a[..n] == Sorted(xs[..n]) && a[n..] == xs[n..]
    {
      assert xs[..n + 1][..n] == xs[..n];
      assert a[n] == a[n..][0] == xs[n];
      SortedListing(xs[..n]);
      assert xs[n] !in Elements(xs[..n]);
      assert a[n + 1..] == a[n..][1..] == xs[n..][1..] == xs[n + 1..];
      Sink(a, n);
      n := n + 1;
    }
    assert a[..n] == a[..] && xs[..n] == xs;
  }

  /** Moves element n down to its place among the sorted first n. */
  method Sink(a: array<string>, n: nat)
    requires n < a.Length && StrictlySorted(a[..n]) && a[n] !in Elements(a[..n])
    modifies a
    ensures a[..n + 1] == Insert(old(a[n]), old(a[..n])) && a[n + 1..] == old(a[n + 1..])
  {
    ghost var s, x := a[..n], a[n];
    var j := n;
    while j > 0 && Less(a[j], a[j - 1])
      invariant 0 <= j <= n && a[j] == x
      invariant forall k :: 0 <= k < j ==> a[k] == s[k]
      invariant forall k :: j < k <= n ==> a[k] == s[k - 1]
      invariant forall k :: n < k < a.Length ==> a[k] == old(a[k])
      invariant j < n ==> Less(x, s[j])
    {
      a[j], a[j - 1] := a[j - 1], a[j];
      j := j - 1;
    }
    if j > 0 {
      assert a[j - 1] == s[j - 1];
      assert s[j - 1] in Elements(s);
      LessIsTotal(x, s[j - 1]);
    }
    InsertAt(x, s, j);
    assert a[..n + 1] == s[..j] + [x] + s[j..];
  }

  lemma {:induction false} InsertAt(x: string, s: seq<string>, j: nat)
    requires j <= |s| && StrictlySorted(s)
    requires j > 0 ==> Less(s[j - 1], x)
    requires j < |s| ==> Less(x, s[j])
    ensures Insert(x, s) == s[..j] + [x] + s[j..]
  {
    if j > 0 {
      if j > 1 {
        LessTransitive(s[0], s[j - 1], x);
      }
      LessIsTotal(s[0], x);
      LessIsTotal(x, x);
      InsertAt(x, s[1..], j - 1);
      assert s[1..][..j - 1] == s[1..j] && s[1..][j - 1..] == s[j..];
      assert s[..j] == [s[0]] + s[1..j];
    } else if s != [] {
      LessIsTotal(x, s[0]);
      LessIsTotal(x, x);
      assert s[..0] + [x] + s[0..] == [x] + s;
    }
  }
}
