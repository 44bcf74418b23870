/** `Array.prototype.sort` with a comparator: a stable sort. */
module Sorting {
  ghost predicate TotalOrder<T(!new)>(le: (T, T) -> bool) {
    && (forall x, y :: le(x, y) || le(y, x))
    && (forall x, y, z :: le(x, y) && le(y, z) ==> le(x, z))
  }

  ghost predicate Sorted<T>(s: seq<T>, le: (T, T) -> bool) {
    forall i, j | 0 <= i < j < |s| :: le(s[i], s[j])
  }

  function Place<T>(x: T, s: seq<T>, le: (T, T) -> bool): seq<T> {
    if s == [] || le(s[|s| - 1], x) then s + [x]
    else Place(x, s[..|s| - 1], le) + [s[|s| - 1]]
  }

  function SortBy<T>(s: seq<T>, le: (T, T) -> bool): seq<T> {
    if s == [] then [] else Place(s[|s| - 1], SortBy(s[..|s| - 1], le), le)
  }

  lemma {:induction false} PlaceKeeps<T>(x: T, s: seq<T>, le: (T, T) -> bool)
    ensures multiset(Place(x, s, le)) == multiset(s) + multiset{x}
  {
    if s != [] && !le(s[|s| - 1], x) {
      PlaceKeeps(x, s[..|s| - 1], le);
      assert s == s[..|s| - 1] + [s[|s| - 1]];
    }
  }

  lemma {:induction false} PlaceSorts<T(!new)>(x: T, s: seq<T>, le: (T, T) -> bool)
    requires TotalOrder(le) && Sorted(s, le)
    ensures Sorted(Place(x, s, le), le)
  {
    if s != [] && !le(s[|s| - 1], x) {
      var n := |s| - 1;
      PlaceSorts(x, s[..n], le);
      PlaceKeeps(x, s[..n], le);
      var r := Place(x, s[..n], le);
      forall i | 0 <= i < |r|
        ensures le(r[i], s[n])
      {
        assert r[i] in multiset(r);
        assert r[i] in s[..n] || r[i] == x;
      }
    }
  }

  /** Sorted, and a permutation of what was given. */
  lemma {:induction false} SortBySorts<T(!new)>(s: seq<T>, le: (T, T) -> bool)
    requires TotalOrder(le)
    ensures Sorted(SortBy(s, le), le)
    ensures multiset(SortBy(s, le)) == multiset(s)
    ensures |SortBy(s, le)| == |s|
    ensures forall x :: x in SortBy(s, le) <==> x in s
  {
    if s != [] {
      var n := |s| - 1;
      SortBySorts(s[..n], le);
      PlaceSorts(s[n], SortBy(s[..n], le), le);
      PlaceKeeps(s[n], SortBy(s[..n], le), le);
      assert s == s[..n] + [s[n]];
    }
    SameElements(SortBy(s, le), s);
  }

  /** Those of `s` the order cannot tell from t, in the order they stand in. */
  function Ties<T>(s: seq<T>, le: (T, T) -> bool, t: T): seq<T> {
    if s == [] then []
    else Ties(s[..|s| - 1], le, t) + if le(s[|s| - 1], t) && le(t, s[|s| - 1]) then [s[|s| - 1]] else []
  }

  lemma TiesOneMore<T>(s: seq<T>, x: T, le: (T, T) -> bool, t: T)
    ensures Ties(s + [x], le, t) == Ties(s, le, t) + if le(x, t) && le(t, x) then [x] else []
  {
    assert (s + [x])[..|s|] == s;
  }

  lemma {:induction false} PlaceIsLast<T(!new)>(x: T, s: seq<T>, le: (T, T) -> bool, t: T)
    requires TotalOrder(le)
    ensures Ties(Place(x, s, le), le, t) == Ties(s, le, t) + if le(x, t) && le(t, x) then [x] else []
  {
    if s == [] || le(s[|s| - 1], x) {
      TiesOneMore(s, x, le, t);
    } else {
      var front, last := s[..|s| - 1], s[|s| - 1];
      PlaceIsLast(x, front, le, t);
      TiesOneMore(Place(x, front, le), last, le, t);
    }
  }

  /** What the order cannot tell apart stays in the order it came in. */
  lemma {:induction false} SortIsStable<T(!new)>(s: seq<T>, le: (T, T) -> bool, t: T)
    requires TotalOrder(le)
    ensures Ties(SortBy(s, le), le, t) == Ties(s, le, t)
  {
    if s != [] {
      SortIsStable(s[..|s| - 1], le, t);
      PlaceIsLast(s[|s| - 1], SortBy(s[..|s| - 1], le), le, t);
    }
  }

  /** The first of a sorted list is least. */
  lemma HeadIsLeast<T(!new)>(s: seq<T>, le: (T, T) -> bool)
    requires TotalOrder(le) && s != []
    ensures |SortBy(s, le)| == |s|
    ensures SortBy(s, le)[0] in s
    ensures forall x <- s :: le(SortBy(s, le)[0], x)
  {
    SortBySorts(s, le);
    var r := SortBy(s, le);
    assert r[0] in r;
    forall x <- s
      ensures le(r[0], x)
    {
      assert x in r;
      var i :| 0 <= i < |r| && r[i] == x;
      assert i > 0 ==> le(r[0], r[i]);
    }
  }

  lemma SameElements<T>(a: seq<T>, b: seq<T>)
    requires multiset(a) == multiset(b)
    ensures |a| == |b|
    ensures forall x :: x in a <==> x in b
  {
    assert |multiset(a)| == |a| && |multiset(b)| == |b|;
    assert forall x :: x in a <==> x in multiset(a);
    assert forall x :: x in b <==> x in multiset(b);
  }

  predicate Distinct<T(==)>(s: seq<T>) {
    forall i, j | 0 <= i < j < |s| :: s[i] != s[j]
  }

  /** Two strictly ordered lists of the same elements are the same list. */
  lemma {:induction false} OrderedListIsUnique<T(!new)>(a: seq<T>, b: seq<T>, less: (T, T) -> bool)
    requires forall x, y :: less(x, y) ==> !less(y, x)
    requires Sorted(a, less) && Sorted(b, less)
    requires forall x :: x in a <==> x in b
    ensures a == b
  {
    assert b != [] ==> b[0] in a;
    if a != [] {
      assert a[0] in b;
      var i :| 0 <= i < |b| && b[i] == a[0];
      assert b[0] in a;
      var j :| 0 <= j < |a| && a[j] == b[0];
      assert i == 0;
      forall x
        ensures x in a[1..] <==> x in b[1..]
      {
        if x in a[1..] {
          var k :| 1 <= k < |a| && a[k] == x;
          assert x in b && less(a[0], x);
        }
        if x in b[1..] {
          var k :| 1 <= k < |b| && b[k] == x;
          assert x in a && less(b[0], x);
        }
      }
      assert Sorted(a[1..], less) && Sorted(b[1..], less);
      OrderedListIsUnique(a[1..], b[1..], less);
    }
  }
}
