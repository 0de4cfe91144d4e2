/** Python's `sorted(...)` modelled as insertion sort over a total preorder,
    with the fact the probes rely on: two sorted permutations of the same
    multiset are equal, so a sorted result cannot show the order in which
    the worker pool happened to finish its tasks. */
module Sorting {
  import opened Common

  ghost predicate TotalPreorder<T(!new)>(le: (T, T) -> bool) {
    && (forall x, y :: le(x, y) || le(y, x))
    && (forall x, y, z :: le(x, y) && le(y, z) ==> le(x, z))
  }

  ghost predicate Sorted<T>(s: seq<T>, le: (T, T) -> bool) {
    forall i, j :: 0 <= i < j < |s| ==> le(s[i], s[j])
  }

  /** Elements of `s` that are equivalent under `le` are equal: the sort key
      determines the element. */
  ghost predicate KeyDetermines<T>(s: seq<T>, le: (T, T) -> bool) {
    forall x, y :: x in s && y in s && le(x, y) && le(y, x) ==> x == y
  }

  function Insert<T(!new)>(x: T, s: seq<T>, le: (T, T) -> bool): (r: seq<T>)
    requires TotalPreorder(le) && Sorted(s, le)
    ensures multiset(r) == multiset(s) + multiset{x}
    ensures Sorted(r, le)
  {
    if |s| == 0 then [x]
    else if le(x, s[0]) then
      HeadBound(s, x, le);
      [x] + s
    else
      var t := Insert(x, s[1..], le);
      assert s == [s[0]] + s[1..];
      LowerBound(s[0], s[1..], x, t, le);
      [s[0]] + t
  }

  /** Below the head of a sorted sequence is below all of it. */
  lemma HeadBound<T(!new)>(s: seq<T>, x: T, le: (T, T) -> bool)
    requires TotalPreorder(le) && Sorted(s, le) && |s| > 0 && le(x, s[0])
    ensures forall j :: 0 <= j < |s| ==> le(x, s[j])
  {
    forall j | 0 <= j < |s| ensures le(x, s[j]) {
      if j > 0 { assert le(s[0], s[j]); }
    }
  }

  /** A lower bound of `s` and of `x` bounds every element of a permutation
      of `s` plus `x`. */
  lemma LowerBound<T(!new)>(a: T, s: seq<T>, x: T, t: seq<T>, le: (T, T) -> bool)
    requires TotalPreorder(le) && !le(x, a)
    requires forall j :: 0 <= j < |s| ==> le(a, s[j])
    requires multiset(t) == multiset(s) + multiset{x}
    ensures forall j :: 0 <= j < |t| ==> le(a, t[j])
  {
    forall j | 0 <= j < |t| ensures le(a, t[j]) {
      assert t[j] in multiset(t);
      if t[j] != x {
        assert t[j] in multiset(s);
        var k :| 0 <= k < |s| && s[k] == t[j];
      }
    }
  }

  /** Python's `sorted(s)` under the order `le`: a sorted permutation. */
  function Sort<T(!new)>(s: seq<T>, le: (T, T) -> bool): (r: seq<T>)
    requires TotalPreorder(le)
    ensures multiset(r) == multiset(s)
    ensures |r| == |s|
    ensures Sorted(r, le)
  {
    if |s| == 0 then []
    else
      assert s == [s[0]] + s[1..];
      var r := Insert(s[0], Sort(s[1..], le), le);
      assert |r| == |multiset(r)|;
      r
  }

  lemma SortedHeads<T>(a: seq<T>, b: seq<T>, le: (T, T) -> bool)
    requires Sorted(a, le) && Sorted(b, le)
    requires multiset(a) == multiset(b)
    requires KeyDetermines(a, le)
    requires |a| > 0
    ensures |b| > 0 && a[0] == b[0]
  {
    assert |b| == |multiset(b)| == |multiset(a)| == |a|;
    assert a[0] in multiset(b) && b[0] in multiset(a);
    var j :| 0 <= j < |b| && b[j] == a[0];
    var i :| 0 <= i < |a| && a[i] == b[0];
    if i > 0 && j > 0 {
      assert le(b[0], b[j]) && le(a[0], a[i]);
      assert a[0] in a && b[0] in a;
    }
  }

  lemma KeyDeterminesTail<T>(a: seq<T>, le: (T, T) -> bool)
    requires |a| > 0 && KeyDetermines(a, le)
    ensures KeyDetermines(a[1..], le)
  {
    forall x, y | x in a[1..] && y in a[1..] && le(x, y) && le(y, x) ensures x == y {
      assert x in a && y in a;
    }
  }

  /** Two sorted sequences with the same elements are the same sequence,
      provided equivalent elements are equal. */
  lemma {:induction false} SortedUnique<T>(a: seq<T>, b: seq<T>, le: (T, T) -> bool)
    requires Sorted(a, le) && Sorted(b, le)
    requires multiset(a) == multiset(b)
    requires KeyDetermines(a, le)
    ensures a == b
  {
    if |a| == 0 {
      assert |b| == |multiset(b)| == 0;
    } else {
      SortedHeads(a, b, le);
      MultisetTail(a);
      MultisetTail(b);
      KeyDeterminesTail(a, le);
      SortedUnique(a[1..], b[1..], le);
    }
  }

  /** Sorting forgets the input order: permutations sort to the same result. */
  lemma SortPermutation<T(!new)>(s: seq<T>, t: seq<T>, le: (T, T) -> bool)
    requires TotalPreorder(le)
    requires multiset(s) == multiset(t)
    requires KeyDetermines(s, le)
    ensures Sort(s, le) == Sort(t, le)
  {
    var a, b := Sort(s, le), Sort(t, le);
    assert KeyDetermines(a, le) by {
      forall x, y | x in a && y in a && le(x, y) && le(y, x) ensures x == y {
        assert x in multiset(a) && y in multiset(a);
        assert x in multiset(s) && y in multiset(s);
      }
    }
    SortedUnique(a, b, le);
  }
}
