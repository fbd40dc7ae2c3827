/** Stable sorting by a key order, as LINQ's `OrderBy` / `OrderByDescending`
    do it. Sorting works on the positions 0..n-1 of the input, which makes
    "stable" easy to state: elements with equivalent keys keep their input
    order. */
module StableSort {

  /** `le(x, y)`: `x` may be placed before `y`. */
  ghost predicate TotalPreorder<T(!new)>(le: (T, T) -> bool) {
    && (forall x, y :: le(x, y) || le(y, x))
    && (forall x, y, z :: le(x, y) && le(y, z) ==> le(x, z))
  }

  predicate InRange(s: seq<nat>, n: nat) {
    forall i :: 0 <= i < |s| ==> s[i] < n
  }

  /** The positions `s` list the elements of `a` in key order. */
  ghost predicate Sorted<T>(a: seq<T>, le: (T, T) -> bool, s: seq<nat>)
    requires InRange(s, |a|)
  {
    forall i, j :: 0 <= i < j < |s| ==> le(a[s[i]], a[s[j]])
  }

  /** Elements with equivalent keys appear in input order. */
  ghost predicate Stable<T>(a: seq<T>, le: (T, T) -> bool, s: seq<nat>)
    requires InRange(s, |a|)
  {
    forall i, j :: 0 <= i < j < |s| && le(a[s[j]], a[s[i]]) ==> s[i] < s[j]
  }

  /** The positions 0..n-1 in order. */
  function Range(n: nat): (r: seq<nat>)
    ensures |r| == n
    ensures forall i :: 0 <= i < n ==> r[i] == i
  {
    seq(n, i requires 0 <= i => i)
  }

  /** Inserts position `x` after every position whose element may precede
      `a[x]`. */
  function Insert<T>(a: seq<T>, le: (T, T) -> bool, s: seq<nat>, x: nat): (r: seq<nat>)
    requires x < |a| && InRange(s, |a|)
    ensures InRange(r, |a|)
    ensures multiset(r) == multiset(s) + multiset{x}
    ensures forall i :: 0 <= i < |r| ==> r[i] == x || r[i] in s
    decreases |s|
  {
    if |s| == 0 then [x]
    else if le(a[s[0]], a[x]) then
      var rest := Insert(a, le, s[1..], x);
      assert s == [s[0]] + s[1..];
      [s[0]] + rest
    else [x] + s
  }

  /** The positions of `a[..n]`, sorted by insertion one after another. */
  function SortPositions<T>(a: seq<T>, le: (T, T) -> bool, n: nat): (r: seq<nat>)
    requires n <= |a|
    ensures InRange(r, |a|)
    ensures multiset(r) == multiset(Range(n))
    ensures |r| == n
  {
    if n == 0 then []
    else
      var r := Insert(a, le, SortPositions(a, le, n - 1), n - 1);
      assert Range(n) == Range(n - 1) + [n - 1];
      assert |multiset(r)| == n;
      r
  }

  /** `a` reordered by `le`: the elements of `a` read through the sorted
      positions. */
  function SortBy<T>(a: seq<T>, le: (T, T) -> bool): (r: seq<T>)
    ensures |r| == |a|
    ensures forall i :: 0 <= i < |r| ==> r[i] in a
    ensures forall k :: 0 <= k < |a| ==> a[k] in r
  {
    var p := SortPositions(a, le, |a|);
    var r := Pick(a, p);
    assert forall k :: 0 <= k < |a| ==> a[k] in r by {
      PermutationCovers(p, |a|);
      forall k | 0 <= k < |a|
        ensures a[k] in r
      {
        assert k in p;
        var i :| 0 <= i < |p| && p[i] == k;
        assert r[i] == a[k];
      }
    }
    r
  }

  /** The elements of `a` at positions `p`, in the order of `p`. */
  function Pick<T>(a: seq<T>, p: seq<nat>): (r: seq<T>)
    requires InRange(p, |a|)
    ensures |r| == |p|
    ensures forall i :: 0 <= i < |p| ==> r[i] == a[p[i]]
  {
    seq(|p|, i requires 0 <= i < |p| => a[p[i]])
  }

  predicate DistinctPositions(p: seq<nat>) {
    forall i, j :: 0 <= i < j < |p| ==> p[i] != p[j]
  }

  /** Each position occurs once in 0..n-1. */
  lemma {:induction false} RangeOnce(n: nat)
    ensures forall x :: multiset(Range(n))[x] <= 1
  {
    if n > 0 {
      RangeOnce(n - 1);
      assert Range(n) == Range(n - 1) + [n - 1];
      assert n - 1 !in Range(n - 1);
    }
  }

  /** A permutation of 0..n-1 lists every position, each exactly once. */
  lemma PermutationCovers(p: seq<nat>, n: nat)
    requires multiset(p) == multiset(Range(n))
    ensures forall k :: 0 <= k < n ==> k in p
    ensures DistinctPositions(p)
  {
    forall k | 0 <= k < n
      ensures k in p
    {
      assert Range(n)[k] == k;
      assert k in multiset(Range(n));
    }
    RangeOnce(n);
    forall i, j | 0 <= i < j < |p|
      ensures p[i] != p[j]
    {
      TwiceCounted(p, i, j);
    }
  }

  /** Equal entries at two positions count twice. */
  lemma TwiceCounted(p: seq<nat>, i: nat, j: nat)
    requires i < j < |p|
    ensures p[i] == p[j] ==> multiset(p)[p[i]] >= 2
  {
    if p[i] == p[j] {
      assert p == p[..i] + [p[i]] + p[i + 1..j] + [p[j]] + p[j + 1..];
    }
  }

  /** Sorting keeps a list free of repeated elements. */
  lemma SortByDistinct<T>(a: seq<T>, le: (T, T) -> bool)
    requires forall i, j :: 0 <= i < j < |a| ==> a[i] != a[j]
    ensures var r := SortBy(a, le);
            forall i, j :: 0 <= i < j < |r| ==> r[i] != r[j]
  {
    var p := SortPositions(a, le, |a|);
    PermutationCovers(p, |a|);
    var r := SortBy(a, le);
    forall i, j | 0 <= i < j < |r|
      ensures r[i] != r[j]
    {
      assert r[i] == a[p[i]] && r[j] == a[p[j]];
      if p[i] > p[j] {
        assert a[p[j]] != a[p[i]];
      }
    }
  }

  lemma {:induction false} InsertSorted<T(!new)>(a: seq<T>, le: (T, T) -> bool, s: seq<nat>, x: nat)
    requires TotalPreorder(le)
    requires x < |a| && InRange(s, |a|)
    requires Sorted(a, le, s)
    ensures Sorted(a, le, Insert(a, le, s, x))
    decreases |s|
  {
    if |s| == 0 {
    } else if le(a[s[0]], a[x]) {
      var tail := s[1..];
      assert Sorted(a, le, tail);
      InsertSorted(a, le, tail, x);
      SortedCons(a, le, s, Insert(a, le, tail, x), x);
    } else {
      InsertFrontSorted(a, le, s, x);
    }
  }

  /** `s[0]` followed by a sorted list of `x` and `s[1..]` is sorted when
      `a[s[0]]` may precede `a[x]`. */
  lemma SortedCons<T>(a: seq<T>, le: (T, T) -> bool, s: seq<nat>, rest: seq<nat>, x: nat)
    requires x < |a| && InRange(s, |a|) && InRange(rest, |a|) && |s| > 0
    requires Sorted(a, le, s) && Sorted(a, le, rest) && le(a[s[0]], a[x])
    requires forall i :: 0 <= i < |rest| ==> rest[i] == x || rest[i] in s[1..]
    ensures InRange([s[0]] + rest, |a|)
    ensures Sorted(a, le, [s[0]] + rest)
  {
    var r := [s[0]] + rest;
    forall i, j | 0 <= i < j < |r|
      ensures le(a[r[i]], a[r[j]])
    {
      if i > 0 {
        assert r[i] == rest[i - 1] && r[j] == rest[j - 1];
      } else if r[j] != x {
        assert r[j] in s[1..];
        var m :| 0 <= m < |s| - 1 && s[1..][m] == r[j];
        assert s[m + 1] == r[j];
      }
    }
  }

  /** `x`, strictly before `a[s[0]]` in key order, can go in front of a
      sorted list. */
  lemma InsertFrontSorted<T(!new)>(a: seq<T>, le: (T, T) -> bool, s: seq<nat>, x: nat)
    requires TotalPreorder(le)
    requires x < |a| && InRange(s, |a|) && |s| > 0
    requires Sorted(a, le, s) && !le(a[s[0]], a[x])
    ensures InRange([x] + s, |a|)
    ensures Sorted(a, le, [x] + s)
  {
    var r := [x] + s;
    assert le(a[x], a[s[0]]);
    forall i, j | 0 <= i < j < |r|
      ensures le(a[r[i]], a[r[j]])
    {
      if i > 0 {
        assert r[i] == s[i - 1] && r[j] == s[j - 1];
      } else if j > 1 {
        assert le(a[s[0]], a[s[j - 1]]);
      }
    }
  }

  /** Inserting after the first position keeps stability: every position
      already listed is smaller than `x`. */
  lemma {:induction false} InsertStable<T(!new)>(a: seq<T>, le: (T, T) -> bool, s: seq<nat>, x: nat)
    requires TotalPreorder(le)
    requires x < |a| && InRange(s, |a|)
    requires Sorted(a, le, s) && Stable(a, le, s)
    requires forall i :: 0 <= i < |s| ==> s[i] < x
    ensures Stable(a, le, Insert(a, le, s, x))
    decreases |s|
  {
    if |s| == 0 {
    } else if le(a[s[0]], a[x]) {
      var tail := s[1..];
      assert Sorted(a, le, tail) && Stable(a, le, tail);
      InsertStable(a, le, tail, x);
      var rest := Insert(a, le, tail, x);
      StableCons(a, le, s, rest, x);
    } else {
      InsertFrontStable(a, le, s, x);
    }
  }

  /** `s[0]` followed by a stable list of `x` and `s[1..]` is stable. */
  lemma StableCons<T>(a: seq<T>, le: (T, T) -> bool, s: seq<nat>, rest: seq<nat>, x: nat)
    requires x < |a| && InRange(s, |a|) && InRange(rest, |a|) && |s| > 0
    requires Stable(a, le, s) && Stable(a, le, rest)
    requires forall i :: 0 <= i < |s| ==> s[i] < x
    requires forall i :: 0 <= i < |rest| ==> rest[i] == x || rest[i] in s[1..]
    ensures InRange([s[0]] + rest, |a|)
    ensures Stable(a, le, [s[0]] + rest)
  {
    var r := [s[0]] + rest;
    forall i, j | 0 <= i < j < |r|
      ensures le(a[r[j]], a[r[i]]) ==> r[i] < r[j]
    {
      if i > 0 {
        assert r[i] == rest[i - 1] && r[j] == rest[j - 1];
      } else if r[j] != x {
        assert r[j] in s[1..];
        var m :| 0 <= m < |s| - 1 && s[1..][m] == r[j];
        assert s[m + 1] == r[j];
      }
    }
  }

  /** `x`, larger than every listed position and strictly after `a[s[0]]`
      in key order, can go in front. */
  lemma InsertFrontStable<T(!new)>(a: seq<T>, le: (T, T) -> bool, s: seq<nat>, x: nat)
    requires TotalPreorder(le)
    requires x < |a| && InRange(s, |a|) && |s| > 0
    requires Sorted(a, le, s) && Stable(a, le, s)
    requires !le(a[s[0]], a[x])
    ensures InRange([x] + s, |a|)
    ensures Stable(a, le, [x] + s)
  {
    var r := [x] + s;
    forall i, j | 0 <= i < j < |r|
      ensures le(a[r[j]], a[r[i]]) ==> r[i] < r[j]
    {
      if i > 0 {
        assert r[i] == s[i - 1] && r[j] == s[j - 1];
      } else if j > 1 {
        assert le(a[s[0]], a[s[j - 1]]);
        assert !le(a[s[j - 1]], a[x]);
      }
    }
  }

  /** The result of `SortPositions` is in key order and stable. */
  lemma {:induction false} SortPositionsCorrect<T(!new)>(a: seq<T>, le: (T, T) -> bool, n: nat)
    requires TotalPreorder(le) && n <= |a|
    ensures Sorted(a, le, SortPositions(a, le, n))
    ensures Stable(a, le, SortPositions(a, le, n))
  {
    var r := SortPositions(a, le, n);
    if n == 0 {
      assert r == [];
    } else {
      var s := SortPositions(a, le, n - 1);
      SortPositionsCorrect(a, le, n - 1);
      PositionsBelow(s, n - 1);
      InsertCorrect(a, le, s, n - 1);
      assert r == Insert(a, le, s, n - 1);
    }
  }

  /** Inserting a position larger than every listed one into a sorted,
      stable list keeps it sorted and stable. */
  lemma InsertCorrect<T(!new)>(a: seq<T>, le: (T, T) -> bool, s: seq<nat>, x: nat)
    requires TotalPreorder(le)
    requires x < |a| && InRange(s, |a|)
    requires Sorted(a, le, s) && Stable(a, le, s)
    requires forall i :: 0 <= i < |s| ==> s[i] < x
    ensures Sorted(a, le, Insert(a, le, s, x)) && Stable(a, le, Insert(a, le, s, x))
  {
    InsertSorted(a, le, s, x);
    InsertStable(a, le, s, x);
  }

  /** A permutation of 0..n-1 holds only positions below `n`. */
  lemma PositionsBelow(s: seq<nat>, n: nat)
    requires multiset(s) == multiset(Range(n))
    ensures forall i :: 0 <= i < |s| ==> s[i] < n
  {
    forall i | 0 <= i < |s|
      ensures s[i] < n
    {
      assert s[i] in multiset(Range(n));
      var k :| 0 <= k < n && Range(n)[k] == s[i];
    }
  }

  /** `SortBy` lists `a` in key order, keeping equivalent elements in input
      order: the output is `a` read through a sorted, stable permutation of
      its positions. */
  lemma SortByCorrect<T(!new)>(a: seq<T>, le: (T, T) -> bool)
    requires TotalPreorder(le)
    ensures var p := SortPositions(a, le, |a|);
            && multiset(p) == multiset(Range(|a|))
            && Sorted(a, le, p) && Stable(a, le, p)
            && SortBy(a, le) == Pick(a, p)
  {
    SortPositionsCorrect(a, le, |a|);
  }

  /** The elements of `SortBy` are in key order. */
  lemma SortByOrdered<T(!new)>(a: seq<T>, le: (T, T) -> bool)
    requires TotalPreorder(le)
    ensures var r := SortBy(a, le);
            forall i, j :: 0 <= i < j < |r| ==> le(r[i], r[j])
  {
    SortPositionsCorrect(a, le, |a|);
  }
}
