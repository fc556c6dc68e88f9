/**
 Sequences as the gateway uses them: filtering, first-occurrence deduplication
 and the stable sort behind `sort_by`, `sort_by_key` and SQL's ORDER BY.

 Every function recurses on the last element, so that a loop that walks a list
 from the front can be related to it one prefix at a time.
 */
module Seqs {

  function Filter<T(!new)>(s: seq<T>, p: T -> bool): (r: seq<T>)
    ensures |r| <= |s|
    ensures forall x :: x in r <==> x in s && p(x)
  {
    if s == [] then []
    else
      var n := |s| - 1;
      assert s == s[..n] + [s[n]];
      Filter(s[..n], p) + if p(s[n]) then [s[n]] else []
  }

  function Map<T, U>(s: seq<T>, f: T -> U): (r: seq<U>)
    ensures |r| == |s|
    ensures forall i :: 0 <= i < |s| ==> r[i] == f(s[i])
  {
    seq(|s|, i requires 0 <= i < |s| => f(s[i]))
  }

  /** The elements of s in first-occurrence order, each once. */
  function Distinct<T(==, !new)>(s: seq<T>): (r: seq<T>)
    ensures NoDuplicates(r)
    ensures forall x :: x in r <==> x in s
  {
    if s == [] then []
    else
      var n := |s| - 1;
      assert s == s[..n] + [s[n]];
      var d := Distinct(s[..n]);
      if s[n] in d then d else d + [s[n]]
  }

  ghost predicate NoDuplicates<T>(s: seq<T>) {
    forall i, j :: 0 <= i < j < |s| ==> s[i] != s[j]
  }

  /** What a sorted sequence is, for an order that relates any two elements. */
  ghost predicate SortedBy<T>(s: seq<T>, le: (T, T) -> bool) {
    forall i, j :: 0 <= i < j < |s| ==> le(s[i], s[j])
  }

  ghost predicate TotalPreorder<T(!new)>(le: (T, T) -> bool) {
    && (forall x, y :: le(x, y) || le(y, x))
    && (forall x, y, z :: le(x, y) && le(y, z) ==> le(x, z))
  }

  /** Put x behind everything that may precede it, scanning from the right. */
  function Insert<T>(s: seq<T>, x: T, le: (T, T) -> bool): (r: seq<T>)
    ensures |r| == |s| + 1
  {
    if s == [] then [x]
    else
      var n := |s| - 1;
      if le(s[n], x) then s + [x] else Insert(s[..n], x, le) + [s[n]]
  }

  /** Stable insertion sort: the meaning of every sort in the source. */
  function SortBy<T>(s: seq<T>, le: (T, T) -> bool): (r: seq<T>)
    ensures |r| == |s|
  {
    if s == [] then []
    else
      var n := |s| - 1;
      Insert(SortBy(s[..n], le), s[n], le)
  }

  lemma {:induction false} InsertIsPermutation<T>(s: seq<T>, x: T, le: (T, T) -> bool)
    ensures multiset(Insert(s, x, le)) == multiset(s) + multiset{x}
  {
    if s != [] {
      var n := |s| - 1;
      assert s == s[..n] + [s[n]];
      if !le(s[n], x) {
        InsertIsPermutation(s[..n], x, le);
      }
    }
  }

  lemma {:induction false} SortByIsPermutation<T>(s: seq<T>, le: (T, T) -> bool)
    ensures multiset(SortBy(s, le)) == multiset(s)
    ensures forall x :: x in SortBy(s, le) <==> x in s
  {
    if s != [] {
      var n := |s| - 1;
      assert s == s[..n] + [s[n]];
      SortByIsPermutation(s[..n], le);
      InsertIsPermutation(SortBy(s[..n], le), s[n], le);
    }
    SameMembers(SortBy(s, le), s);
  }

  lemma {:induction false} SameMembers<T>(s: seq<T>, t: seq<T>)
    requires multiset(s) == multiset(t)
    ensures forall x :: x in s <==> x in t
  {
    forall x ensures x in s <==> x in t {
      assert x in s <==> x in multiset(s);
      assert x in t <==> x in multiset(t);
    }
  }

  lemma {:induction false} InsertKeepsSorted<T(!new)>(s: seq<T>, x: T, le: (T, T) -> bool)
    requires TotalPreorder(le) && SortedBy(s, le)
    ensures SortedBy(Insert(s, x, le), le)
  {
    if s != [] {
      var n := |s| - 1;
      if !le(s[n], x) {
        InsertKeepsSorted(s[..n], x, le);
        var t := Insert(s[..n], x, le);
        InsertIsPermutation(s[..n], x, le);
        forall i | 0 <= i < |t| ensures le(t[i], s[n]) {
          assert t[i] in multiset(s[..n]) + multiset{x};
          assert t[i] == x || t[i] in s[..n];
        }
      } else {
        forall i | 0 <= i < |s| ensures le(s[i], x) {
          assert i < n ==> le(s[i], s[n]);
        }
      }
    }
  }

  lemma {:induction false} SortBySorts<T(!new)>(s: seq<T>, le: (T, T) -> bool)
    requires TotalPreorder(le)
    ensures SortedBy(SortBy(s, le), le)
  {
    if s != [] {
      var n := |s| - 1;
      SortBySorts(s[..n], le);
      InsertKeepsSorted(SortBy(s[..n], le), s[n], le);
    }
  }

  lemma {:induction false} InsertAppends<T>(s: seq<T>, x: T, le: (T, T) -> bool)
    requires forall y :: y in s ==> le(y, x)
    ensures Insert(s, x, le) == s + [x]
  {
    if s != [] {
      assert s[|s| - 1] in s;
    }
  }

  /** A list already in order is left alone. */
  lemma {:induction false} SortBySortedIsIdentity<T>(s: seq<T>, le: (T, T) -> bool)
    requires SortedBy(s, le)
    ensures SortBy(s, le) == s
  {
    if s != [] {
      var n := |s| - 1;
      SortBySortedIsIdentity(s[..n], le);
      InsertAppends(s[..n], s[n], le);
      assert s == s[..n] + [s[n]];
    }
  }

  lemma {:induction false} FilterSnoc<T(!new)>(s: seq<T>, x: T, p: T -> bool)
    ensures Filter(s + [x], p) == Filter(s, p) + if p(x) then [x] else []
  {
    assert (s + [x])[..|s|] == s;
  }

  lemma {:induction false} InsertBefore<T>(s: seq<T>, y: T, x: T, le: (T, T) -> bool)
    requires !le(y, x)
    ensures Insert(s + [y], x, le) == Insert(s, x, le) + [y]
  {
    assert (s + [y])[..|s|] == s;
  }

  lemma {:induction false} FilterPrecedes<T(!new)>(s: seq<T>, x: T, le: (T, T) -> bool, p: T -> bool)
    requires TotalPreorder(le) && SortedBy(s, le)
    requires s != [] && le(s[|s| - 1], x)
    ensures forall z :: z in Filter(s, p) ==> le(z, x)
  {
    forall z | z in s ensures le(z, x) {
      var i :| 0 <= i < |s| && s[i] == z;
      assert i < |s| - 1 ==> le(s[i], s[|s| - 1]);
    }
  }

  lemma {:induction false} FilterInsert<T(!new)>(s: seq<T>, x: T, le: (T, T) -> bool, p: T -> bool)
    requires TotalPreorder(le) && SortedBy(s, le)
    ensures Filter(Insert(s, x, le), p) == if p(x) then Insert(Filter(s, p), x, le) else Filter(s, p)
  {
    if s == [] {
      FilterSnoc([], x, p);
    } else if le(s[|s| - 1], x) {
      FilterSnoc(s, x, p);
      FilterPrecedes(s, x, le, p);
      if p(x) {
        InsertAppends(Filter(s, p), x, le);
      }
    } else {
      var n := |s| - 1;
      var init, y := s[..n], s[n];
      assert s == init + [y];
      FilterInsert(init, x, le, p);
      FilterSnoc(Insert(init, x, le), y, p);
      FilterSnoc(init, y, p);
      if p(y) {
        InsertBefore(Filter(init, p), y, x, le);
      } else {
        assert Filter(s, p) == Filter(init, p);
      }
    }
  }

  /** Selecting rows and ordering them commute. */
  lemma {:induction false} FilterSortBy<T(!new)>(s: seq<T>, le: (T, T) -> bool, p: T -> bool)
    requires TotalPreorder(le)
    ensures Filter(SortBy(s, le), p) == SortBy(Filter(s, p), le)
  {
    if s != [] {
      var n := |s| - 1;
      FilterSortBy(s[..n], le, p);
      SortBySorts(s[..n], le);
      FilterInsert(SortBy(s[..n], le), s[n], le, p);
      var f := Filter(s[..n], p);
      if p(s[n]) {
        assert (f + [s[n]])[..|f|] == f;
      } else {
        assert Filter(s, p) == f;
      }
    }
  }

  lemma {:induction false} LastOfSortedPermutation<T(!new)>(s: seq<T>, t: seq<T>, le: (T, T) -> bool)
    requires s != [] && t != [] && multiset(s) == multiset(t)
    requires SortedBy(s, le) && SortedBy(t, le)
    requires forall x, y :: x in s && y in s && le(x, y) && le(y, x) ==> x == y
    ensures s[|s| - 1] == t[|t| - 1]
  {
    var x, y := s[|s| - 1], t[|t| - 1];
    SameMembers(s, t);
    assert x in t && y in s;
    var i :| 0 <= i < |t| && t[i] == x;
    var j :| 0 <= j < |s| && s[j] == y;
    assert i < |t| - 1 ==> le(x, y);
    assert j < |s| - 1 ==> le(y, x);
  }

  lemma {:induction false} CancelLast<T>(s: seq<T>, t: seq<T>, x: T)
    requires multiset(s + [x]) == multiset(t + [x])
    ensures multiset(s) == multiset(t)
  {
    assert multiset(s) == multiset(s + [x]) - multiset{x};
    assert multiset(t) == multiset(t + [x]) - multiset{x};
  }

  /** Under a strict order only one arrangement of the rows is sorted, so ORDER BY
      does not depend on the physical order of the table. */
  lemma {:induction false} SortedPermutationIsUnique<T(!new)>(s: seq<T>, t: seq<T>, le: (T, T) -> bool)
    requires multiset(s) == multiset(t)
    requires SortedBy(s, le) && SortedBy(t, le)
    requires forall x, y :: x in s && y in s && le(x, y) && le(y, x) ==> x == y
    ensures s == t
  {
    assert |s| == |multiset(s)| == |multiset(t)| == |t|;
    if s != [] {
      var n := |s| - 1;
      LastOfSortedPermutation(s, t, le);
      assert s == s[..n] + [s[n]] && t == t[..n] + [s[n]];
      CancelLast(s[..n], t[..n], s[n]);
      SortedPermutationIsUnique(s[..n], t[..n], le);
    }
  }

  lemma {:induction false} AppendIsAssociative<T>(s: seq<T>, t: seq<T>, u: seq<T>)
    ensures s + (t + u) == s + t + u
  {
  }

  lemma {:induction false} FilterAppendSnoc<T(!new)>(s: seq<T>, t: seq<T>, x: T, p: T -> bool)
    requires Filter(s + t, p) == Filter(s, p) + Filter(t, p)
    ensures Filter(s + (t + [x]), p) == Filter(s, p) + Filter(t + [x], p)
  {
    var tail := if p(x) then [x] else [];
    AppendIsAssociative(s, t, [x]);
    AppendIsAssociative(Filter(s, p), Filter(t, p), tail);
    FilterSnoc(t, x, p);
    FilterSnoc(s + t, x, p);
  }

  lemma {:induction false} FilterAppend<T(!new)>(s: seq<T>, t: seq<T>, p: T -> bool)
    ensures Filter(s + t, p) == Filter(s, p) + Filter(t, p)
  {
    if t == [] {
      assert s + t == s;
    } else {
      var n := |t| - 1;
      FilterAppend(s, t[..n], p);
      FilterAppendSnoc(s, t[..n], t[n], p);
      assert t[..n] + [t[n]] == t;
    }
  }

  lemma {:induction false} FilterAll<T(!new)>(s: seq<T>, p: T -> bool)
    requires forall x :: x in s ==> p(x)
    ensures Filter(s, p) == s
  {
    if s != [] {
      var n := |s| - 1;
      assert s == s[..n] + [s[n]];
      assert s[n] in s;
      FilterAll(s[..n], p);
    }
  }

  lemma {:induction false} FilterNone<T(!new)>(s: seq<T>, p: T -> bool)
    requires forall x :: x in s ==> !p(x)
    ensures Filter(s, p) == []
  {
    if Filter(s, p) != [] {
      assert Filter(s, p)[0] in Filter(s, p);
    }
  }

  /** Filtering keeps the order of what it keeps. */
  lemma {:induction false} FilterKeepsSorted<T(!new)>(s: seq<T>, le: (T, T) -> bool, p: T -> bool)
    requires SortedBy(s, le)
    ensures SortedBy(Filter(s, p), le)
  {
    if s != [] {
      var n := |s| - 1;
      FilterKeepsSorted(s[..n], le, p);
      var f := Filter(s[..n], p);
      forall x | x in f ensures le(x, s[n]) {
        var i :| 0 <= i < n && s[i] == x;
        assert le(s[i], s[n]);
      }
    }
  }

  lemma {:induction false} FilterKeepsDistinct<T(!new)>(s: seq<T>, p: T -> bool)
    requires NoDuplicates(s)
    ensures NoDuplicates(Filter(s, p))
  {
    if s != [] {
      var n := |s| - 1;
      FilterKeepsDistinct(s[..n], p);
    }
  }

  lemma {:induction false} OccursOnce<T>(s: seq<T>)
    ensures NoDuplicates(s) <==> forall x :: multiset(s)[x] <= 1
  {
    if s != [] {
      var n := |s| - 1;
      OccursOnce(s[..n]);
      assert s == s[..n] + [s[n]];
      assert multiset(s) == multiset(s[..n]) + multiset{s[n]};
      if NoDuplicates(s) {
        assert s[n] !in s[..n];
      } else if NoDuplicates(s[..n]) {
        var i, j :| 0 <= i < j < |s| && s[i] == s[j];
        assert j == n && s[n] in s[..n];
        assert multiset(s)[s[n]] >= 2;
      } else {
        var x :| multiset(s[..n])[x] > 1;
        assert multiset(s)[x] > 1;
      }
    }
  }

  /** Taking the same element out of two permutations of one another. */
  lemma {:induction false} RemoveOne<T>(s: seq<T>, t: seq<T>, i: nat)
    requires s != [] && i < |t| && t[i] == s[|s| - 1]
    requires multiset(s) == multiset(t)
    ensures t == t[..i] + [t[i]] + t[i + 1..]
    ensures multiset(s[..|s| - 1]) == multiset(t[..i] + t[i + 1..])
  {
    assert s == s[..|s| - 1] + [s[|s| - 1]];
    assert multiset(s[..|s| - 1]) == multiset(s) - multiset{t[i]};
    assert t == t[..i] + [t[i]] + t[i + 1..];
    assert multiset(t[..i] + t[i + 1..]) == multiset(t) - multiset{t[i]};
  }

  lemma {:induction false} MapAround<T, U>(t: seq<T>, i: nat, f: T -> U)
    requires i < |t|
    ensures multiset(Map(t, f)) == multiset(Map(t[..i] + t[i + 1..], f)) + multiset{f(t[i])}
  {
    var l, r := Map(t[..i], f), Map(t[i + 1..], f);
    assert Map(t, f) == l + [f(t[i])] + r;
    assert Map(t[..i] + t[i + 1..], f) == l + r;
  }

  lemma {:induction false} MapPermutation<T, U>(s: seq<T>, t: seq<T>, f: T -> U)
    requires multiset(s) == multiset(t)
    ensures multiset(Map(s, f)) == multiset(Map(t, f))
    decreases |s|
  {
    assert |s| == |multiset(s)| == |multiset(t)| == |t|;
    if s != [] {
      var n := |s| - 1;
      SameMembers(s, t);
      assert s[n] in t;
      var i :| 0 <= i < |t| && t[i] == s[n];
      RemoveOne(s, t, i);
      MapPermutation(s[..n], t[..i] + t[i + 1..], f);
      MapAround(t, i, f);
      MapAround(s, n, f);
      assert s[..n] + s[n + 1..] == s[..n];
    }
  }
}
