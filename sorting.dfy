/** `Array.prototype.sort` with a comparator `(a, b) => key(b) - key(a)`,
    largest key first. It is written as an insertion sort that places each
    element after every earlier one whose key is at least its own; what is
    proved is that the result is a permutation of the input in non-increasing
    key order, and nothing about the order of equal keys. */
module Sorting {
  import opened Folds

  predicate SortedDesc<T>(s: seq<T>, key: T -> real) {
    forall i, j :: 0 <= i < j < |s| ==> key(s[i]) >= key(s[j])
  }

  /** `x` placed after every element whose key is at least its own. */
  function Insert<T(==)>(s: seq<T>, x: T, key: T -> real): (r: seq<T>)
    ensures |r| == |s| + 1
    ensures multiset(r) == multiset(s) + multiset{x}
  {
    if s == [] then [x]
    else if key(s[0]) >= key(x) then
      assert s == [s[0]] + s[1..];
      [s[0]] + Insert(s[1..], x, key)
    else [x] + s
  }

  /** A bound on every key survives an insertion of an element within it. */
  lemma {:induction false} InsertBounded<T>(s: seq<T>, x: T, key: T -> real, b: real)
    requires forall i :: 0 <= i < |s| ==> key(s[i]) <= b
    requires key(x) <= b
    ensures forall i :: 0 <= i < |s| + 1 ==> key(Insert(s, x, key)[i]) <= b
  {
    if s != [] && key(s[0]) >= key(x) {
      InsertBounded(s[1..], x, key, b);
    }
  }

  /** Inserting into a sorted list keeps it sorted. */
  lemma {:induction false} InsertSorted<T>(s: seq<T>, x: T, key: T -> real)
    requires SortedDesc(s, key)
    ensures SortedDesc(Insert(s, x, key), key)
  {
    if s != [] && key(s[0]) >= key(x) {
      InsertSorted(s[1..], x, key);
      InsertBounded(s[1..], x, key, key(s[0]));
    }
  }

  /** The sort, largest key first: a permutation in non-increasing key order. */
  function SortDesc<T(==)>(s: seq<T>, key: T -> real): (r: seq<T>)
    ensures |r| == |s|
    ensures multiset(r) == multiset(s)
    ensures SortedDesc(r, key)
  {
    if s == [] then []
    else
      var init := s[..|s| - 1];
      assert s == init + [s[|s| - 1]];
      InsertSorted(SortDesc(init, key), s[|s| - 1], key);
      Insert(SortDesc(init, key), s[|s| - 1], key)
  }

  /** Inserting adds the inserted element's term to any sum. */
  lemma {:induction false} SumInsert<T>(s: seq<T>, x: T, key: T -> real, f: T -> real)
    ensures Sum(Insert(s, x, key), f) == Sum(s, f) + f(x)
  {
    if s == [] {
      assert Insert(s, x, key)[..0] == [];
    } else if key(s[0]) >= key(x) {
      var rest := Insert(s[1..], x, key);
      SumInsert(s[1..], x, key, f);
      SumConcat([s[0]], rest, f);
      SumConcat([s[0]], s[1..], f);
      assert [s[0]] + s[1..] == s;
      assert [s[0]][..0] == [];
    } else {
      SumConcat([x], s, f);
      assert [x][..0] == [];
    }
  }

  /** Sorting does not change a sum. */
  lemma {:induction false} SumSortDesc<T>(s: seq<T>, key: T -> real, f: T -> real)
    ensures Sum(SortDesc(s, key), f) == Sum(s, f)
  {
    if s != [] {
      var init := s[..|s| - 1];
      SumSortDesc(init, key, f);
      SumInsert(SortDesc(init, key), s[|s| - 1], key, f);
    }
  }

  /** The first `n` elements (`slice(0, n)`). */
  function Take<T>(s: seq<T>, n: nat): (r: seq<T>)
    ensures |r| == if |s| < n then |s| else n
    ensures |s| <= n ==> r == s
    ensures forall i :: 0 <= i < |r| ==> r[i] == s[i]
  {
    if |s| <= n then s else s[..n]
  }

  /** A prefix of a sorted list is sorted. */
  lemma TakeSorted<T>(s: seq<T>, n: nat, key: T -> real)
    requires SortedDesc(s, key)
    ensures SortedDesc(Take(s, n), key)
  {
  }

  /** A prefix of a descending list holds its largest elements: whatever it
      leaves out has a key no larger than any element it keeps. */
  lemma TakeKeepsLargest<T>(s: seq<T>, n: nat, key: T -> real)
    requires SortedDesc(s, key)
    ensures multiset(Take(s, n)) <= multiset(s)
    ensures forall j, x :: 0 <= j < |Take(s, n)| && x in multiset(s) - multiset(Take(s, n)) ==>
      key(x) <= key(Take(s, n)[j])
  {
    var top := Take(s, n);
    var rest := s[|top|..];
    assert s == top + rest;
    assert multiset(s) - multiset(top) == multiset(rest);
    forall j, x | 0 <= j < |top| && x in multiset(s) - multiset(top)
      ensures key(x) <= key(top[j])
    {
      assert x in rest;
      var k :| 0 <= k < |rest| && rest[k] == x;
      assert s[|top| + k] == x;
    }
  }

  /** A prefix of a list of non-negative terms sums to no more than the list. */
  lemma {:induction false} TakeSumAtMost<T>(s: seq<T>, n: nat, f: T -> real)
    requires forall i :: 0 <= i < |s| ==> f(s[i]) >= 0.0
    ensures Sum(Take(s, n), f) <= Sum(s, f)
  {
    if n < |s| {
      assert s == s[..n] + s[n..];
      SumConcat(s[..n], s[n..], f);
      SumNonNegative(s[n..], f);
    }
  }
}
