/** The list folds the core is written with (`filter`, `reduce` summing a
    field, `filter(...).length`), as functions on sequences with the laws the
    aggregations rely on. The folds peel the last element, so `Sum(s + [x])`
    unfolds in one step; with exact arithmetic the order of a sum is immaterial. */
module Folds {

  function Sum<T>(s: seq<T>, f: T -> real): real {
    if s == [] then 0.0 else Sum(s[..|s| - 1], f) + f(s[|s| - 1])
  }

  /** Sum of `f` over the elements satisfying `p`. */
  function SumWhere<T>(s: seq<T>, p: T -> bool, f: T -> real): real {
    if s == [] then 0.0
    else SumWhere(s[..|s| - 1], p, f) + (if p(s[|s| - 1]) then f(s[|s| - 1]) else 0.0)
  }

  function Count<T>(s: seq<T>, p: T -> bool): nat {
    if s == [] then 0 else Count(s[..|s| - 1], p) + (if p(s[|s| - 1]) then 1 else 0)
  }

  /** `s.filter(p)`. */
  function Filter<T>(s: seq<T>, p: T -> bool): (r: seq<T>)
    ensures |r| <= |s|
    ensures forall i :: 0 <= i < |r| ==> r[i] in s && p(r[i])
    ensures forall i :: 0 <= i < |s| && p(s[i]) ==> s[i] in r
  {
    if s == [] then []
    else
      var r0 := Filter(s[..|s| - 1], p);
      assert forall i :: 0 <= i < |s| - 1 ==> s[i] == s[..|s| - 1][i];
      if p(s[|s| - 1]) then r0 + [s[|s| - 1]] else r0
  }

  /** The indices `s.filter(p)` keeps, in order. */
  function FilterIndices<T>(s: seq<T>, p: T -> bool): seq<nat> {
    if s == [] then []
    else FilterIndices(s[..|s| - 1], p) + (if p(s[|s| - 1]) then [|s| - 1] else [])
  }

  /** The filter is an order-preserving sub-list of its input: its elements
      are the input's at strictly increasing indices. */
  lemma {:induction false} FilterIndicesMeaning<T>(s: seq<T>, p: T -> bool)
    ensures var idx := FilterIndices(s, p);
      && |idx| == |Filter(s, p)|
      && (forall i :: 0 <= i < |idx| ==> idx[i] < |s| && Filter(s, p)[i] == s[idx[i]])
      && (forall i, j :: 0 <= i < j < |idx| ==> idx[i] < idx[j])
  {
    if s != [] {
      var init := s[..|s| - 1];
      FilterIndicesMeaning(init, p);
      var idx0, r0 := FilterIndices(init, p), Filter(init, p);
      assert forall i :: 0 <= i < |idx0| ==> s[idx0[i]] == init[idx0[i]];
      if p(s[|s| - 1]) {
        assert FilterIndices(s, p) == idx0 + [|s| - 1];
        assert Filter(s, p) == r0 + [s[|s| - 1]];
      } else {
        assert FilterIndices(s, p) == idx0;
        assert Filter(s, p) == r0;
      }
    }
  }

  lemma {:induction false} SumConcat<T>(a: seq<T>, b: seq<T>, f: T -> real)
    ensures Sum(a + b, f) == Sum(a, f) + Sum(b, f)
    decreases |b|
  {
    if b != [] {
      assert (a + b)[..|a + b| - 1] == a + b[..|b| - 1];
      SumConcat(a, b[..|b| - 1], f);
    } else {
      assert a + b == a;
    }
  }

  lemma {:induction false} SumWhereConcat<T>(a: seq<T>, b: seq<T>, p: T -> bool, f: T -> real)
    ensures SumWhere(a + b, p, f) == SumWhere(a, p, f) + SumWhere(b, p, f)
    decreases |b|
  {
    if b != [] {
      assert (a + b)[..|a + b| - 1] == a + b[..|b| - 1];
      SumWhereConcat(a, b[..|b| - 1], p, f);
    } else {
      assert a + b == a;
    }
  }

  lemma {:induction false} CountConcat<T>(a: seq<T>, b: seq<T>, p: T -> bool)
    ensures Count(a + b, p) == Count(a, p) + Count(b, p)
    decreases |b|
  {
    if b != [] {
      assert (a + b)[..|a + b| - 1] == a + b[..|b| - 1];
      CountConcat(a, b[..|b| - 1], p);
    } else {
      assert a + b == a;
    }
  }

  /** `filter` distributes over concatenation: it keeps the input order. */
  lemma {:induction false} FilterConcat<T>(a: seq<T>, b: seq<T>, p: T -> bool)
    ensures Filter(a + b, p) == Filter(a, p) + Filter(b, p)
    decreases |b|
  {
    if b != [] {
      assert (a + b)[..|a + b| - 1] == a + b[..|b| - 1];
      FilterConcat(a, b[..|b| - 1], p);
    } else {
      assert a + b == a;
    }
  }

  /** A filter that keeps every element is the identity. */
  lemma {:induction false} FilterAll<T>(s: seq<T>, p: T -> bool)
    requires forall i :: 0 <= i < |s| ==> p(s[i])
    ensures Filter(s, p) == s
  {
    if s != [] {
      FilterAll(s[..|s| - 1], p);
    }
  }

  /** `filter(p).length` is the count of `p`. */
  lemma {:induction false} CountIsFilterLength<T>(s: seq<T>, p: T -> bool)
    ensures |Filter(s, p)| == Count(s, p)
  {
    if s != [] {
      CountIsFilterLength(s[..|s| - 1], p);
    }
  }

  /** Summing over the filtered list is summing where the filter holds. */
  lemma {:induction false} SumFilter<T>(s: seq<T>, p: T -> bool, f: T -> real)
    ensures Sum(Filter(s, p), f) == SumWhere(s, p, f)
  {
    if s != [] {
      SumFilter(s[..|s| - 1], p, f);
    }
  }

  lemma {:induction false} SumWhereNonNegative<T>(s: seq<T>, p: T -> bool, f: T -> real)
    requires forall i :: 0 <= i < |s| && p(s[i]) ==> f(s[i]) >= 0.0
    ensures SumWhere(s, p, f) >= 0.0
  {
    if s != [] {
      SumWhereNonNegative(s[..|s| - 1], p, f);
    }
  }

  lemma {:induction false} SumNonNegative<T>(s: seq<T>, f: T -> real)
    requires forall i :: 0 <= i < |s| ==> f(s[i]) >= 0.0
    ensures Sum(s, f) >= 0.0
  {
    if s != [] {
      SumNonNegative(s[..|s| - 1], f);
    }
  }

  /** A sum of positive terms over a non-empty list is positive. */
  lemma {:induction false} SumPositive<T>(s: seq<T>, f: T -> real)
    requires s != []
    requires forall i :: 0 <= i < |s| ==> f(s[i]) > 0.0
    ensures Sum(s, f) > 0.0
  {
    if |s| > 1 {
      SumPositive(s[..|s| - 1], f);
    }
  }

  /** Two predicates that never hold together count at most the whole list,
      and exactly the whole list when every element satisfies one of them. */
  lemma {:induction false} CountDisjoint<T>(s: seq<T>, p: T -> bool, q: T -> bool)
    requires forall i :: 0 <= i < |s| ==> !(p(s[i]) && q(s[i]))
    ensures Count(s, p) + Count(s, q) <= |s|
    ensures (forall i :: 0 <= i < |s| ==> p(s[i]) || q(s[i])) ==> Count(s, p) + Count(s, q) == |s|
  {
    if s != [] {
      CountDisjoint(s[..|s| - 1], p, q);
    }
  }

  /** Counting is bounded by the length. */
  lemma {:induction false} CountAtMostLength<T>(s: seq<T>, p: T -> bool)
    ensures Count(s, p) <= |s|
  {
    if s != [] {
      CountAtMostLength(s[..|s| - 1], p);
    }
  }

  /** A predicate implied by another counts at least as often. */
  lemma {:induction false} CountMonotone<T>(s: seq<T>, p: T -> bool, q: T -> bool)
    requires forall i :: 0 <= i < |s| && p(s[i]) ==> q(s[i])
    ensures Count(s, p) <= Count(s, q)
  {
    if s != [] {
      CountMonotone(s[..|s| - 1], p, q);
    }
  }

  /** Elements outside the predicate do not change a conditional sum. */
  lemma {:induction false} SumWhereCongruent<T>(s: seq<T>, p: T -> bool, q: T -> bool, f: T -> real)
    requires forall i :: 0 <= i < |s| ==> (p(s[i]) <==> q(s[i]))
    ensures SumWhere(s, p, f) == SumWhere(s, q, f)
  {
    if s != [] {
      SumWhereCongruent(s[..|s| - 1], p, q, f);
    }
  }

  /** A conditional sum over a predicate that splits into two disjoint ones is
      the sum of the two parts. */
  lemma {:induction false} SumWhereSplit<T>(s: seq<T>, p: T -> bool, q: T -> bool, r: T -> bool, f: T -> real)
    requires forall i :: 0 <= i < |s| ==> (p(s[i]) <==> q(s[i]) || r(s[i]))
    requires forall i :: 0 <= i < |s| ==> !(q(s[i]) && r(s[i]))
    ensures SumWhere(s, p, f) == SumWhere(s, q, f) + SumWhere(s, r, f)
  {
    if s != [] {
      SumWhereSplit(s[..|s| - 1], p, q, r, f);
    }
  }

  /** Sum of a list of amounts. */
  function Total(xs: seq<real>): real {
    if xs == [] then 0.0 else Total(xs[..|xs| - 1]) + xs[|xs| - 1]
  }

  /** Integer sum of `f` over a list. */
  function SumInt<T>(s: seq<T>, f: T -> int): int {
    if s == [] then 0 else SumInt(s[..|s| - 1], f) + f(s[|s| - 1])
  }

  lemma {:induction false} SumIntConcat<T>(a: seq<T>, b: seq<T>, f: T -> int)
    ensures SumInt(a + b, f) == SumInt(a, f) + SumInt(b, f)
    decreases |b|
  {
    if b != [] {
      assert (a + b)[..|a + b| - 1] == a + b[..|b| - 1];
      SumIntConcat(a, b[..|b| - 1], f);
    } else {
      assert a + b == a;
    }
  }

  /** A list is split by a predicate and its negation into two parts that hold
      its elements between them. */
  lemma {:induction false} FilterPartition<T>(s: seq<T>, p: T -> bool, q: T -> bool)
    requires forall x :: q(x) == !p(x)
    ensures multiset(Filter(s, p)) + multiset(Filter(s, q)) == multiset(s)
  {
    if s != [] {
      FilterPartition(s[..|s| - 1], p, q);
      assert s == s[..|s| - 1] + [s[|s| - 1]];
    }
  }

  /** Reordering a list does not change an integer sum over it. */
  lemma {:induction false} SumIntPermutation<T>(a: seq<T>, b: seq<T>, f: T -> int)
    requires multiset(a) == multiset(b)
    ensures SumInt(a, f) == SumInt(b, f)
    decreases |a|
  {
    if a == [] {
      assert |b| == |multiset(b)| == 0;
    } else {
      var x := a[|a| - 1];
      assert a == a[..|a| - 1] + [x];
      assert x in multiset(b);
      var k :| 0 <= k < |b| && b[k] == x;
      var rest := b[..k] + b[k + 1..];
      assert b == b[..k] + [x] + b[k + 1..];
      assert multiset(rest) == multiset(b) - multiset{x};
      SumIntPermutation(a[..|a| - 1], rest, f);
      SumIntConcat(b[..k], [x], f);
      SumIntConcat(b[..k] + [x], b[k + 1..], f);
      SumIntConcat(b[..k], b[k + 1..], f);
      assert [x][..0] == [];
    }
  }
}
