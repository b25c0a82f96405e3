/** The reports page (`Reports`): the transactions of a date range, their
    totals and average, the comparison with the window just before it, the
    per-key groupings (by customer name and by status), and the quick range
    buttons. */
module Reports {
  import opened Common
  import opened Folds
  import opened Sorting
  import Schema
  import Calendar

  /** A transaction as the page reads it; `createdAt` is `None` when missing
      (an invalid date, which every comparison rejects). */
  datatype ReportTransaction = ReportTransaction(customerName: string, total: Money, status: Option<string>,
                                                 createdAt: Option<Instant>)

  /** The range's two "yyyy-MM-dd" strings as day numbers since 1970-01-01. */
  datatype DateRange = DateRange(from: int, to: int)

  /** `transactionDate >= fromDate && transactionDate <= toDate`: both bounds
      are midnights, so the last day of the range counts only its first instant. */
  predicate InPeriod(t: ReportTransaction, range: DateRange) {
    t.createdAt.Some? && Calendar.Midnight(range.from) <= t.createdAt.value <= Calendar.Midnight(range.to)
  }

  function PeriodFilter(range: DateRange): ReportTransaction -> bool {
    (t: ReportTransaction) => InPeriod(t, range)
  }

  function TotalOf(): ReportTransaction -> real { (t: ReportTransaction) => t.total }

  /** `filteredTransactions`. */
  function Filtered(ts: seq<ReportTransaction>, range: DateRange): (r: seq<ReportTransaction>)
    ensures |r| <= |ts|
    ensures forall t :: t in r <==> t in ts && InPeriod(t, range)
  {
    var r := Filter(ts, PeriodFilter(range));
    assert forall t :: t in ts && InPeriod(t, range) ==> t in r by {
      forall t | t in ts && InPeriod(t, range) ensures t in r {
        var i :| 0 <= i < |ts| && ts[i] == t;
      }
    }
    r
  }

  /** The period's transactions are a sub-list of all of them, in their order. */
  lemma FilteredKeepsOrder(ts: seq<ReportTransaction>, range: DateRange)
    ensures var r, idx := Filtered(ts, range), FilterIndices(ts, PeriodFilter(range));
      && |idx| == |r|
      && (forall i :: 0 <= i < |idx| ==> idx[i] < |ts| && r[i] == ts[idx[i]])
      && (forall i, j :: 0 <= i < j < |idx| ==> idx[i] < idx[j])
  {
    FilterIndicesMeaning(ts, PeriodFilter(range));
  }

  /** `totalSales` of the period. */
  function TotalSales(ts: seq<ReportTransaction>, range: DateRange): (total: Money)
    ensures total == SumWhere(ts, PeriodFilter(range), TotalOf())
  {
    SumFilter(ts, PeriodFilter(range), TotalOf());
    Sum(Filtered(ts, range), TotalOf())
  }

  /** `averageOrderValue`: the mean total, 0 for an empty period. */
  function Average(totalSales: Money, totalOrders: nat): (a: real)
    ensures totalOrders > 0 ==> a * totalOrders as real == totalSales
    ensures totalOrders == 0 ==> a == 0.0
  {
    if totalOrders > 0 then totalSales / totalOrders as real else 0.0
  }

  // ---------------------------------------------------------------------------
  // The previous window

  /** `Math.ceil` of a real. */
  function Ceil(x: real): (n: int)
    ensures n as real >= x && (n - 1) as real < x
  {
    -((-x).Floor)
  }

  /** The span of the range in days, rounded up. */
  function SpanDays(range: DateRange): int {
    Ceil((Calendar.Midnight(range.to) - Calendar.Midnight(range.from)) as real / Calendar.MsPerDay as real)
  }

  /** Both bounds are midnights, so the span is the difference of the days. */
  lemma SpanIsDayDifference(range: DateRange)
    ensures SpanDays(range) == range.to - range.from
  {
    var d := range.to - range.from;
    assert Calendar.Midnight(range.to) - Calendar.Midnight(range.from) == d * Calendar.MsPerDay;
    assert (d * Calendar.MsPerDay) as real / Calendar.MsPerDay as real == d as real;
  }

  /** `previousPeriodStart`: the range's start moved back by its span. */
  function PreviousStart(range: DateRange): (start: Instant)
    ensures start == Calendar.Midnight(2 * range.from - range.to)
  {
    SpanIsDayDifference(range);
    Calendar.Midnight(range.from) - SpanDays(range) * Calendar.MsPerDay
  }

  /** `transactionDate >= previousPeriodStart && transactionDate < fromDate`. */
  predicate InPrevious(t: ReportTransaction, range: DateRange) {
    t.createdAt.Some? && PreviousStart(range) <= t.createdAt.value < Calendar.Midnight(range.from)
  }

  function PreviousFilter(range: DateRange): ReportTransaction -> bool {
    (t: ReportTransaction) => InPrevious(t, range)
  }

  function EitherFilter(range: DateRange): ReportTransaction -> bool {
    (t: ReportTransaction) => InPrevious(t, range) || InPeriod(t, range)
  }

  /** `previousSales`. */
  function PreviousSales(ts: seq<ReportTransaction>, range: DateRange): Money {
    SumWhere(ts, PreviousFilter(range), TotalOf())
  }

  /** The two windows never share a transaction, so over both of them every
      transaction is counted once: the two sales figures add up to the sum over
      the joined window. */
  lemma WindowsDisjoint(ts: seq<ReportTransaction>, range: DateRange)
    ensures forall t :: !(InPeriod(t, range) && InPrevious(t, range))
    ensures SumWhere(ts, EitherFilter(range), TotalOf()) == PreviousSales(ts, range) + TotalSales(ts, range)
  {
    SumWhereSplit(ts, EitherFilter(range), PreviousFilter(range), PeriodFilter(range), TotalOf());
  }

  /** `salesGrowth` in percent, 0 when the previous window sold nothing. */
  function Growth(totalSales: Money, previousSales: Money): (g: real)
    ensures previousSales > 0.0 ==> g * previousSales == (totalSales - previousSales) * 100.0
    ensures previousSales > 0.0 ==> (g > 0.0 <==> totalSales > previousSales)
    ensures previousSales <= 0.0 ==> g == 0.0
  {
    if previousSales > 0.0 then (totalSales - previousSales) / previousSales * 100.0 else 0.0
  }

  // ---------------------------------------------------------------------------
  // Grouping reductions

  /** One entry of a `Record<string, number>` built by a reduce. */
  datatype Group = Group(key: string, amount: Money)

  function Keys(groups: seq<Group>): set<string> {
    set i | 0 <= i < |groups| :: groups[i].key
  }

  predicate DistinctKeys(groups: seq<Group>) {
    forall i, j :: 0 <= i < j < |groups| ==> groups[i].key != groups[j].key
  }

  /** `acc[key] = (acc[key] || 0) + amount`: an existing entry grows in place,
      a new key is appended (the insertion order of the record's entries). */
  function AddTo(groups: seq<Group>, key: string, amount: Money): (r: seq<Group>)
    ensures |r| == |groups| || |r| == |groups| + 1
  {
    if groups == [] then [Group(key, amount)]
    else if groups[0].key == key then [groups[0].(amount := groups[0].amount + amount)] + groups[1..]
    else [groups[0]] + AddTo(groups[1..], key, amount)
  }

  lemma KeysCons(g: Group, rest: seq<Group>)
    ensures Keys([g] + rest) == {g.key} + Keys(rest)
  {
    var s := [g] + rest;
    forall x | x in Keys(s) ensures x in {g.key} + Keys(rest) {
      var i :| 0 <= i < |s| && s[i].key == x;
      if i > 0 {
        assert s[i] == rest[i - 1];
      }
    }
    forall x | x in {g.key} + Keys(rest) ensures x in Keys(s) {
      if x == g.key {
        assert s[0] == g;
      } else {
        var i :| 0 <= i < |rest| && rest[i].key == x;
        assert s[i + 1] == rest[i];
      }
    }
  }

  /** Adding under a key adds that key and no other. */
  lemma {:induction false} AddToKeys(groups: seq<Group>, key: string, amount: Money)
    ensures Keys(AddTo(groups, key, amount)) == Keys(groups) + {key}
  {
    if groups == [] {
      KeysCons(Group(key, amount), []);
      assert [Group(key, amount)] + [] == [Group(key, amount)];
    } else {
      KeysCons(groups[0], groups[1..]);
      assert groups == [groups[0]] + groups[1..];
      if groups[0].key == key {
        KeysCons(groups[0].(amount := groups[0].amount + amount), groups[1..]);
      } else {
        AddToKeys(groups[1..], key, amount);
        KeysCons(groups[0], AddTo(groups[1..], key, amount));
      }
    }
  }

  /** Adding under a key never duplicates a key. */
  lemma {:induction false} AddToDistinct(groups: seq<Group>, key: string, amount: Money)
    requires DistinctKeys(groups)
    ensures DistinctKeys(AddTo(groups, key, amount))
  {
    if groups != [] && groups[0].key != key {
      var rest := AddTo(groups[1..], key, amount);
      AddToDistinct(groups[1..], key, amount);
      AddToKeys(groups[1..], key, amount);
      forall i | 0 <= i < |rest| ensures rest[i].key != groups[0].key {
        assert rest[i].key in Keys(rest);
        if rest[i].key != key {
          var j :| 0 <= j < |groups[1..]| && groups[1..][j].key == rest[i].key;
          assert groups[j + 1].key == rest[i].key;
        }
      }
    }
  }

  /** The amount recorded under `key` (`acc[key] || 0`). */
  function AmountOf(groups: seq<Group>, key: string): Money {
    if groups == [] then 0.0
    else if groups[0].key == key then groups[0].amount
    else AmountOf(groups[1..], key)
  }

  function GroupAmount(): Group -> real { (g: Group) => g.amount }

  /** The reduce over the transactions with a key function. */
  function GroupSums(ts: seq<ReportTransaction>, keyOf: ReportTransaction -> string): (r: seq<Group>)
    ensures DistinctKeys(r)
  {
    if ts == [] then []
    else
      var init := GroupSums(ts[..|ts| - 1], keyOf);
      AddToDistinct(init, keyOf(ts[|ts| - 1]), ts[|ts| - 1].total);
      AddTo(init, keyOf(ts[|ts| - 1]), ts[|ts| - 1].total)
  }

  function KeyIs(keyOf: ReportTransaction -> string, key: string): ReportTransaction -> bool {
    (t: ReportTransaction) => keyOf(t) == key
  }

  lemma {:induction false} AmountOfAddTo(groups: seq<Group>, key: string, amount: Money, k: string)
    ensures AmountOf(AddTo(groups, key, amount), k) == AmountOf(groups, k) + (if k == key then amount else 0.0)
  {
    if groups != [] && groups[0].key != key {
      AmountOfAddTo(groups[1..], key, amount, k);
      assert ([groups[0]] + AddTo(groups[1..], key, amount))[1..] == AddTo(groups[1..], key, amount);
    } else if groups != [] {
      assert ([groups[0].(amount := groups[0].amount + amount)] + groups[1..])[1..] == groups[1..];
    }
  }

  lemma {:induction false} SumAddTo(groups: seq<Group>, key: string, amount: Money)
    ensures Sum(AddTo(groups, key, amount), GroupAmount()) == Sum(groups, GroupAmount()) + amount
  {
    if groups == [] {
      assert [Group(key, amount)][..0] == [];
    } else {
      var head := groups[0];
      assert groups == [head] + groups[1..];
      SumConcat([head], groups[1..], GroupAmount());
      assert [head][..0] == [];
      if head.key == key {
        var head' := head.(amount := head.amount + amount);
        SumConcat([head'], groups[1..], GroupAmount());
        assert [head'][..0] == [];
      } else {
        SumAddTo(groups[1..], key, amount);
        SumConcat([head], AddTo(groups[1..], key, amount), GroupAmount());
      }
    }
  }

  /** Each key's entry is the sum of the totals of the transactions with that
      key. */
  lemma {:induction false} GroupAmounts(ts: seq<ReportTransaction>, keyOf: ReportTransaction -> string)
    ensures forall k :: AmountOf(GroupSums(ts, keyOf), k) == SumWhere(ts, KeyIs(keyOf, k), TotalOf())
  {
    if ts != [] {
      var init, last := ts[..|ts| - 1], ts[|ts| - 1];
      GroupAmounts(init, keyOf);
      forall k ensures AmountOf(GroupSums(ts, keyOf), k) == SumWhere(ts, KeyIs(keyOf, k), TotalOf()) {
        AmountOfAddTo(GroupSums(init, keyOf), keyOf(last), last.total, k);
      }
    }
  }

  /** The keys are exactly the keys that occur. */
  lemma {:induction false} GroupKeys(ts: seq<ReportTransaction>, keyOf: ReportTransaction -> string)
    ensures forall k :: k in Keys(GroupSums(ts, keyOf)) <==> exists i :: 0 <= i < |ts| && keyOf(ts[i]) == k
  {
    if ts != [] {
      var init, last := ts[..|ts| - 1], ts[|ts| - 1];
      GroupKeys(init, keyOf);
      var g := GroupSums(init, keyOf);
      AddToKeys(g, keyOf(last), last.total);
      forall k ensures k in Keys(GroupSums(ts, keyOf)) <==> exists i :: 0 <= i < |ts| && keyOf(ts[i]) == k {
        if k in Keys(g) {
          var i :| 0 <= i < |init| && keyOf(init[i]) == k;
          assert ts[i] == init[i];
        }
        if exists i :: 0 <= i < |ts| && keyOf(ts[i]) == k {
          var i :| 0 <= i < |ts| && keyOf(ts[i]) == k;
          if i < |init| {
            assert init[i] == ts[i];
          }
        }
      }
    }
  }

  /** The entries together hold the sum of all totals: with distinct keys,
      every transaction lands in exactly one entry. */
  lemma {:induction false} GroupTotal(ts: seq<ReportTransaction>, keyOf: ReportTransaction -> string)
    ensures Sum(GroupSums(ts, keyOf), GroupAmount()) == Sum(ts, TotalOf())
  {
    if ts != [] {
      var init, last := ts[..|ts| - 1], ts[|ts| - 1];
      GroupTotal(init, keyOf);
      SumAddTo(GroupSums(init, keyOf), keyOf(last), last.total);
    }
  }

  /** Non-negative totals give non-negative entries. */
  lemma {:induction false} GroupsNonNegative(ts: seq<ReportTransaction>, keyOf: ReportTransaction -> string)
    requires forall i :: 0 <= i < |ts| ==> ts[i].total >= 0.0
    ensures forall j :: 0 <= j < |GroupSums(ts, keyOf)| ==> GroupSums(ts, keyOf)[j].amount >= 0.0
  {
    if ts != [] {
      GroupsNonNegative(ts[..|ts| - 1], keyOf);
      AddToNonNegative(GroupSums(ts[..|ts| - 1], keyOf), keyOf(ts[|ts| - 1]), ts[|ts| - 1].total);
    }
  }

  lemma {:induction false} AddToNonNegative(groups: seq<Group>, key: string, amount: Money)
    requires amount >= 0.0 && forall j :: 0 <= j < |groups| ==> groups[j].amount >= 0.0
    ensures forall j :: 0 <= j < |AddTo(groups, key, amount)| ==> AddTo(groups, key, amount)[j].amount >= 0.0
  {
    if groups != [] && groups[0].key != key {
      AddToNonNegative(groups[1..], key, amount);
    }
  }

  /** `transaction.customerName`, the key of `productSales`. */
  function NameKey(): ReportTransaction -> string { (t: ReportTransaction) => t.customerName }

  /** `transaction.status || "pending"`: a missing or empty status is pending. */
  function StatusKey(): ReportTransaction -> string {
    (t: ReportTransaction) => if Schema.Truthy(t.status) then t.status.value else "pending"
  }

  /** `productSales`, grouped by customer name. */
  function ProductSales(ts: seq<ReportTransaction>, range: DateRange): seq<Group> {
    GroupSums(Filtered(ts, range), NameKey())
  }

  /** `topProducts`: the first five entries of the groups sorted largest first. */
  function TopProducts(ts: seq<ReportTransaction>, range: DateRange): (top: seq<Group>)
    ensures |top| <= 5
    ensures SortedDesc(top, GroupAmount())
  {
    var sorted := SortDesc(ProductSales(ts, range), GroupAmount());
    TakeSorted(sorted, 5, GroupAmount());
    Take(sorted, 5)
  }

  /** With non-negative totals the top entries hold no more than the period's
      sales. */
  lemma TopProductsWithinSales(ts: seq<ReportTransaction>, range: DateRange)
    requires forall i :: 0 <= i < |ts| ==> ts[i].total >= 0.0
    ensures Sum(TopProducts(ts, range), GroupAmount()) <= TotalSales(ts, range)
  {
    var f := Filtered(ts, range);
    assert forall i :: 0 <= i < |f| ==> f[i].total >= 0.0 by {
      forall i | 0 <= i < |f| ensures f[i].total >= 0.0 {
        assert f[i] in f;
      }
    }
    var groups := ProductSales(ts, range);
    GroupsNonNegative(f, NameKey());
    GroupTotal(f, NameKey());
    var sorted := SortDesc(groups, GroupAmount());
    SumSortDesc(groups, GroupAmount(), GroupAmount());
    forall j | 0 <= j < |sorted| ensures sorted[j].amount >= 0.0 {
      assert sorted[j] in multiset(groups);
    }
    TakeSumAtMost(sorted, 5, GroupAmount());
  }

  /** The top list has five entries, or as many as there are groups when there
      are fewer, and each entry is a customer's group with its period total. */
  lemma TopProductsAreGroups(ts: seq<ReportTransaction>, range: DateRange)
    ensures var groups, top := ProductSales(ts, range), TopProducts(ts, range);
      && |top| == (if |groups| < 5 then |groups| else 5)
      && forall j :: 0 <= j < |top| ==> top[j] in groups
  {
    var groups := ProductSales(ts, range);
    var sorted := SortDesc(groups, GroupAmount());
    var top := TopProducts(ts, range);
    assert top == Take(sorted, 5);
    forall j | 0 <= j < |top| ensures top[j] in groups {
      assert top[j] == sorted[j];
      assert sorted[j] in multiset(groups);
    }
  }

  /** The top list keeps the largest groups: it takes each group at most once,
      and every group it leaves out is no larger than any entry it keeps. */
  lemma TopProductsAreLargest(ts: seq<ReportTransaction>, range: DateRange)
    ensures var groups, top := ProductSales(ts, range), TopProducts(ts, range);
      && multiset(top) <= multiset(groups)
      && forall j, g: Group :: 0 <= j < |top| && g in multiset(groups) - multiset(top) ==> g.amount <= top[j].amount
  {
    var sorted := SortDesc(ProductSales(ts, range), GroupAmount());
    TakeKeepsLargest(sorted, 5, GroupAmount());
  }

  /** `salesByStatus`. */
  function SalesByStatus(ts: seq<ReportTransaction>, range: DateRange): seq<Group> {
    GroupSums(Filtered(ts, range), StatusKey())
  }

  /** The status buckets add up to the period's sales, and the pending bucket
      holds the rows with a pending, missing or empty status. */
  lemma StatusBucketsTotal(ts: seq<ReportTransaction>, range: DateRange)
    ensures Sum(SalesByStatus(ts, range), GroupAmount()) == TotalSales(ts, range)
    ensures AmountOf(SalesByStatus(ts, range), "pending") == SumWhere(Filtered(ts, range), KeyIs(StatusKey(), "pending"), TotalOf())
  {
    var f := Filtered(ts, range);
    assert SalesByStatus(ts, range) == GroupSums(f, StatusKey());
    assert TotalSales(ts, range) == Sum(f, TotalOf());
    GroupTotal(f, StatusKey());
    GroupAmounts(f, StatusKey());
  }

  // ---------------------------------------------------------------------------
  // Date ranges

  /** The initial range: today's local date at both ends. */
  function InitialRange(now: Instant, tz: int): DateRange {
    var today := Calendar.DayOf(now, tz);
    DateRange(today, today)
  }

  /** With the initial range only a transaction stamped exactly at midnight
      UTC of today's date is in the period. */
  lemma InitialRangeIsOneInstant(t: ReportTransaction, now: Instant, tz: int)
    ensures InPeriod(t, InitialRange(now, tz)) <==>
      t.createdAt == Some(Calendar.Midnight(Calendar.DayOf(now, tz)))
  {
  }

  /** `setQuickDateRange(days)`: from `days` days before today's local date to
      today's. */
  function QuickRange(now: Instant, tz: int, days: int): (r: DateRange)
    ensures r.to == Calendar.DayOf(now, tz) && r.to - r.from == days
  {
    var today := Calendar.DayOf(now, tz);
    DateRange(today - days, today)
  }

  /** After a quick range of `days` days the comparison window is the `days`
      days before it. */
  lemma QuickRangePrevious(now: Instant, tz: int, days: int)
    ensures PreviousStart(QuickRange(now, tz, days)) == Calendar.Midnight(Calendar.DayOf(now, tz) - 2 * days)
  {
  }
}
