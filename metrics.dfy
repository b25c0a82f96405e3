/** The read-only aggregations of `DatabaseStorage`: the dashboard counters of
    `getDashboardMetrics` and the per-product reduction of
    `getProductSalesHistory`. */
module Metrics {
  import opened Common
  import opened Schema
  import opened Folds
  import Calendar
  import Storage
  import Sorting

  /** `transaction_type != 'debt_collection' OR transaction_type IS NULL`. */
  predicate CountsAsOrder(t: Transaction) {
    t.transactionType.None? || t.transactionType.value != "debt_collection"
  }

  predicate IsCollection(t: Transaction) {
    t.transactionType == Some("debt_collection")
  }

  /** `status = 'completed'` together with the order filter (a NULL status is
      not 'completed'). */
  predicate IsCompletedSale(t: Transaction) {
    t.status == Some("completed") && CountsAsOrder(t)
  }

  function OrderFilter(): Transaction -> bool { (t: Transaction) => CountsAsOrder(t) }
  function CollectionFilter(): Transaction -> bool { (t: Transaction) => IsCollection(t) }
  function CompletedSaleFilter(): Transaction -> bool { (t: Transaction) => IsCompletedSale(t) }
  function StatusFilter(status: string): Transaction -> bool { (t: Transaction) => t.status == Some(status) }
  function TotalOf(): Transaction -> real { (t: Transaction) => t.total }

  /** `totalOrders`: rows that are not debt collections, whatever their status. */
  function TotalOrders(ts: seq<Transaction>): nat {
    Count(ts, OrderFilter())
  }

  /** `totalSales`: `COALESCE(SUM(total), 0)` over completed non-collection rows. */
  function TotalSales(ts: seq<Transaction>): Money {
    SumWhere(ts, CompletedSaleFilter(), TotalOf())
  }

  /** Every row is either an order or a debt collection, never both, so the
      order count is the table size less the collections. */
  lemma OrdersPlusCollections(ts: seq<Transaction>)
    ensures TotalOrders(ts) + Count(ts, CollectionFilter()) == |ts|
  {
    CountDisjoint(ts, OrderFilter(), CollectionFilter());
  }

  /** Recording a debt collection changes neither `totalOrders` nor `totalSales`. */
  lemma CollectionLeavesTotals(ts: seq<Transaction>, t: Transaction)
    requires IsCollection(t)
    ensures TotalOrders(ts + [t]) == TotalOrders(ts)
    ensures TotalSales(ts + [t]) == TotalSales(ts)
  {
    assert (ts + [t])[..|ts + [t]| - 1] == ts;
  }

  /** A completed sale adds one order and its total. */
  lemma SaleAddsTotals(ts: seq<Transaction>, t: Transaction)
    requires IsCompletedSale(t)
    ensures TotalOrders(ts + [t]) == TotalOrders(ts) + 1
    ensures TotalSales(ts + [t]) == TotalSales(ts) + t.total
  {
    assert (ts + [t])[..|ts + [t]| - 1] == ts;
  }

  /** `quantity <= min_quantity`; a NULL on either side compares as unknown and
      the product is not counted. */
  predicate IsLowStock(p: Product) {
    p.quantity.Some? && p.minQuantity.Some? && p.quantity.value <= p.minQuantity.value
  }

  function LowStock(products: map<Id, Product>): (r: set<Id>)
    ensures r <= products.Keys
    ensures forall id :: id in r <==> id in products && IsLowStock(products[id])
  {
    set id | id in products && IsLowStock(products[id])
  }

  function ActiveProducts(products: map<Id, Product>): (r: set<Id>)
    ensures r <= products.Keys
    ensures forall id :: id in r <==> id in products && products[id].isActive == Some(true)
  {
    set id | id in products && products[id].isActive == Some(true)
  }

  /** `EXTRACT(MONTH FROM created_at) = EXTRACT(MONTH FROM CURRENT_DATE)`: the
      month number alone, whatever the year (`tz` is the database zone offset). */
  predicate SameMonthNumber(t: Instant, now: Instant, tz: int) {
    Calendar.MonthOf(t, tz).month == Calendar.MonthOf(now, tz).month
  }

  function NewCustomers(customers: map<Id, Customer>, now: Instant, tz: int): (r: set<Id>)
    ensures r <= customers.Keys
    ensures forall id :: id in r <==> id in customers && SameMonthNumber(customers[id].createdAt, now, tz)
  {
    set id | id in customers && SameMonthNumber(customers[id].createdAt, now, tz)
  }

  /** `count(DISTINCT customer_id)` over this month-number's rows; NULLs are not
      counted. */
  function ActiveCustomers(ts: seq<Transaction>, now: Instant, tz: int): (r: set<Id>)
    ensures forall c :: c in r <==>
      exists i :: 0 <= i < |ts| && ts[i].customerId == Some(c) && SameMonthNumber(ts[i].createdAt, now, tz)
  {
    set i | 0 <= i < |ts| && ts[i].customerId.Some? && SameMonthNumber(ts[i].createdAt, now, tz)
      :: ts[i].customerId.value
  }

  /** When every customer reference resolves (the foreign key), the active
      customers are customers, so there are no more of them than customers. */
  lemma ActiveCustomersBounded(ts: seq<Transaction>, customers: map<Id, Customer>, now: Instant, tz: int)
    requires forall i :: 0 <= i < |ts| && ts[i].customerId.Some? ==> ts[i].customerId.value in customers
    ensures ActiveCustomers(ts, now, tz) <= customers.Keys
    ensures |ActiveCustomers(ts, now, tz)| <= |customers|
  {
    var a := ActiveCustomers(ts, now, tz);
    assert a <= customers.Keys;
    SubsetCard(a, customers.Keys);
  }

  /** A customer whose local creation date has the month of today's local
      date is new whatever the year, and one with another month is not: the
      counter compares month numbers only. */
  lemma NewCustomerByMonthNumber(customers: map<Id, Customer>, id: Id, now: Instant, tz: int,
                                 created: Calendar.Date, today: Calendar.Date)
    requires id in customers
    requires Calendar.ValidDate(created) && Calendar.DayOf(customers[id].createdAt, tz) == Calendar.DaysFromCivil(created)
    requires Calendar.ValidDate(today) && Calendar.DayOf(now, tz) == Calendar.DaysFromCivil(today)
    ensures id in NewCustomers(customers, now, tz) <==> created.month == today.month
  {
    Calendar.MonthOfDate(customers[id].createdAt, tz, created);
    Calendar.MonthOfDate(now, tz, today);
  }

  lemma SubsetCard(a: set<Id>, b: set<Id>)
    requires a <= b
    ensures |a| <= |b|
  {
    assert b == a + (b - a);
  }

  datatype DashboardMetrics = DashboardMetrics(
    totalSales: Money,
    totalOrders: nat,
    activeProducts: nat,
    newCustomers: nat,
    lowStockCount: nat,
    pendingOrders: nat,
    activeCustomers: nat,
    returnsCount: nat)

  /** `getDashboardMetrics()` at instant `now`. */
  function DashboardMetricsOf(customers: map<Id, Customer>, products: map<Id, Product>,
                              ts: seq<Transaction>, now: Instant, tz: int): (m: DashboardMetrics)
    ensures m.totalOrders <= |ts|
    ensures m.pendingOrders + m.returnsCount <= |ts|
    ensures m.lowStockCount <= |products| && m.activeProducts <= |products|
    ensures m.newCustomers <= |customers|
    ensures m.totalSales == TotalSales(ts) && m.totalOrders == TotalOrders(ts)
    ensures m.activeProducts == |ActiveProducts(products)| && m.lowStockCount == |LowStock(products)|
    ensures m.newCustomers == |NewCustomers(customers, now, tz)|
    ensures m.activeCustomers == |ActiveCustomers(ts, now, tz)|
    ensures m.pendingOrders == Count(ts, StatusFilter("pending"))
    ensures m.returnsCount == Count(ts, StatusFilter("cancelled"))
  {
    CountAtMostLength(ts, OrderFilter());
    CountDisjoint(ts, StatusFilter("pending"), StatusFilter("cancelled"));
    SubsetCard(LowStock(products), products.Keys);
    SubsetCard(ActiveProducts(products), products.Keys);
    SubsetCard(NewCustomers(customers, now, tz), customers.Keys);
    DashboardMetrics(
      TotalSales(ts),
      TotalOrders(ts),
      |ActiveProducts(products)|,
      |NewCustomers(customers, now, tz)|,
      |LowStock(products)|,
      Count(ts, StatusFilter("pending")),
      |ActiveCustomers(ts, now, tz)|,
      Count(ts, StatusFilter("cancelled")))
  }

  /** With non-negative totals the sales figure is non-negative. */
  lemma TotalSalesNonNegative(ts: seq<Transaction>)
    requires forall i :: 0 <= i < |ts| ==> ts[i].total >= 0.0
    ensures TotalSales(ts) >= 0.0
  {
    SumWhereNonNegative(ts, CompletedSaleFilter(), TotalOf());
  }

  // ---------------------------------------------------------------------------
  // getProductSalesHistory

  /** One row of the item/transaction left join; the transaction columns are
      NULL when no transaction row matches. */
  datatype SaleRecord = SaleRecord(
    transactionId: Id,
    transactionNumber: Option<string>,
    customerName: Option<string>,
    quantity: int,
    price: Money,
    total: Money,
    saleDate: Option<Instant>,
    status: Option<string>)

  datatype SalesHistory = SalesHistory(totalQuantitySold: int, totalSales: nat, salesHistory: seq<SaleRecord>)

  /** The joined record of one item. */
  function Joined(it: TransactionItem, ts: seq<Transaction>): SaleRecord {
    var k := Storage.FindTx(ts, it.transactionId);
    if k.None? then SaleRecord(it.transactionId, None, None, it.quantity, it.price, it.total, None, None)
    else
      var t := ts[k.value];
      SaleRecord(it.transactionId, Some(t.number), Some(t.customerName), it.quantity, it.price, it.total,
                 Some(t.createdAt), t.status)
  }

  function OfProduct(productId: Id): TransactionItem -> bool { (it: TransactionItem) => it.productId == productId }
  function QuantityOf(): SaleRecord -> int { (r: SaleRecord) => r.quantity }

  function ItemQuantity(): TransactionItem -> int { (it: TransactionItem) => it.quantity }

  /** The joined rows of one product's items, in item order: row `j` is the
      join of the `j`-th item of the product. */
  function HistoryRows(items: seq<TransactionItem>, ts: seq<Transaction>, productId: Id): (r: seq<SaleRecord>)
    ensures |r| == Count(items, OfProduct(productId))
    ensures |r| == |Filter(items, OfProduct(productId))|
    ensures forall j :: 0 <= j < |r| ==> r[j] == Joined(Filter(items, OfProduct(productId))[j], ts)
  {
    if items == [] then []
    else
      var last := items[|items| - 1];
      HistoryRows(items[..|items| - 1], ts, productId) + (if last.productId == productId then [Joined(last, ts)] else [])
  }

  /** The quantity summed over the joined rows is the quantity summed over the
      product's items: the join carries each item's quantity over. */
  lemma {:induction false} HistoryQuantity(items: seq<TransactionItem>, ts: seq<Transaction>, productId: Id)
    ensures SumInt(HistoryRows(items, ts, productId), QuantityOf())
         == SumInt(Filter(items, OfProduct(productId)), ItemQuantity())
  {
    if items != [] {
      var init := items[..|items| - 1];
      var last := items[|items| - 1];
      var rows := HistoryRows(init, ts, productId);
      var mine := Filter(init, OfProduct(productId));
      HistoryQuantity(init, ts, productId);
      if last.productId == productId {
        assert HistoryRows(items, ts, productId) == rows + [Joined(last, ts)];
        assert Filter(items, OfProduct(productId)) == mine + [last];
        SumIntConcat(rows, [Joined(last, ts)], QuantityOf());
        SumIntConcat(mine, [last], ItemQuantity());
        assert [Joined(last, ts)][..0] == [] && [last][..0] == [];
      } else {
        assert HistoryRows(items, ts, productId) == rows;
        assert Filter(items, OfProduct(productId)) == mine;
      }
    }
  }

  function Undated(): SaleRecord -> bool { (r: SaleRecord) => r.saleDate.None? }
  function Dated(): SaleRecord -> bool { (r: SaleRecord) => r.saleDate.Some? }
  function SaleDateKey(): SaleRecord -> real {
    (r: SaleRecord) => if r.saleDate.Some? then r.saleDate.value as real else 0.0
  }

  /** The first `k` rows have no sale date and the rest are dated, newest first. */
  predicate UndatedFirstThenNewest(r: seq<SaleRecord>, k: int)
    requires 0 <= k <= |r|
  {
    && (forall i :: 0 <= i < k ==> r[i].saleDate.None?)
    && (forall i :: k <= i < |r| ==> r[i].saleDate.Some?)
    && (forall i, j :: k <= i < j < |r| ==> r[i].saleDate.value >= r[j].saleDate.value)
  }

  /** `ORDER BY transactions.created_at DESC`: PostgreSQL sorts NULLs as larger
      than every value, so the rows without a transaction come first, then the
      others newest first. */
  function NewestFirst(rows: seq<SaleRecord>): (r: seq<SaleRecord>)
    ensures multiset(r) == multiset(rows)
    ensures exists k :: 0 <= k <= |r| && UndatedFirstThenNewest(r, k)
  {
    FilterPartition(rows, Undated(), Dated());
    var undated := Filter(rows, Undated());
    var dated := Filter(rows, Dated());
    var sorted := Sorting.SortDesc(dated, SaleDateKey());
    forall i | 0 <= i < |sorted|
      ensures sorted[i].saleDate.Some?
    {
      assert sorted[i] in multiset(dated);
    }
    UndatedThenDated(undated, sorted);
    assert multiset(undated + sorted) == multiset(rows);
    undated + sorted
  }

  lemma UndatedThenDated(undated: seq<SaleRecord>, sorted: seq<SaleRecord>)
    requires forall i :: 0 <= i < |undated| ==> undated[i].saleDate.None?
    requires forall i :: 0 <= i < |sorted| ==> sorted[i].saleDate.Some?
    requires Sorting.SortedDesc(sorted, SaleDateKey())
    ensures UndatedFirstThenNewest(undated + sorted, |undated|)
  {
    var r := undated + sorted;
    var k := |undated|;
    assert forall i :: 0 <= i < k ==> r[i] == undated[i];
    assert forall i :: k <= i < |r| ==> r[i] == sorted[i - k];
    forall i, j | k <= i < j < |r|
      ensures r[i].saleDate.value >= r[j].saleDate.value
    {
      assert r[i] == sorted[i - k] && r[j] == sorted[j - k];
      assert SaleDateKey()(sorted[i - k]) >= SaleDateKey()(sorted[j - k]);
    }
  }

  /** `getProductSalesHistory(productId)`: the product's joined rows newest
      first; the sale count is their number and the quantity sold their summed
      quantity, whatever their order. */
  function ProductSalesHistory(items: seq<TransactionItem>, ts: seq<Transaction>, productId: Id): (h: SalesHistory)
    ensures multiset(h.salesHistory) == multiset(HistoryRows(items, ts, productId))
    ensures h.totalSales == |h.salesHistory| == Count(items, OfProduct(productId))
    ensures h.totalQuantitySold == SumInt(HistoryRows(items, ts, productId), QuantityOf())
    ensures h.totalQuantitySold == SumInt(Filter(items, OfProduct(productId)), ItemQuantity())
  {
    HistoryQuantity(items, ts, productId);
    var rows := NewestFirst(HistoryRows(items, ts, productId));
    assert |rows| == |multiset(rows)|;
    SumIntPermutation(rows, HistoryRows(items, ts, productId), QuantityOf());
    SalesHistory(SumInt(rows, QuantityOf()), |rows|, rows)
  }

  /** Inserting an item of the product adds one sale and its quantity; an item
      of another product leaves the history's totals as they were. */
  lemma {:induction false} HistoryAfterItem(items: seq<TransactionItem>, ts: seq<Transaction>, productId: Id, it: TransactionItem)
    ensures var before := ProductSalesHistory(items, ts, productId);
      var after := ProductSalesHistory(items + [it], ts, productId);
      && (it.productId == productId ==>
            after.totalSales == before.totalSales + 1
            && after.totalQuantitySold == before.totalQuantitySold + it.quantity)
      && (it.productId != productId ==> after == before)
  {
    assert (items + [it])[..|items + [it]| - 1] == items;
    var rows := HistoryRows(items, ts, productId);
    if it.productId == productId {
      assert HistoryRows(items + [it], ts, productId) == rows + [Joined(it, ts)];
      SumIntConcat(rows, [Joined(it, ts)], QuantityOf());
      assert SumInt([Joined(it, ts)], QuantityOf()) == it.quantity by { assert [Joined(it, ts)][..0] == []; }
    } else {
      assert HistoryRows(items + [it], ts, productId) == rows;
    }
  }
}
