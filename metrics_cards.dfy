/** The dashboard cards' `select` over the metrics response (`MetricsCards`):
    the server's figures when it sent a sales total, otherwise a fallback
    computed from a transaction list in the response. */
module MetricsCards {
  import opened Common
  import opened Folds
  import Schema
  import Metrics

  /** A transaction as the client reads it; `total` is `None` when it is
      missing or not a number. */
  datatype ClientTransaction = ClientTransaction(status: Option<string>, transactionType: Option<string>, total: Option<real>)

  /** The fields of the response the cards read (`None` = undefined or null). */
  datatype Payload = Payload(
    totalSales: Option<real>,
    totalOrders: Option<real>,
    activeProducts: Option<real>,
    newCustomers: Option<real>,
    transactions: Option<seq<ClientTransaction>>)

  datatype CardMetrics = CardMetrics(totalSales: real, totalOrders: real, activeProducts: real, newCustomers: real)

  /** `!t.transactionType || t.transactionType !== "debt_collection"`. */
  predicate IsOrder(t: ClientTransaction) {
    t.transactionType != Some("debt_collection")
  }

  /** A completed order with a numeric total above 0. */
  predicate IsCountedSale(t: ClientTransaction) {
    t.status == Some("completed") && IsOrder(t) && t.total.Some? && t.total.value > 0.0
  }

  function OrderFilter(): ClientTransaction -> bool { (t: ClientTransaction) => IsOrder(t) }
  function SaleFilter(): ClientTransaction -> bool { (t: ClientTransaction) => IsCountedSale(t) }
  function SaleAmount(): ClientTransaction -> real { (t: ClientTransaction) => t.total.GetOr(0.0) }

  /** `Number(x || 0)` for an optional number. */
  function OrZero(x: Option<real>): real {
    x.GetOr(0.0)
  }

  /** The `select` function of the metrics query. */
  function SelectMetrics(data: Option<Payload>): (m: CardMetrics)
    ensures data.Some? && data.value.totalSales.Some? ==>
      m == CardMetrics(data.value.totalSales.value, OrZero(data.value.totalOrders),
                       OrZero(data.value.activeProducts), OrZero(data.value.newCustomers))
    ensures (data.None? || (data.value.totalSales.None? && (data.value.transactions.None? || data.value.transactions.value == []))) ==>
      m == CardMetrics(0.0, 0.0, 0.0, 0.0)
    ensures data.Some? && data.value.totalSales.None? && data.value.transactions.Some? && data.value.transactions.value != [] ==>
      var ts := data.value.transactions.value;
      && m.totalSales == SumWhere(ts, SaleFilter(), SaleAmount())
      && m.totalOrders == Count(ts, OrderFilter()) as real
      && m.totalSales >= 0.0
      && m.activeProducts == OrZero(data.value.activeProducts)
      && m.newCustomers == OrZero(data.value.newCustomers)
  {
    if data.Some? && data.value.totalSales.Some? then
      CardMetrics(data.value.totalSales.value, OrZero(data.value.totalOrders),
                  OrZero(data.value.activeProducts), OrZero(data.value.newCustomers))
    else if data.None? || data.value.transactions.None? || data.value.transactions.value == [] then
      CardMetrics(0.0, 0.0, 0.0, 0.0)
    else
      var ts := data.value.transactions.value;
      SumWhereNonNegative(ts, SaleFilter(), SaleAmount());
      CardMetrics(SumWhere(ts, SaleFilter(), SaleAmount()), Count(ts, OrderFilter()) as real,
                  OrZero(data.value.activeProducts), OrZero(data.value.newCustomers))
  }

  /** Every counted sale is an order, so no more transactions add to the sales
      figure than the order count. */
  lemma SalesWithinOrders(ts: seq<ClientTransaction>)
    ensures Count(ts, SaleFilter()) <= Count(ts, OrderFilter())
  {
    CountMonotone(ts, SaleFilter(), OrderFilter());
  }

  /** A stored row as the client receives it. */
  function AsClient(t: Schema.Transaction): ClientTransaction {
    ClientTransaction(t.status, t.transactionType, Some(t.total))
  }

  function AllAsClient(ts: seq<Schema.Transaction>): (r: seq<ClientTransaction>)
    ensures |r| == |ts|
    ensures forall i :: 0 <= i < |ts| ==> r[i] == AsClient(ts[i])
  {
    seq(|ts|, i requires 0 <= i < |ts| => AsClient(ts[i]))
  }

  /** On the stored rows, the fallback agrees with the server's
      `getDashboardMetrics` on the order count, and on the sales figure when
      every total is positive (the client skips a total of 0 or less, the
      server does not). */
  lemma {:induction false} FallbackMatchesServer(ts: seq<Schema.Transaction>)
    ensures Count(AllAsClient(ts), OrderFilter()) == Metrics.TotalOrders(ts)
    ensures (forall i :: 0 <= i < |ts| ==> ts[i].total > 0.0) ==>
      SumWhere(AllAsClient(ts), SaleFilter(), SaleAmount()) == Metrics.TotalSales(ts)
  {
    if ts != [] {
      var init := ts[..|ts| - 1];
      FallbackMatchesServer(init);
      assert AllAsClient(ts)[..|ts| - 1] == AllAsClient(init);
    }
  }
}
