/** The request handlers of `server/routes.ts` that orchestrate several storage
    calls: each is a method on the store that answers with a status code and a
    body. Handlers run one after another; a storage call that throws ends the
    handler with the status of its `catch`, leaving earlier writes in place. */
module Routes {
  import opened Common
  import opened Schema
  import opened Ledger
  import opened Storage
  import opened Folds
  import Calendar
  import Text

  datatype Body =
    | Message(text: string)
    | Created(transaction: Transaction)
    | PaymentProcessed(newDebt: Money, paymentAmount: Money)
    | PaymentRecorded(remainingAmount: Money, amount: Money, remainingDebt: Money, message: string)
    | ItemsUpdated
    | ShipmentStored(shipment: Shipment)
    | NoContent

  datatype Response = Response(status: int, body: Body)

  // ---------------------------------------------------------------------------
  // POST /api/transactions

  /** Whether `createTransactionItem` accepts an item once the transaction row
      exists: both NOT NULL columns are given and the product exists. */
  predicate Placeable(input: ItemInput, products: map<Id, Product>) {
    input.productId.Some? && input.productName.Some? && input.productId.value in products
  }

  /** The index of the first item the insert refuses, or the number of items. */
  function FirstRefused(inputs: seq<ItemInput>, products: map<Id, Product>): (k: nat)
    ensures k <= |inputs|
    ensures forall j :: 0 <= j < k ==> Placeable(inputs[j], products)
    ensures k < |inputs| ==> !Placeable(inputs[k], products)
  {
    if inputs == [] then 0
    else if !Placeable(inputs[0], products) then 0
    else
      var k := FirstRefused(inputs[1..], products);
      assert forall j :: 1 <= j < k + 1 ==> inputs[j] == inputs[1..][j - 1];
      k + 1
  }

  /** Past a placeable item that is not beyond the first refused one, the first
      refused one lies further on. */
  lemma PlaceableStep(inputs: seq<ItemInput>, products: map<Id, Product>, k: nat)
    requires k < |inputs| && k <= FirstRefused(inputs, products) && Placeable(inputs[k], products)
    ensures k + 1 <= FirstRefused(inputs, products)
  {
  }

  /** The stock change of one accepted item (`updateProductStock(..., "subtract")`
      when its quantity is not 0). */
  function ApplyItem(products: map<Id, Product>, input: ItemInput, now: Instant): map<Id, Product> {
    if input.productId.Some? && input.productId.value in products && input.quantity != 0 then
      products[input.productId.value := Restocked(products[input.productId.value], input.quantity, Subtract, now)]
    else products
  }

  /** The stock after the items, in input order. */
  function StockAfter(products: map<Id, Product>, inputs: seq<ItemInput>, now: Instant): map<Id, Product> {
    if inputs == [] then products
    else ApplyItem(StockAfter(products, inputs[..|inputs| - 1], now), inputs[|inputs| - 1], now)
  }

  /** Stock changes never add or remove products. */
  lemma {:induction false} StockAfterKeys(products: map<Id, Product>, inputs: seq<ItemInput>, now: Instant)
    ensures StockAfter(products, inputs, now).Keys == products.Keys
    ensures forall id :: id in StockAfter(products, inputs, now) <==> id in products
  {
    if inputs != [] {
      StockAfterKeys(products, inputs[..|inputs| - 1], now);
    }
  }

  /** The stock after `k + 1` items is the stock after `k` with item `k` applied. */
  lemma StockAfterNext(products: map<Id, Product>, inputs: seq<ItemInput>, k: nat, now: Instant)
    requires k < |inputs|
    ensures StockAfter(products, inputs[..k + 1], now) == ApplyItem(StockAfter(products, inputs[..k], now), inputs[k], now)
  {
    assert inputs[..k + 1][..k] == inputs[..k];
  }

  /** Whether some item with a quantity other than 0 names product `id`. */
  predicate Mentions(inputs: seq<ItemInput>, id: Id) {
    exists j :: 0 <= j < |inputs| && inputs[j].productId == Some(id) && inputs[j].quantity != 0
  }

  /** An item list names a product exactly when its prefix does or its last
      item does. */
  lemma MentionsSplit(inputs: seq<ItemInput>, id: Id)
    requires inputs != []
    ensures Mentions(inputs, id) <==>
      Mentions(inputs[..|inputs| - 1], id)
      || (inputs[|inputs| - 1].productId == Some(id) && inputs[|inputs| - 1].quantity != 0)
  {
    var init := inputs[..|inputs| - 1];
    assert forall j :: 0 <= j < |init| ==> init[j] == inputs[j];
  }

  /** A product no item names keeps its row; a product some item names ends
      with a recorded, non-negative quantity, whatever the items' signs. */
  lemma {:induction false} StockAfterEffect(products: map<Id, Product>, inputs: seq<ItemInput>, now: Instant, id: Id)
    requires id in products
    ensures id in StockAfter(products, inputs, now)
    ensures !Mentions(inputs, id) ==> StockAfter(products, inputs, now)[id] == products[id]
    ensures Mentions(inputs, id) ==>
      && StockAfter(products, inputs, now)[id].quantity.Some?
      && StockAfter(products, inputs, now)[id].quantity.value >= 0
      && StockAfter(products, inputs, now)[id].sku == products[id].sku
  {
    StockAfterKeys(products, inputs, now);
    if inputs != [] {
      StockAfterEffect(products, inputs[..|inputs| - 1], now, id);
      MentionsSplit(inputs, id);
    }
  }

  /** The item loop of POST /api/transactions: `createTransactionItem` for each
      item in order, stopping at the first the insert refuses. Returns how many
      were placed; each placed item has its row and its stock decrement. */
  method PlaceItems(s: Store, txId: Id, inputs: seq<ItemInput>, now: Instant) returns (placed: nat)
    requires s.Valid() && txId in TxIds(s.transactions)
    modifies s
    ensures s.Valid()
    ensures placed == FirstRefused(inputs, old(s.products))
    ensures s.items == old(s.items) + ItemRows(old(s.nextId), txId, inputs[..placed])
    ensures s.products == StockAfter(old(s.products), inputs[..placed], now)
    ensures s.nextId == old(s.nextId) + placed
    ensures s.customers == old(s.customers) && s.suppliers == old(s.suppliers)
    ensures s.transactions == old(s.transactions) && s.shipments == old(s.shipments)
  {
    ghost var products0 := s.products;
    assert inputs[..0] == [];
    placed := 0;
    while placed < |inputs|
      invariant placed <= FirstRefused(inputs, products0)
      invariant s.Valid() && txId in TxIds(s.transactions)
      invariant s.items == old(s.items) + ItemRows(old(s.nextId), txId, inputs[..placed])
      invariant s.products == StockAfter(products0, inputs[..placed], now)
      invariant s.nextId == old(s.nextId) + placed
      invariant s.customers == old(s.customers) && s.suppliers == old(s.suppliers)
      invariant s.transactions == old(s.transactions) && s.shipments == old(s.shipments)
    {
      var ok := PlaceNext(s, txId, inputs, placed, products0, old(s.items), old(s.nextId), now);
      if !ok {
        return;
      }
      placed := placed + 1;
    }
  }

  /** One step of the item loop: item `k` is inserted when it is placeable, which
      extends the rows and the stock changes by that item; otherwise nothing is
      written and `k` is the first refused index. */
  method PlaceNext(s: Store, txId: Id, inputs: seq<ItemInput>, k: nat, ghost products0: map<Id, Product>,
                   ghost items0: seq<TransactionItem>, ghost firstId: Id, now: Instant) returns (ok: bool)
    requires s.Valid() && txId in TxIds(s.transactions)
    requires k < |inputs| && k <= FirstRefused(inputs, products0)
    requires s.items == items0 + ItemRows(firstId, txId, inputs[..k])
    requires s.products == StockAfter(products0, inputs[..k], now)
    requires s.nextId == firstId + k
    modifies s
    ensures s.Valid() && txId in TxIds(s.transactions)
    ensures !ok ==>
      && k == FirstRefused(inputs, products0)
      && s.items == old(s.items) && s.products == old(s.products) && s.nextId == old(s.nextId)
    ensures ok ==>
      && k + 1 <= FirstRefused(inputs, products0)
      && s.items == items0 + ItemRows(firstId, txId, inputs[..k + 1])
      && s.products == StockAfter(products0, inputs[..k + 1], now)
      && s.nextId == old(s.nextId) + 1
    ensures s.customers == old(s.customers) && s.suppliers == old(s.suppliers)
    ensures s.transactions == old(s.transactions) && s.shipments == old(s.shipments)
  {
    StockAfterKeys(products0, inputs[..k], now);
    ghost var stock := s.products;
    var r := s.CreateTransactionItem(inputs[k], txId, now);
    ok := r.Ok?;
    if ok {
      assert s.products == ApplyItem(stock, inputs[k], now);
      PlacedStep(inputs, k, products0, items0, firstId, txId, now, stock, old(s.items), r.value);
    }
  }

  /** The row and the stock change of an accepted item `k` extend the rows and
      the stock of the items before it to those of the items up to `k`. */
  lemma PlacedStep(inputs: seq<ItemInput>, k: nat, products0: map<Id, Product>, items0: seq<TransactionItem>,
                   firstId: Id, txId: Id, now: Instant, stock: map<Id, Product>,
                   items: seq<TransactionItem>, row: TransactionItem)
    requires k < |inputs| && k <= FirstRefused(inputs, products0)
    requires stock == StockAfter(products0, inputs[..k], now)
    requires Placeable(inputs[k], stock)
    requires items == items0 + ItemRows(firstId, txId, inputs[..k])
    requires row == ItemRow(firstId + k, txId, inputs[k])
    ensures k + 1 <= FirstRefused(inputs, products0)
    ensures items + [row] == items0 + ItemRows(firstId, txId, inputs[..k + 1])
    ensures ApplyItem(stock, inputs[k], now) == StockAfter(products0, inputs[..k + 1], now)
  {
    StockAfterKeys(products0, inputs[..k], now);
    PlaceableStep(inputs, products0, k);
    ItemRowsNext(firstId, txId, inputs, k);
    StockAfterNext(products0, inputs, k, now);
  }

  /** The customer table after a sale: a credit sale with a known customer
      raises that customer's balance by its total, converted to TRY; any other
      sale leaves the table as it is. */
  function Charged(customers: map<Id, Customer>, data: NewTransaction, now: Instant): (r: map<Id, Customer>)
    ensures r.Keys == customers.Keys
    ensures forall id :: id in customers && Some(id) != data.customerId ==> r[id] == customers[id]
    ensures data.paymentType == "credit" && data.customerId.Some? && data.customerId.value in customers ==>
      DebtOf(r[data.customerId.value]) == DebtOf(customers[data.customerId.value]) + InTry(data.total, data.currency)
    ensures data.paymentType != "credit" ==> r == customers
  {
    if data.paymentType == "credit" && data.customerId.Some? && data.customerId.value in customers then
      var c := customers[data.customerId.value];
      customers[data.customerId.value := Rebalanced(c, NewDebt(DebtOf(c), data.total, data.currency, Add), now)]
    else customers
  }

  /** POST /api/transactions. 400 when `transaction` is missing, `items` is
      missing or empty, or the schema refuses the transaction (nothing written).
      Otherwise the transaction row is created (500 if the insert fails), then
      the items in order, each with its stock decrement, up to the first refused
      one (500, earlier items and decrements kept); after all items, a credit
      sale with a customer adds its total to that customer's debt; 201. */
  method PostTransaction(s: Store, transaction: Option<TransactionInput>, items: Option<seq<ItemInput>>, now: Instant)
    returns (resp: Response)
    requires s.Valid()
    modifies s
    ensures s.Valid()
    ensures s.suppliers == old(s.suppliers) && s.shipments == old(s.shipments)
    ensures transaction.None? || items.None? || items.value == [] ||
            ParseTransaction(transaction.value).Err? ==>
      && resp.status == 400
      && s.customers == old(s.customers) && s.products == old(s.products)
      && s.transactions == old(s.transactions) && s.items == old(s.items) && s.nextId == old(s.nextId)
    ensures transaction.Some? && items.Some? && items.value != [] && ParseTransaction(transaction.value).Ok? ==>
      var data := ParseTransaction(transaction.value).value;
      var number := Codes.NextInvoiceNumber(LastNumber(old(s.transactions)));
      var row := TransactionRow(old(s.nextId), number, data, now);
      var inputs := items.value;
      var k := FirstRefused(inputs, old(s.products));
      if number in Numbers(old(s.transactions))
         || (data.customerId.Some? && data.customerId.value !in old(s.customers)) then
        && resp.status == 500
        && s.customers == old(s.customers) && s.products == old(s.products)
        && s.transactions == old(s.transactions) && s.items == old(s.items) && s.nextId == old(s.nextId)
      else
        && s.transactions == old(s.transactions) + [row]
        && s.items == old(s.items) + ItemRows(old(s.nextId) + 1, row.id, inputs[..k])
        && s.products == StockAfter(old(s.products), inputs[..k], now)
        && s.nextId == old(s.nextId) + 1 + k
        && (k < |inputs| ==> resp.status == 500 && s.customers == old(s.customers))
        && (k == |inputs| ==>
              && resp == Response(201, Created(row))
              && s.customers == Charged(old(s.customers), data, now))
  {
    if transaction.None? {
      return Response(400, Message("Missing transaction data"));
    }
    if items.None? || items.value == [] {
      return Response(400, Message("Missing or empty items"));
    }
    var parsed := ParseTransaction(transaction.value);
    if parsed.Err? {
      return Response(400, Message("Invalid transaction data"));
    }
    var data := parsed.value;
    var created := s.CreateTransaction(data, now);
    if created.Err? {
      return Response(500, Message("Failed to create transaction"));
    }
    var row := created.value;
    TxIdsAppend(old(s.transactions), row);
    var placed := PlaceItems(s, row.id, items.value, now);
    if placed < |items.value| {
      return Response(500, Message("Failed to create transaction"));
    }
    if data.paymentType == "credit" && data.customerId.Some? {
      var _ := s.UpdateCustomerDebt(data.customerId.value, data.total, data.currency, Add, now);
    }
    resp := Response(201, Created(row));
  }

  // ---------------------------------------------------------------------------
  // POST /api/customers/:id/payment

  /** The debt-collection record the customer payment route parses. */
  function CustomerPaymentInput(customerId: Id, c: Customer, amount: Money, currency: string): TransactionInput {
    TransactionInput(Some(customerId), Some(c.name), Some(amount), Some("cash"), Some(currency),
                     Some("completed"), Some("debt_collection"))
  }

  /** POST /api/customers/:id/payment. 404 for an unknown customer and 400 for
      an amount that is not positive, with nothing written. Otherwise the debt
      is reduced (converted from `currency`, default TRY, never below 0), then a
      completed cash `debt_collection` transaction of the amount is created; the
      reported `newDebt` is the stored balance. A currency the schema refuses,
      or a failed insert, gives 500 after the debt was already reduced. */
  method PostCustomerPayment(s: Store, customerId: Id, amount: Money, currency: Option<string>, now: Instant)
    returns (resp: Response)
    requires s.Valid()
    modifies s
    ensures s.Valid()
    ensures s.products == old(s.products) && s.suppliers == old(s.suppliers)
    ensures s.items == old(s.items) && s.shipments == old(s.shipments)
    ensures customerId !in old(s.customers) ==>
      resp.status == 404 && s.customers == old(s.customers) && s.transactions == old(s.transactions)
      && s.nextId == old(s.nextId)
    ensures customerId in old(s.customers) && amount <= 0.0 ==>
      resp.status == 400 && s.customers == old(s.customers) && s.transactions == old(s.transactions)
      && s.nextId == old(s.nextId)
    ensures customerId in old(s.customers) && amount > 0.0 ==>
      var c := old(s.customers)[customerId];
      var cur := currency.GetOr("TRY");
      var debt := NewDebt(DebtOf(c), amount, cur, Subtract);
      var number := Codes.NextInvoiceNumber(LastNumber(old(s.transactions)));
      var data := NewTransaction(Some(customerId), c.name, amount, "cash", cur, Some("completed"), "debt_collection");
      && s.customers == old(s.customers)[customerId := Rebalanced(c, debt, now)]
      && (cur !in Currencies || number in Numbers(old(s.transactions)) ==>
            resp.status == 500 && s.transactions == old(s.transactions) && s.nextId == old(s.nextId))
      && (cur in Currencies && number !in Numbers(old(s.transactions)) ==>
            && resp == Response(200, PaymentProcessed(debt, amount))
            && debt >= 0.0
            && s.transactions == old(s.transactions) + [TransactionRow(old(s.nextId), number, data, now)]
            && s.nextId == old(s.nextId) + 1)
  {
    if customerId !in s.customers {
      return Response(404, Message("Customer not found"));
    }
    var c := s.customers[customerId];
    if amount <= 0.0 {
      return Response(400, Message("Payment amount must be greater than 0"));
    }
    var cur := currency.GetOr("TRY");
    var newDebt := s.UpdateCustomerDebt(customerId, amount, cur, Subtract, now);
    var parsed := ParseTransaction(CustomerPaymentInput(customerId, c, amount, cur));
    if parsed.Err? {
      return Response(500, Message("Failed to process payment"));
    }
    var created := s.CreateTransaction(parsed.value, now);
    if created.Err? {
      return Response(500, Message("Failed to process payment"));
    }
    resp := Response(200, PaymentProcessed(MaxReal(0.0, newDebt.GetOr(0.0)), amount));
  }

  // ---------------------------------------------------------------------------
  // POST /api/payments

  /** The debt-collection record `/api/payments` parses: it copies the paid
      transaction's currency. */
  function PaymentInput(customerId: Id, c: Customer, amount: Money, t: Transaction): TransactionInput {
    TransactionInput(Some(customerId), Some(c.name), Some(amount), Some("debt_collection"),
                     Some(t.currency.GetOr("TRY")), Some("completed"), Some("debt_collection"))
  }

  /** The response of `/api/payments` for a found transaction `t`, a customer's
      balance before the payment (0 for an unknown customer) and the amount. */
  function PaymentReply(t: Transaction, debtBefore: Money, amount: Money): (r: Response)
    ensures r.status == 200 && r.body.PaymentRecorded?
    ensures r.body.remainingAmount + amount == t.total
    ensures r.body.remainingDebt >= 0.0 && r.body.remainingDebt >= debtBefore - amount
    ensures r.body.message == "Payment completed" <==> t.total == amount
  {
    var remaining := t.total - amount;
    Response(200, PaymentRecorded(remaining, amount, MaxReal(0.0, debtBefore - amount),
      if remaining == 0.0 then "Payment completed" else "Partial payment recorded"))
  }

  /** The customer table after `/api/payments` lowers customer `id`'s balance by
      `amount`, whatever the currency, never below 0. */
  function PaidDown(customers: map<Id, Customer>, id: Id, amount: Money, now: Instant): (r: map<Id, Customer>)
    requires id in customers
    ensures r.Keys == customers.Keys
    ensures DebtOf(r[id]) >= 0.0 && DebtOf(r[id]) >= DebtOf(customers[id]) - amount
    ensures DebtOf(r[id]) == 0.0 || DebtOf(r[id]) == DebtOf(customers[id]) - amount
    ensures r[id].name == customers[id].name && r[id].debtCurrency == customers[id].debtCurrency
    ensures forall other :: other in customers && other != id ==> r[other] == customers[other]
  {
    var c := customers[id];
    customers[id := c.(totalDebt := Some(MaxReal(0.0, DebtOf(c) - amount)), updatedAt := now)]
  }

  /** The writes of `/api/payments` for a known customer paying `amount` on
      transaction `t` (id `txId`): the balance becomes max(0, balance − amount)
      in whatever currency, a completed `debt_collection` record copying the
      transaction's currency is created, and the paid transaction is marked
      completed only when the new balance is exactly 0. */
  method SettlePayment(s: Store, customerId: Id, t: Transaction, txId: Id, amount: Money, now: Instant)
    returns (resp: Response)
    requires s.Valid() && customerId in s.customers
    modifies s
    ensures s.Valid()
    ensures s.products == old(s.products) && s.suppliers == old(s.suppliers)
    ensures s.items == old(s.items) && s.shipments == old(s.shipments)
    ensures s.customers == PaidDown(old(s.customers), customerId, amount, now)
    ensures
      var c := old(s.customers)[customerId];
      var debt := MaxReal(0.0, DebtOf(c) - amount);
      var cur := t.currency.GetOr("TRY");
      var number := Codes.NextInvoiceNumber(LastNumber(old(s.transactions)));
      var data := NewTransaction(Some(customerId), c.name, amount, "debt_collection", cur,
                                 Some("completed"), "debt_collection");
      var record := TransactionRow(old(s.nextId), number, data, now);
      && (cur !in Currencies || number in Numbers(old(s.transactions)) ==>
            resp.status == 500 && s.transactions == old(s.transactions) && s.nextId == old(s.nextId))
      && (cur in Currencies && number !in Numbers(old(s.transactions)) ==>
            && resp == PaymentReply(t, DebtOf(c), amount)
            && s.nextId == old(s.nextId) + 1
            && s.transactions ==
                 if debt == 0.0 then SetStatus(old(s.transactions) + [record], txId, "completed", now)
                 else old(s.transactions) + [record])
  {
    var c := s.customers[customerId];
    var debt := MaxReal(0.0, DebtOf(c) - amount);
    s.SetCustomerDebt(customerId, debt, now);
    ghost var customers1 := s.customers;
    var parsed := ParseTransaction(PaymentInput(customerId, c, amount, t));
    if parsed.Err? {
      return Response(500, Message("Internal server error"));
    }
    var created := s.CreateTransaction(parsed.value, now);
    if created.Err? {
      return Response(500, Message("Internal server error"));
    }
    if debt == 0.0 {
      s.UpdateTransactionStatus(txId, "completed", now);
    }
    assert s.customers == customers1;
    resp := PaymentReply(t, DebtOf(c), amount);
  }

  /** POST /api/payments. 400 when the amount is missing or 0, or either id is
      missing; 404 for an unknown transaction (nothing written). A known
      customer's payment is settled as above; an unknown customer changes
      nothing and the reply still reports the payment. */
  method PostPayments(s: Store, amount: Option<Money>, transactionId: Option<Id>, customerId: Option<Id>, now: Instant)
    returns (resp: Response)
    requires s.Valid()
    modifies s
    ensures s.Valid()
    ensures s.products == old(s.products) && s.suppliers == old(s.suppliers)
    ensures s.items == old(s.items) && s.shipments == old(s.shipments)
    ensures amount.None? || amount == Some(0.0) || transactionId.None? || customerId.None? ==>
      resp.status == 400 && s.customers == old(s.customers) && s.transactions == old(s.transactions)
      && s.nextId == old(s.nextId)
    ensures amount.Some? && amount != Some(0.0) && transactionId.Some? && customerId.Some? &&
            FindTx(old(s.transactions), transactionId.value).None? ==>
      resp.status == 404 && s.customers == old(s.customers) && s.transactions == old(s.transactions)
      && s.nextId == old(s.nextId)
    ensures amount.Some? && amount != Some(0.0) && transactionId.Some? && customerId.Some? &&
            FindTx(old(s.transactions), transactionId.value).Some? && customerId.value !in old(s.customers) ==>
      resp == PaymentReply(old(s.transactions)[FindTx(old(s.transactions), transactionId.value).value], 0.0, amount.value)
      && s.customers == old(s.customers) && s.transactions == old(s.transactions) && s.nextId == old(s.nextId)
    ensures amount.Some? && amount != Some(0.0) && transactionId.Some? && customerId.Some? &&
            FindTx(old(s.transactions), transactionId.value).Some? && customerId.value in old(s.customers) ==>
      var t := old(s.transactions)[FindTx(old(s.transactions), transactionId.value).value];
      var c := old(s.customers)[customerId.value];
      var debt := MaxReal(0.0, DebtOf(c) - amount.value);
      var cur := t.currency.GetOr("TRY");
      var number := Codes.NextInvoiceNumber(LastNumber(old(s.transactions)));
      var data := NewTransaction(customerId, c.name, amount.value, "debt_collection", cur,
                                 Some("completed"), "debt_collection");
      var record := TransactionRow(old(s.nextId), number, data, now);
      && s.customers == PaidDown(old(s.customers), customerId.value, amount.value, now)
      && (cur !in Currencies || number in Numbers(old(s.transactions)) ==>
            resp.status == 500 && s.transactions == old(s.transactions) && s.nextId == old(s.nextId))
      && (cur in Currencies && number !in Numbers(old(s.transactions)) ==>
            && resp == PaymentReply(t, DebtOf(c), amount.value)
            && s.nextId == old(s.nextId) + 1
            && s.transactions ==
                 if debt == 0.0 then SetStatus(old(s.transactions) + [record], transactionId.value, "completed", now)
                 else old(s.transactions) + [record])
  {
    if amount.None? || amount == Some(0.0) || transactionId.None? || customerId.None? {
      return Response(400, Message("Missing required fields"));
    }
    var found := FindTx(s.transactions, transactionId.value);
    if found.None? {
      return Response(404, Message("Transaction not found"));
    }
    var t := s.transactions[found.value];
    if customerId.value in s.customers {
      resp := SettlePayment(s, customerId.value, t, transactionId.value, amount.value, now);
    } else {
      resp := PaymentReply(t, 0.0, amount.value);
    }
  }

  // ---------------------------------------------------------------------------
  // PUT /api/transactions/:id/items

  /** The row the handler builds from a request item: the transaction id, name,
      quantity, price and total, and no `productId`. */
  function Unlinked(input: ItemInput): ItemInput {
    input.(productId := None)
  }

  /** PUT /api/transactions/:id/items. Every item of the transaction is deleted
      first, and stock is never adjusted. The replacement rows carry no
      `productId`, which the NOT NULL column refuses: a non-empty list answers
      500 with the old items already gone; a missing or empty list answers 200. */
  method PutTransactionItems(s: Store, txId: Id, items: Option<seq<ItemInput>>) returns (resp: Response)
    requires s.Valid()
    modifies s
    ensures s.Valid()
    ensures s.items == Filter(old(s.items), NotOf(txId))
    ensures forall i :: 0 <= i < |s.items| ==> s.items[i].transactionId != txId
    ensures resp.status == 200 <==> items.None? || items.value == []
    ensures resp.status != 200 ==> resp.status == 500
    ensures s.customers == old(s.customers) && s.products == old(s.products) && s.suppliers == old(s.suppliers)
    ensures s.transactions == old(s.transactions) && s.shipments == old(s.shipments) && s.nextId == old(s.nextId)
  {
    s.DeleteItemsOf(txId);
    if items.Some? && items.value != [] {
      var rows := seq(|items.value|, j requires 0 <= j < |items.value| => Unlinked(items.value[j]));
      assert !Insertable(rows[0], txId, s.products, s.transactions);
      var r := s.InsertItemRows(txId, rows);
      if r.Err? {
        return Response(500, Message("Failed to update transaction items"));
      }
    }
    resp := Response(200, ItemsUpdated);
  }

  // ---------------------------------------------------------------------------
  // GET /api/dashboard/monthly-sales

  /** `getTransactions(10000, 0, "")`: the 10000 latest rows. */
  function Recent(ts: seq<Transaction>): (r: seq<Transaction>)
    ensures |r| <= 10000 && |r| <= |ts| && r == ts[|ts| - |r|..]
    ensures |ts| <= 10000 ==> r == ts
  {
    if |ts| <= 10000 then ts else ts[|ts| - 10000..]
  }

  /** A completed row whose local month is `key`: what adds to that bucket
      (debt collections included). */
  function InBucket(key: Calendar.MonthKey, tz: int): Transaction -> bool {
    (t: Transaction) => t.status == Some("completed") && Calendar.MonthOf(t.createdAt, tz) == key
  }

  /** A completed row of one of the `n` months from index `base` on. */
  function InSeries(base: int, n: nat, tz: int): Transaction -> bool {
    (t: Transaction) =>
      var key := Calendar.MonthOf(t.createdAt, tz);
      t.status == Some("completed") && 1 <= key.month <= 12
      && base <= Calendar.MonthIndex(key) < base + n
  }

  function Amount(): Transaction -> real { (t: Transaction) => t.total }

  /** GET /api/dashboard/monthly-sales at `now` in a zone `tz` ms east of UTC:
      twelve month keys, oldest first, ending at the current month; each bucket
      sums the totals of the completed recent rows of its month. */
  method MonthlySales(s: Store, now: Instant, tz: int) returns (keys: seq<Calendar.MonthKey>, sales: seq<Money>)
    ensures |keys| == 12 && |sales| == 12
    ensures keys[11] == Calendar.MonthOf(now, tz)
    ensures forall j :: 0 <= j < 12 ==>
      Calendar.MonthIndex(keys[j]) == Calendar.MonthIndex(Calendar.MonthOf(now, tz)) - 11 + j
      && 1 <= keys[j].month <= 12
    ensures forall j :: 0 <= j < 12 ==> sales[j] == SumWhere(Recent(s.transactions), InBucket(keys[j], tz), Amount())
  {
    var current := Calendar.MonthOf(now, tz);
    var base := Calendar.MonthIndex(current) - 11;
    keys := MonthSeries(base);
    Calendar.MonthIndexInjective(keys[11], current);
    sales := BucketSums(Recent(s.transactions), keys, base, tz);
  }

  /** The twelve month keys from index `base` on, oldest first. */
  method MonthSeries(base: int) returns (keys: seq<Calendar.MonthKey>)
    ensures |keys| == 12
    ensures forall j :: 0 <= j < 12 ==> Calendar.MonthIndex(keys[j]) == base + j && 1 <= keys[j].month <= 12
  {
    keys := [];
    var i := 11;
    while i >= 0
      invariant -1 <= i <= 11 && |keys| == 11 - i
      invariant forall j :: 0 <= j < |keys| ==> keys[j] == Calendar.MonthFromIndex(base + j)
    {
      keys := keys + [Calendar.MonthFromIndex(base + 11 - i)];
      i := i - 1;
    }
  }

  /** One pass over the rows: a completed row adds its total to the bucket of
      its month when that month is one of the keys. */
  method BucketSums(window: seq<Transaction>, keys: seq<Calendar.MonthKey>, base: int, tz: int)
    returns (sales: seq<Money>)
    requires |keys| == 12
    requires forall j :: 0 <= j < 12 ==> Calendar.MonthIndex(keys[j]) == base + j
    ensures |sales| == 12
    ensures forall j :: 0 <= j < 12 ==> sales[j] == SumWhere(window, InBucket(keys[j], tz), Amount())
  {
    sales := seq(12, _ => 0.0);
    var k := 0;
    while k < |window|
      invariant 0 <= k <= |window| && |sales| == 12
      invariant forall j :: 0 <= j < 12 ==> sales[j] == SumWhere(window[..k], InBucket(keys[j], tz), Amount())
    {
      var t := window[k];
      assert window[..k + 1][..k] == window[..k];
      if t.status == Some("completed") {
        var key := Calendar.MonthOf(t.createdAt, tz);
        var idx := Calendar.MonthIndex(key) - base;
        if 0 <= idx < 12 && keys[idx] == key {
          sales := sales[idx := sales[idx] + t.total];
        }
      }
      k := k + 1;
    }
    assert window[..k] == window;
  }

  /** Sum of the first `n` buckets. */
  function BucketTotal(sales: seq<Money>, n: nat): Money
    requires n <= |sales|
  {
    if n == 0 then 0.0 else BucketTotal(sales, n - 1) + sales[n - 1]
  }

  /** The buckets together hold exactly the completed recent rows of the twelve
      months: a row adds to one bucket at most, and to one exactly when its
      month is in the series. */
  lemma {:induction false} SeriesTotal(w: seq<Transaction>, keys: seq<Calendar.MonthKey>, sales: seq<Money>,
                                       base: int, tz: int, n: nat)
    requires |keys| == |sales| == 12 && n <= 12
    requires forall j :: 0 <= j < 12 ==> Calendar.MonthIndex(keys[j]) == base + j && 1 <= keys[j].month <= 12
    requires forall j :: 0 <= j < 12 ==> sales[j] == SumWhere(w, InBucket(keys[j], tz), Amount())
    ensures BucketTotal(sales, n) == SumWhere(w, InSeries(base, n, tz), Amount())
  {
    if n == 0 {
      assert forall i :: 0 <= i < |w| ==> (InSeries(base, 0, tz)(w[i]) <==> InSeries(base, 0, tz)(w[i]) && false);
      NoneSelected(w, InSeries(base, 0, tz));
    } else {
      SeriesTotal(w, keys, sales, base, tz, n - 1);
      forall i | 0 <= i < |w|
        ensures InSeries(base, n, tz)(w[i]) <==> InSeries(base, n - 1, tz)(w[i]) || InBucket(keys[n - 1], tz)(w[i])
      {
        var key := Calendar.MonthOf(w[i].createdAt, tz);
        if 1 <= key.month <= 12 && Calendar.MonthIndex(key) == base + n - 1 {
          Calendar.MonthIndexInjective(key, keys[n - 1]);
        }
      }
      SumWhereSplit(w, InSeries(base, n, tz), InSeries(base, n - 1, tz), InBucket(keys[n - 1], tz), Amount());
    }
  }

  lemma {:induction false} NoneSelected(w: seq<Transaction>, p: Transaction -> bool)
    requires forall i :: 0 <= i < |w| ==> !p(w[i])
    ensures SumWhere(w, p, Amount()) == 0.0
  {
    if w != [] {
      NoneSelected(w[..|w| - 1], p);
    }
  }

  // ---------------------------------------------------------------------------
  // POST /api/shipments

  /** POST /api/shipments. 400 when the customer name or the address is
      missing or empty (nothing written). Otherwise the row stores the trimmed
      name and address, the trimmed phone or NULL, the given status or
      "unpaid", and the given instant or `now`. */
  method PostShipment(s: Store, customerName: Option<string>, address: Option<string>, phone: Option<string>,
                      status: Option<string>, createdAt: Option<Instant>, now: Instant) returns (resp: Response)
    requires s.Valid()
    modifies s
    ensures s.Valid()
    ensures s.customers == old(s.customers) && s.products == old(s.products) && s.suppliers == old(s.suppliers)
    ensures s.transactions == old(s.transactions) && s.items == old(s.items)
    ensures !Truthy(customerName) || !Truthy(address) ==>
      resp.status == 400 && s.shipments == old(s.shipments) && s.nextId == old(s.nextId)
    ensures Truthy(customerName) && Truthy(address) ==>
      && resp.status == 200 && resp.body.ShipmentStored?
      && s.shipments == old(s.shipments) + [resp.body.shipment] && s.nextId == old(s.nextId) + 1
      && resp.body.shipment.id == old(s.nextId)
      && resp.body.shipment.customerName == Text.Trim(customerName.value)
      && resp.body.shipment.address == Text.Trim(address.value)
      && resp.body.shipment.phone == (if Truthy(phone) then Some(Text.Trim(phone.value)) else None)
      && resp.body.shipment.status == (if Truthy(status) then status.value else "unpaid")
      && resp.body.shipment.createdAt == createdAt.GetOr(now)
  {
    if !Truthy(customerName) || !Truthy(address) {
      return Response(400, Message("اسم العميل والعنوان مطلوبان"));
    }
    var storedPhone := if Truthy(phone) then Some(Text.Trim(phone.value)) else None;
    var storedStatus := if Truthy(status) then status.value else "unpaid";
    var shipment := s.InsertShipment(Text.Trim(customerName.value), Text.Trim(address.value), storedPhone,
                                      storedStatus, createdAt.GetOr(now));
    resp := Response(200, ShipmentStored(shipment));
  }

  /** A name of spaces passes the guard (a non-empty string is truthy) and is
      stored empty. */
  lemma BlankNameStoredEmpty(name: string)
    requires name != [] && Text.AllSpace(name)
    ensures Truthy(Some(name)) && Text.Trim(name) == ""
  {
  }

  // ---------------------------------------------------------------------------
  // DELETE /api/suppliers/:id

  /** DELETE /api/suppliers/:id: 204 on success. The handler maps only the
      message "Supplier not found" to 404, and `deleteSupplier` never throws
      that message, so every failure, a missing supplier included, is a 500. */
  method DeleteSupplierRoute(s: Store, id: Id) returns (resp: Response)
    requires s.Valid()
    modifies s
    ensures s.Valid()
    ensures resp.status == 204 || resp.status == 500
    ensures resp.status == 204 <==>
      id in old(s.suppliers)
      && !(OwnedBy(old(s.products), id) != {} && Referenced(old(s.items), OwnedBy(old(s.products), id)))
    ensures id !in old(s.suppliers) ==> resp.status == 500 && s.suppliers == old(s.suppliers)
    ensures var owned := OwnedBy(old(s.products), id);
      && (owned != {} && Referenced(old(s.items), owned) ==>
            s.products == old(s.products) && s.suppliers == old(s.suppliers))
      && (!(owned != {} && Referenced(old(s.items), owned)) ==>
            s.products == old(s.products) - owned && s.suppliers == old(s.suppliers) - {id})
    ensures s.customers == old(s.customers) && s.transactions == old(s.transactions) && s.items == old(s.items)
    ensures s.shipments == old(s.shipments)
  {
    var r := s.DeleteSupplier(id);
    if r.Ok? {
      return Response(204, NoContent);
    }
    if r.error.message == "Supplier not found" {
      return Response(404, Message("المورد غير موجود"));
    }
    resp := Response(500, Message("فشل في حذف المورد"));
  }
}
