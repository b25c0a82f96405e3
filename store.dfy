/** `DatabaseStorage`: the tables as fields of one object, and the storage
    operations that read and overwrite them. The database's own rules are part
    of the model, because the code relies on them: an insert that breaks a
    NOT NULL column, a foreign key or a UNIQUE column fails and writes nothing. */
module Storage {
  import opened Common
  import opened Schema
  import opened Ledger
  import opened Codes
  import Calendar
  import Folds

  /** What a storage call throws: a "not found" error raised by the code itself,
      or a constraint violation raised by the database. */
  datatype StoreError = NotFound(message: string) | Constraint(message: string)

  const ProductNotFound: string := "المنتج غير موجود"
  const SupplierNotFound: string := "المورد غير موجود"

  // ---------------------------------------------------------------------------
  // Views of the tables

  /** The ids present in the transactions table. */
  function TxIds(ts: seq<Transaction>): set<Id> {
    set i | 0 <= i < |ts| :: ts[i].id
  }

  /** The transaction numbers present in the table. */
  function Numbers(ts: seq<Transaction>): set<string> {
    set i | 0 <= i < |ts| :: ts[i].number
  }

  /** The SKUs present in the products table. */
  function Skus(products: map<Id, Product>): set<string> {
    set id | id in products :: products[id].sku
  }

  /** The barcodes present in the products table (NULLs are not values). */
  function Barcodes(products: map<Id, Product>): set<string> {
    set id | id in products && products[id].barcode.Some? :: products[id].barcode.value
  }

  /** The ids of the products that reference supplier `sid`. */
  function OwnedBy(products: map<Id, Product>, sid: Id): (r: set<Id>)
    ensures forall id :: id in r <==> id in products && products[id].supplierId == Some(sid)
  {
    set id | id in products && products[id].supplierId == Some(sid)
  }

  /** Whether some item row references one of the products `ids`. */
  predicate Referenced(items: seq<TransactionItem>, ids: set<Id>) {
    exists i :: 0 <= i < |items| && items[i].productId in ids
  }

  /** The number of the latest transaction row, if any. */
  function LastNumber(ts: seq<Transaction>): Option<string> {
    if ts == [] then None else Some(ts[|ts| - 1].number)
  }

  /** The first row with id `id`: what `getTransaction(id)` returns. */
  function FindTx(ts: seq<Transaction>, id: Id): (r: Option<nat>)
    ensures r.Some? ==> r.value < |ts| && ts[r.value].id == id
    ensures r.None? <==> id !in TxIds(ts)
  {
    if ts == [] then None
    else if ts[0].id == id then Some(0)
    else
      var r := FindTx(ts[1..], id);
      assert TxIds(ts) == {ts[0].id} + TxIds(ts[1..]) by {
        forall x | x in TxIds(ts) ensures x in {ts[0].id} + TxIds(ts[1..]) {
          var i :| 0 <= i < |ts| && ts[i].id == x;
          if i > 0 { assert ts[1..][i - 1].id == x; }
        }
        forall x | x in TxIds(ts[1..]) ensures x in TxIds(ts) {
          var i :| 0 <= i < |ts[1..]| && ts[1..][i].id == x;
          assert ts[i + 1].id == x;
        }
      }
      if r.None? then None else Some(r.value + 1)
  }

  predicate NumbersUnique(ts: seq<Transaction>) {
    forall i, j :: 0 <= i < j < |ts| ==> ts[i].number != ts[j].number
  }

  predicate SkusUnique(products: map<Id, Product>) {
    forall a, b :: a in products && b in products && a != b ==> products[a].sku != products[b].sku
  }

  /** A UNIQUE column admits any number of NULLs. */
  predicate BarcodesUnique(products: map<Id, Product>) {
    forall a, b :: a in products && b in products && a != b && products[a].barcode.Some? ==>
      products[a].barcode != products[b].barcode
  }

  /** The integrity the database maintains: ids below the id supply, the
      foreign keys and the UNIQUE columns. */
  ghost predicate Integrity(
    customers: map<Id, Customer>, products: map<Id, Product>, suppliers: map<Id, Supplier>,
    transactions: seq<Transaction>, items: seq<TransactionItem>, shipments: seq<Shipment>, nextId: nat)
  {
    && (forall id :: id in customers ==> id < nextId)
    && (forall id :: id in products ==> id < nextId)
    && (forall id :: id in suppliers ==> id < nextId)
    && (forall i :: 0 <= i < |transactions| ==> transactions[i].id < nextId)
    && (forall i :: 0 <= i < |items| ==> items[i].id < nextId)
    && (forall i :: 0 <= i < |shipments| ==> shipments[i].id < nextId)
    && (forall i :: 0 <= i < |transactions| && transactions[i].customerId.Some? ==>
          transactions[i].customerId.value in customers)
    && (forall i :: 0 <= i < |items| ==>
          items[i].productId in products && items[i].transactionId in TxIds(transactions))
    && (forall id :: id in products && products[id].supplierId.Some? ==>
          products[id].supplierId.value in suppliers)
    && NumbersUnique(transactions)
    && SkusUnique(products)
    && BarcodesUnique(products)
  }

  // ---------------------------------------------------------------------------
  // Row builders

  /** A product after `updateProductStock`: new quantity and `updatedAt`. */
  function Restocked(p: Product, delta: int, op: Op, now: Instant): Product {
    p.(quantity := Some(NewQuantity(p.quantity, delta, op)), updatedAt := now)
  }

  /** A customer after `updateCustomerDebt`: the balance is rewritten in TRY. */
  function Rebalanced(c: Customer, debt: Money, now: Instant): Customer {
    c.(totalDebt := Some(debt), debtCurrency := Some("TRY"), updatedAt := now)
  }

  /** The row `createProduct` inserts, with the column defaults filled in. */
  function ProductRow(input: ProductInput, sku: string, now: Instant): Product {
    Product(input.name, sku, input.barcode, input.supplierId, Some(input.quantity.GetOr(0)),
      Some(input.minQuantity.GetOr(0)), Some(input.isActive.GetOr(true)), input.price, now, now)
  }

  /** The row `createTransaction` inserts: its own number, the `status` column
      default "completed", both timestamps `now`. */
  function TransactionRow(id: Id, number: string, data: NewTransaction, now: Instant): Transaction {
    Transaction(id, number, data.customerId, data.customerName, data.total,
      Some(data.paymentType), Some(data.currency), Some(data.status.GetOr("completed")),
      Some(data.transactionType), now, now)
  }

  /** Whether an item row can be inserted: both NOT NULL columns are given and
      both foreign keys resolve. */
  predicate Insertable(input: ItemInput, txId: Id, products: map<Id, Product>, ts: seq<Transaction>) {
    input.productId.Some? && input.productName.Some?
    && input.productId.value in products && txId in TxIds(ts)
  }

  /** The row an accepted item becomes (the insert refuses an item without a
      product id or name, so the fallbacks are never stored). */
  function ItemRow(id: Id, txId: Id, input: ItemInput): TransactionItem {
    TransactionItem(id, txId, input.productId.GetOr(0), input.productName.GetOr(""),
      input.quantity, input.price, input.total)
  }

  /** The rows a multi-row insert writes, with consecutive ids from `firstId`. */
  function ItemRows(firstId: Id, txId: Id, inputs: seq<ItemInput>): (r: seq<TransactionItem>)
    ensures |r| == |inputs|
    ensures forall j :: 0 <= j < |inputs| ==> r[j] == ItemRow(firstId + j, txId, inputs[j])
  {
    seq(|inputs|, j requires 0 <= j < |inputs| => ItemRow(firstId + j, txId, inputs[j]))
  }

  /** The rows of the first `k + 1` items are those of the first `k` and the
      row of item `k`. */
  lemma ItemRowsNext(firstId: Id, txId: Id, inputs: seq<ItemInput>, k: nat)
    requires k < |inputs|
    ensures ItemRows(firstId, txId, inputs[..k + 1])
         == ItemRows(firstId, txId, inputs[..k]) + [ItemRow(firstId + k, txId, inputs[k])]
  {
  }

  /** `updateTransaction(id, { status })` on every row with that id. */
  function SetStatus(ts: seq<Transaction>, id: Id, status: string, now: Instant): (r: seq<Transaction>)
    ensures |r| == |ts|
    ensures forall i :: 0 <= i < |ts| ==>
      r[i] == if ts[i].id == id then ts[i].(status := Some(status), updatedAt := now) else ts[i]
  {
    seq(|ts|, i requires 0 <= i < |ts| =>
      if ts[i].id == id then ts[i].(status := Some(status), updatedAt := now) else ts[i])
  }

  /** The item filter of `DELETE FROM transaction_items WHERE transaction_id = id`. */
  function NotOf(txId: Id): TransactionItem -> bool {
    (it: TransactionItem) => it.transactionId != txId
  }

  // ---------------------------------------------------------------------------
  // SKU assignment

  /** The `count()` of products referencing supplier `sid`. */
  function SupplierProductCount(products: map<Id, Product>, sid: Id): nat {
    |OwnedBy(products, sid)|
  }

  /** Whether `createProduct` numbers the product from its supplier's code: the
      supplier is known and its code is non-empty. */
  predicate HasSupplierCode(suppliers: map<Id, Supplier>, input: ProductInput) {
    input.supplierId.Some? && input.supplierId.value in suppliers
    && suppliers[input.supplierId.value].supplierCode != ""
  }

  /** The SKU `createProduct` stores: a truthy supplied SKU is kept; otherwise a
      known supplier with a non-empty code gives `code-NNN` numbered one past
      that supplier's current product count; otherwise `generateSKU(name)` on
      the UTC date of `now` and the draw `rand`. */
  function AssignSku(products: map<Id, Product>, suppliers: map<Id, Supplier>,
                     input: ProductInput, now: Instant, rand: real): (sku: string)
    requires 0.0 <= rand < 1.0
    ensures Truthy(input.sku) ==> sku == input.sku.value
    ensures !Truthy(input.sku) && HasSupplierCode(suppliers, input) ==>
      var code := suppliers[input.supplierId.value].supplierCode;
      && |sku| > |code| && sku[..|code| + 1] == code + "-"
      && Text.ParseInt(sku[|code| + 1..]) == Some(SupplierProductCount(products, input.supplierId.value) + 1)
    ensures !Truthy(input.sku) && !HasSupplierCode(suppliers, input) ==>
      && |sku| >= 5
      && sku[..|sku| - 4] == SkuTypeCode(input.name) + "-" + DateCode(Calendar.DateOf(now, 0)) + "-"
      && Text.AllDigits(sku[|sku| - 4..]) && 1000 <= Text.DigitsValue(sku[|sku| - 4..]) <= 9999
  {
    if Truthy(input.sku) then input.sku.value
    else if HasSupplierCode(suppliers, input) then
      SupplierProductCode(suppliers[input.supplierId.value].supplierCode,
                          SupplierProductCount(products, input.supplierId.value) + 1)
    else
      var today := Calendar.DateOf(now, 0);
      GenerateSku(input.name, today, rand)
  }

  /** A new product of supplier `sid` raises that supplier's count by one, so the
      next supplier code is numbered one further. */
  lemma SupplierCountAfterInsert(products: map<Id, Product>, id: Id, p: Product, sid: Id)
    requires id !in products && p.supplierId == Some(sid)
    ensures SupplierProductCount(products[id := p], sid) == SupplierProductCount(products, sid) + 1
  {
    assert OwnedBy(products[id := p], sid) == OwnedBy(products, sid) + {id};
  }

  /** A product of another supplier leaves the count unchanged. */
  lemma SupplierCountOtherInsert(products: map<Id, Product>, id: Id, p: Product, sid: Id)
    requires id !in products && p.supplierId != Some(sid)
    ensures SupplierProductCount(products[id := p], sid) == SupplierProductCount(products, sid)
  {
    assert OwnedBy(products[id := p], sid) == OwnedBy(products, sid);
  }

  // ---------------------------------------------------------------------------
  // Sequential numbering

  /** Rows numbered `INV-001`, `INV-002`, … in insertion order. */
  ghost predicate Sequential(ts: seq<Transaction>) {
    forall i :: 0 <= i < |ts| ==> ts[i].number == InvoiceNumber(i + 1)
  }

  /** On sequentially numbered rows the next number is the next in the sequence. */
  lemma NextOfSequential(ts: seq<Transaction>)
    requires Sequential(ts)
    ensures NextInvoiceNumber(LastNumber(ts)) == InvoiceNumber(|ts| + 1)
  {
    if ts == [] {
      NumberingStartsAtOne();
    } else {
      var last := ts[|ts| - 1].number;
      assert last == InvoiceNumber(|ts|);
      assert LastNumber(ts) == Some(last);
      InvoiceSuccessor(|ts|);
    }
  }

  /** On sequentially numbered rows the next number is not yet in use, so
      `createTransaction` never hits the UNIQUE constraint. */
  lemma SequentialFresh(ts: seq<Transaction>)
    requires Sequential(ts)
    ensures NextInvoiceNumber(LastNumber(ts)) !in Numbers(ts)
  {
    NextOfSequential(ts);
    NumberAbsent(ts, |ts| + 1);
  }

  lemma NumberAbsent(ts: seq<Transaction>, k: nat)
    requires Sequential(ts) && k > |ts|
    ensures InvoiceNumber(k) !in Numbers(ts)
  {
    forall i | 0 <= i < |ts| ensures ts[i].number != InvoiceNumber(k) {
      if ts[i].number == InvoiceNumber(k) {
        InvoiceNumberInjective(i + 1, k);
      }
    }
  }

  /** The row `createTransaction` appends keeps the numbering sequential. */
  lemma SequentialAppend(ts: seq<Transaction>, t: Transaction)
    requires Sequential(ts)
    requires t.number == NextInvoiceNumber(LastNumber(ts))
    ensures Sequential(ts + [t])
  {
    NextOfSequential(ts);
    forall i | 0 <= i < |ts| + 1 ensures (ts + [t])[i].number == InvoiceNumber(i + 1) {
      if i < |ts| { assert (ts + [t])[i] == ts[i]; }
    }
  }

  /** Once the latest row is numbered "INV-NaN", the next number is that same
      one, so every later `createTransaction` breaks the UNIQUE constraint. */
  lemma NaNBlocksNumbering(ts: seq<Transaction>)
    requires LastNumber(ts) == Some(InvoiceNaN)
    ensures NextInvoiceNumber(LastNumber(ts)) in Numbers(ts)
  {
    NaNRepeats();
    assert ts[|ts| - 1].number == InvoiceNaN;
  }

  // ---------------------------------------------------------------------------
  // The store

  class Store {
    var customers: map<Id, Customer>
    var products: map<Id, Product>
    var suppliers: map<Id, Supplier>
    var transactions: seq<Transaction>   // in insertion order; the last row is the latest
    var items: seq<TransactionItem>
    var shipments: seq<Shipment>
    var nextId: nat                      // the supply of fresh ids

    ghost predicate Valid()
      reads this
    {
      Integrity(customers, products, suppliers, transactions, items, shipments, nextId)
    }

    constructor (customers0: map<Id, Customer>, products0: map<Id, Product>, suppliers0: map<Id, Supplier>,
                 transactions0: seq<Transaction>, items0: seq<TransactionItem>, shipments0: seq<Shipment>,
                 nextId0: nat)
      requires Integrity(customers0, products0, suppliers0, transactions0, items0, shipments0, nextId0)
      ensures Valid()
      ensures customers == customers0 && products == products0 && suppliers == suppliers0
      ensures transactions == transactions0 && items == items0 && shipments == shipments0
      ensures nextId == nextId0
    {
      customers, products, suppliers := customers0, products0, suppliers0;
      transactions, items, shipments := transactions0, items0, shipments0;
      nextId := nextId0;
    }

    /** `updateCustomerDebt`: `None` (null) for an unknown customer, with nothing
        written; otherwise the new balance, which is stored in TRY. */
    method UpdateCustomerDebt(id: Id, amount: Money, currency: string, op: Op, now: Instant)
      returns (r: Option<Money>)
      requires Valid()
      modifies this
      ensures Valid()
      ensures r.None? <==> id !in old(customers)
      ensures r.None? ==> customers == old(customers)
      ensures r.Some? ==>
        && r.value == NewDebt(DebtOf(old(customers)[id]), amount, currency, op)
        && customers == old(customers)[id := Rebalanced(old(customers)[id], r.value, now)]
      ensures products == old(products) && suppliers == old(suppliers)
      ensures transactions == old(transactions) && items == old(items)
      ensures shipments == old(shipments) && nextId == old(nextId)
    {
      if id !in customers {
        return None;
      }
      var debt := NewDebt(DebtOf(customers[id]), amount, currency, op);
      customers := customers[id := Rebalanced(customers[id], debt, now)];
      r := Some(debt);
    }

    /** `updateProductStock`: an unknown product throws and nothing is written;
        otherwise only that product's quantity and `updatedAt` change. */
    method UpdateProductStock(id: Id, delta: int, op: Op, now: Instant)
      returns (r: Result<Product, StoreError>)
      requires Valid()
      modifies this
      ensures Valid()
      ensures r.Err? <==> id !in old(products)
      ensures r.Err? ==> r.error == NotFound(ProductNotFound) && products == old(products)
      ensures r.Ok? ==>
        && r.value == Restocked(old(products)[id], delta, op, now)
        && products == old(products)[id := r.value]
      ensures customers == old(customers) && suppliers == old(suppliers)
      ensures transactions == old(transactions) && items == old(items)
      ensures shipments == old(shipments) && nextId == old(nextId)
    {
      if id !in products {
        return Err(NotFound(ProductNotFound));
      }
      var p := Restocked(products[id], delta, op, now);
      products := products[id := p];
      r := Ok(p);
    }

    /** `createProduct`: assigns the SKU, then inserts the row, which fails on an
        unknown supplier or a SKU already in use. */
    method CreateProduct(input: ProductInput, rand: real, now: Instant)
      returns (r: Result<Product, StoreError>)
      requires Valid() && 0.0 <= rand < 1.0
      modifies this
      ensures Valid()
      ensures var p := ProductRow(input, AssignSku(old(products), old(suppliers), input, now, rand), now);
        && (r.Ok? <==> (input.supplierId.Some? ==> input.supplierId.value in old(suppliers))
                       && p.sku !in Skus(old(products))
                       && (p.barcode.Some? ==> p.barcode.value !in Barcodes(old(products))))
        && (r.Ok? ==> r.value == p && products == old(products)[old(nextId) := p] && nextId == old(nextId) + 1)
        && (r.Err? ==> products == old(products) && nextId == old(nextId))
      ensures customers == old(customers) && suppliers == old(suppliers)
      ensures transactions == old(transactions) && items == old(items) && shipments == old(shipments)
    {
      var sku := AssignSku(products, suppliers, input, now, rand);
      var p := ProductRow(input, sku, now);
      if input.supplierId.Some? && input.supplierId.value !in suppliers {
        return Err(Constraint("products_supplier_id_fkey"));
      }
      if sku in Skus(products) {
        return Err(Constraint("products_sku_unique"));
      }
      if input.barcode.Some? && input.barcode.value in Barcodes(products) {
        return Err(Constraint("products_barcode_unique"));
      }
      IntegrityAfterProduct(customers, products, suppliers, transactions, items, shipments, nextId, p);
      products := products[nextId := p];
      nextId := nextId + 1;
      r := Ok(p);
    }

    /** `deleteSupplier`: deletes the supplier's products first (refused by the
        item foreign key when an item references one), then the supplier; a
        missing supplier throws after the products step. */
    method DeleteSupplier(id: Id) returns (r: Result<(), StoreError>)
      requires Valid()
      modifies this
      ensures Valid()
      ensures var owned := OwnedBy(old(products), id);
        && (owned != {} && Referenced(old(items), owned) ==>
              r == Err(Constraint("transaction_items_product_id_fkey"))
              && products == old(products) && suppliers == old(suppliers))
        && (!(owned != {} && Referenced(old(items), owned)) ==>
              && products == old(products) - owned
              && (id in old(suppliers) ==> r == Ok(()) && suppliers == old(suppliers) - {id})
              && (id !in old(suppliers) ==> r == Err(NotFound(SupplierNotFound)) && suppliers == old(suppliers)))
      ensures customers == old(customers) && transactions == old(transactions) && items == old(items)
      ensures shipments == old(shipments) && nextId == old(nextId)
    {
      var owned := OwnedBy(products, id);
      if owned != {} {
        if Referenced(items, owned) {
          return Err(Constraint("transaction_items_product_id_fkey"));
        }
        products := products - owned;
      }
      assert products == old(products) - owned;
      if id !in suppliers {
        return Err(NotFound(SupplierNotFound));
      }
      suppliers := suppliers - {id};
      r := Ok(());
    }

    /** `createTransaction`: numbers the row from the latest one and inserts it;
        the insert fails when that number is taken or the customer is unknown. */
    method CreateTransaction(data: NewTransaction, now: Instant) returns (r: Result<Transaction, StoreError>)
      requires Valid()
      modifies this
      ensures Valid()
      ensures var number := NextInvoiceNumber(LastNumber(old(transactions)));
        && (r.Ok? <==> number !in Numbers(old(transactions))
                       && (data.customerId.Some? ==> data.customerId.value in old(customers)))
        && (r.Ok? ==> && r.value == TransactionRow(old(nextId), number, data, now)
                      && transactions == old(transactions) + [r.value] && nextId == old(nextId) + 1)
        && (r.Err? ==> transactions == old(transactions) && nextId == old(nextId))
      ensures customers == old(customers) && products == old(products) && suppliers == old(suppliers)
      ensures items == old(items) && shipments == old(shipments)
    {
      var number := NextInvoiceNumber(LastNumber(transactions));
      if number in Numbers(transactions) {
        return Err(Constraint("transactions_transaction_number_unique"));
      }
      if data.customerId.Some? && data.customerId.value !in customers {
        return Err(Constraint("transactions_customer_id_fkey"));
      }
      var t := TransactionRow(nextId, number, data, now);
      AppendTransaction(t);
      r := Ok(t);
    }

    /** The insert itself, once the constraints are known to hold. */
    method AppendTransaction(t: Transaction)
      requires Valid() && t.id == nextId && t.number !in Numbers(transactions)
      requires t.customerId.Some? ==> t.customerId.value in customers
      modifies this
      ensures Valid()
      ensures transactions == old(transactions) + [t] && nextId == old(nextId) + 1
      ensures customers == old(customers) && products == old(products) && suppliers == old(suppliers)
      ensures items == old(items) && shipments == old(shipments)
    {
      IntegrityAfterTx(customers, products, suppliers, transactions, items, shipments, nextId, t);
      transactions := transactions + [t];
      nextId := nextId + 1;
    }

    /** `createTransactionItem`: inserts the row, then, when the quantity is not
        0, subtracts it from the product's stock. */
    method CreateTransactionItem(input: ItemInput, txId: Id, now: Instant)
      returns (r: Result<TransactionItem, StoreError>)
      requires Valid()
      modifies this
      ensures Valid()
      ensures r.Ok? <==> Insertable(input, txId, old(products), old(transactions))
      ensures r.Ok? ==>
        && r.value == ItemRow(old(nextId), txId, input)
        && items == old(items) + [r.value] && nextId == old(nextId) + 1
        && products == (if input.quantity != 0
                        then old(products)[input.productId.value :=
                               Restocked(old(products)[input.productId.value], input.quantity, Subtract, now)]
                        else old(products))
      ensures r.Err? ==> items == old(items) && nextId == old(nextId) && products == old(products)
      ensures customers == old(customers) && suppliers == old(suppliers)
      ensures transactions == old(transactions) && shipments == old(shipments)
    {
      if !Insertable(input, txId, products, transactions) {
        return Err(Constraint("transaction_items insert"));
      }
      var row := ItemRow(nextId, txId, input);
      items := items + [row];
      nextId := nextId + 1;
      if input.quantity != 0 {
        var _ := UpdateProductStock(input.productId.value, input.quantity, Subtract, now);
      }
      r := Ok(row);
    }

    /** `updateTransaction(id, { status })`. */
    method UpdateTransactionStatus(id: Id, status: string, now: Instant)
      requires Valid()
      modifies this
      ensures Valid()
      ensures transactions == SetStatus(old(transactions), id, status, now)
      ensures customers == old(customers) && products == old(products) && suppliers == old(suppliers)
      ensures items == old(items) && shipments == old(shipments) && nextId == old(nextId)
    {
      var ts := SetStatus(transactions, id, status, now);
      assert TxIds(ts) == TxIds(transactions) by {
        forall x | x in TxIds(ts) ensures x in TxIds(transactions) {
          var i :| 0 <= i < |ts| && ts[i].id == x;
          assert transactions[i].id == x;
        }
        forall x | x in TxIds(transactions) ensures x in TxIds(ts) {
          var i :| 0 <= i < |transactions| && transactions[i].id == x;
          assert ts[i].id == x;
        }
      }
      transactions := ts;
    }

    /** `updateCustomer(id, { totalDebt })`: sets the balance as given (no
        currency change); an unknown customer is left alone. */
    method SetCustomerDebt(id: Id, debt: Money, now: Instant)
      requires Valid()
      modifies this
      ensures Valid()
      ensures customers == if id in old(customers)
        then old(customers)[id := old(customers)[id].(totalDebt := Some(debt), updatedAt := now)]
        else old(customers)
      ensures products == old(products) && suppliers == old(suppliers) && transactions == old(transactions)
      ensures items == old(items) && shipments == old(shipments) && nextId == old(nextId)
    {
      if id in customers {
        customers := customers[id := customers[id].(totalDebt := Some(debt), updatedAt := now)];
      }
    }

    /** `DELETE FROM transaction_items WHERE transaction_id = txId`. */
    method DeleteItemsOf(txId: Id)
      requires Valid()
      modifies this
      ensures Valid()
      ensures items == Folds.Filter(old(items), NotOf(txId))
      ensures customers == old(customers) && products == old(products) && suppliers == old(suppliers)
      ensures transactions == old(transactions) && shipments == old(shipments) && nextId == old(nextId)
    {
      items := Folds.Filter(items, NotOf(txId));
    }

    /** One multi-row insert into `transaction_items`: all rows or none. */
    method InsertItemRows(txId: Id, rows: seq<ItemInput>) returns (r: Result<(), StoreError>)
      requires Valid()
      modifies this
      ensures Valid()
      ensures r.Ok? <==> forall j :: 0 <= j < |rows| ==> Insertable(rows[j], txId, old(products), old(transactions))
      ensures r.Ok? ==> items == old(items) + ItemRows(old(nextId), txId, rows) && nextId == old(nextId) + |rows|
      ensures r.Err? ==> items == old(items) && nextId == old(nextId)
      ensures customers == old(customers) && products == old(products) && suppliers == old(suppliers)
      ensures transactions == old(transactions) && shipments == old(shipments)
    {
      if !(forall j :: 0 <= j < |rows| ==> Insertable(rows[j], txId, products, transactions)) {
        return Err(Constraint("transaction_items insert"));
      }
      items := items + ItemRows(nextId, txId, rows);
      nextId := nextId + |rows|;
      r := Ok(());
    }

    /** Inserts a shipment row under a fresh id. */
    method InsertShipment(customerName: string, address: string, phone: Option<string>,
                          status: string, createdAt: Instant) returns (s: Shipment)
      requires Valid()
      modifies this
      ensures Valid()
      ensures s == Shipment(old(nextId), customerName, address, phone, status, createdAt)
      ensures shipments == old(shipments) + [s] && nextId == old(nextId) + 1
      ensures customers == old(customers) && products == old(products) && suppliers == old(suppliers)
      ensures transactions == old(transactions) && items == old(items)
    {
      s := Shipment(nextId, customerName, address, phone, status, createdAt);
      shipments := shipments + [s];
      nextId := nextId + 1;
    }
  }

  lemma TxIdsAppend(ts: seq<Transaction>, t: Transaction)
    ensures TxIds(ts + [t]) == TxIds(ts) + {t.id}
  {
    var s := ts + [t];
    forall x | x in TxIds(s) ensures x in TxIds(ts) + {t.id} {
      var i :| 0 <= i < |s| && s[i].id == x;
      if i < |ts| { assert ts[i].id == x; }
    }
    forall x | x in TxIds(ts) ensures x in TxIds(s) {
      var i :| 0 <= i < |ts| && ts[i].id == x;
      assert s[i].id == x;
    }
    assert s[|ts|].id == t.id;
  }

  /** Inserting a product with a fresh id, a known supplier and a new SKU keeps
      the integrity. */
  lemma IntegrityAfterProduct(
    customers: map<Id, Customer>, products: map<Id, Product>, suppliers: map<Id, Supplier>,
    ts: seq<Transaction>, items: seq<TransactionItem>, shipments: seq<Shipment>, nextId: nat, p: Product)
    requires Integrity(customers, products, suppliers, ts, items, shipments, nextId)
    requires p.supplierId.Some? ==> p.supplierId.value in suppliers
    requires p.sku !in Skus(products)
    requires p.barcode.Some? ==> p.barcode.value !in Barcodes(products)
    ensures Integrity(customers, products[nextId := p], suppliers, ts, items, shipments, nextId + 1)
  {
    forall a | a in products ensures products[a].sku != p.sku {
      assert products[a].sku in Skus(products);
    }
    forall a | a in products && products[a].barcode.Some? ensures products[a].barcode != p.barcode {
      assert products[a].barcode.value in Barcodes(products);
    }
  }

  /** Appending a fresh row with a new number and a known customer keeps the
      integrity. */
  lemma IntegrityAfterTx(
    customers: map<Id, Customer>, products: map<Id, Product>, suppliers: map<Id, Supplier>,
    ts: seq<Transaction>, items: seq<TransactionItem>, shipments: seq<Shipment>, nextId: nat, t: Transaction)
    requires Integrity(customers, products, suppliers, ts, items, shipments, nextId)
    requires t.id == nextId && t.number !in Numbers(ts)
    requires t.customerId.Some? ==> t.customerId.value in customers
    ensures Integrity(customers, products, suppliers, ts + [t], items, shipments, nextId + 1)
  {
    TxIdsAppend(ts, t);
    NumbersUniqueAppend(ts, t);
    var ts' := ts + [t];
    assert forall i :: 0 <= i < |ts| ==> ts'[i] == ts[i];
  }

  lemma NumbersUniqueAppend(ts: seq<Transaction>, t: Transaction)
    requires NumbersUnique(ts) && t.number !in Numbers(ts)
    ensures NumbersUnique(ts + [t])
  {
    forall i | 0 <= i < |ts| ensures ts[i].number != t.number {
      assert ts[i].number in Numbers(ts);
    }
  }
}
