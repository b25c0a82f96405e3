/** The rows of the tables the core touches and the insert-schema rules for
    transactions: which request fields are required, which enumerations are
    checked, the defaults, and the omission of `transactionNumber`. A nullable
    column is an `Option`. */
module Schema {
  import opened Common

  datatype Customer = Customer(
    name: string,
    totalDebt: Option<Money>,      // decimal, default "0", nullable
    debtCurrency: Option<string>,  // default "TRY"
    createdAt: Instant,
    updatedAt: Instant)

  datatype Product = Product(
    name: string,
    sku: string,                   // unique, not null
    barcode: Option<string>,       // unique, nullable
    supplierId: Option<Id>,        // references suppliers.id
    quantity: Option<int>,         // default 0, nullable
    minQuantity: Option<int>,      // default 0, nullable
    isActive: Option<bool>,        // default true, nullable
    price: Money,                  // not null
    createdAt: Instant,
    updatedAt: Instant)

  datatype Supplier = Supplier(supplierCode: string, name: string)

  datatype Transaction = Transaction(
    id: Id,
    number: string,                // transaction_number, unique, not null
    customerId: Option<Id>,        // references customers.id
    customerName: string,
    total: Money,
    paymentType: Option<string>,   // cash | credit | debt_collection
    currency: Option<string>,      // TRY | USD
    status: Option<string>,        // completed | pending | cancelled
    transactionType: Option<string>, // sale | debt_collection
    createdAt: Instant,
    updatedAt: Instant)

  datatype TransactionItem = TransactionItem(
    id: Id,
    transactionId: Id,             // references transactions.id, not null
    productId: Id,                 // references products.id, not null
    productName: string,
    quantity: int,
    price: Money,
    total: Money)

  datatype Shipment = Shipment(
    id: Id,
    customerName: string,
    address: string,
    phone: Option<string>,
    status: string,                // not null, default "unpaid"
    createdAt: Instant)

  const PaymentTypes: set<string> := {"cash", "credit", "debt_collection"}
  const Currencies: set<string> := {"TRY", "USD"}
  const TransactionTypes: set<string> := {"sale", "debt_collection"}

  /** The `transaction` object of a request body, field by field (`None` = absent).
      A `transactionNumber` in the body is not represented: the schema omits it. */
  datatype TransactionInput = TransactionInput(
    customerId: Option<Id>,
    customerName: Option<string>,
    total: Option<Money>,
    paymentType: Option<string>,
    currency: Option<string>,
    status: Option<string>,
    transactionType: Option<string>)

  /** What `insertTransactionSchema.parse` returns. */
  datatype NewTransaction = NewTransaction(
    customerId: Option<Id>,
    customerName: string,
    total: Money,
    paymentType: string,
    currency: string,
    status: Option<string>,
    transactionType: string)

  /** The schema's complaint: the name of the first offending field. */
  datatype ValidationError = ValidationError(field: string)

  /** `insertTransactionSchema.parse`: `customerName` and `total` are required,
      the three enumerations are checked, and the defaults are `paymentType`
      "cash", `currency` "TRY" and `transactionType` "sale". */
  function ParseTransaction(input: TransactionInput): (r: Result<NewTransaction, ValidationError>)
    ensures r.Ok? <==>
      && input.customerName.Some? && input.total.Some?
      && (input.paymentType.Some? ==> input.paymentType.value in PaymentTypes)
      && (input.currency.Some? ==> input.currency.value in Currencies)
      && (input.transactionType.Some? ==> input.transactionType.value in TransactionTypes)
    ensures r.Ok? ==>
      && r.value.paymentType in PaymentTypes
      && r.value.currency in Currencies
      && r.value.transactionType in TransactionTypes
      && r.value.customerId == input.customerId
      && Some(r.value.customerName) == input.customerName
      && Some(r.value.total) == input.total
      && r.value.status == input.status
    ensures r.Ok? ==>
      && r.value.paymentType == input.paymentType.GetOr("cash")
      && r.value.currency == input.currency.GetOr("TRY")
      && r.value.transactionType == input.transactionType.GetOr("sale")
  {
    if input.customerName.None? then Err(ValidationError("customerName"))
    else if input.total.None? then Err(ValidationError("total"))
    else if input.paymentType.Some? && input.paymentType.value !in PaymentTypes then Err(ValidationError("paymentType"))
    else if input.currency.Some? && input.currency.value !in Currencies then Err(ValidationError("currency"))
    else if input.transactionType.Some? && input.transactionType.value !in TransactionTypes then Err(ValidationError("transactionType"))
    else Ok(NewTransaction(
      input.customerId,
      input.customerName.value,
      input.total.value,
      input.paymentType.GetOr("cash"),
      input.currency.GetOr("TRY"),
      input.status,
      input.transactionType.GetOr("sale")))
  }

  /** Absent enumeration fields take the schema defaults. */
  lemma ParseDefaults(name: string, total: Money)
    ensures ParseTransaction(TransactionInput(None, Some(name), Some(total), None, None, None, None))
      == Ok(NewTransaction(None, name, total, "cash", "TRY", None, "sale"))
  {
  }

  /** One element of a request's `items` array (`None` = absent or null). */
  datatype ItemInput = ItemInput(
    productId: Option<Id>,
    productName: Option<string>,
    quantity: int,
    price: Money,
    total: Money)

  /** The fields the caller of `createProduct` passes. */
  datatype ProductInput = ProductInput(
    name: string,
    sku: Option<string>,
    barcode: Option<string>,
    supplierId: Option<Id>,
    quantity: Option<int>,
    minQuantity: Option<int>,
    isActive: Option<bool>,
    price: Money)

  /** A JavaScript truthiness test on an optional string. */
  predicate Truthy(s: Option<string>) {
    s.Some? && s.value != ""
  }
}
