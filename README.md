# Inventory, debt ledger and dashboards: a Dafny model

This project models the core of a small Arabic-language point-of-sale and
inventory system. Customers run debt balances (in TRY, with USD converted at a
fixed rate of 33), products carry stock counts, and every sale or debt
collection is a numbered transaction. The project covers three layers:

- **The storage object** (`DatabaseStorage` in `dist/index.js`). A class
  `Storage.Store` holds the customers, products, suppliers, transactions,
  transaction items and shipments, plus a fresh-id supply. Its methods are the
  store operations:
  - the debt and stock adjusters;
  - SKU assignment and product creation;
  - the cascading supplier delete;
  - sequential `INV-###` numbering and transaction creation;
  - item insertion with its stock decrement.

  The foreign keys, the UNIQUE columns (product SKU and barcode, transaction
  number) and the NOT NULL item columns are part of the model: a write that
  breaks one fails with nothing written. Column widths and scales are not (see
  "Left out"). `Valid()` states
  the integrity the database keeps, and every method preserves it. The
  read-only aggregations are functions: the dashboard counters, the debt
  status and the sales history.
- **The request handlers** (`server/routes.ts`). `Routes` holds one method per
  handler. Each takes the store, performs the same sequence of storage calls
  and returns a status code and a body:
  - the credit sale (transaction row, then items and stock, then debt);
  - the two payment flows;
  - item replacement;
  - the twelve-month sales series;
  - shipment creation;
  - supplier deletion.

  Writes made before a failing call stay in place, as they do without a
  database transaction.
- **The client-side folds**:
  - `MetricsCards`: the dashboard cards' fallback.
  - `QuickStats`: the debtor list, its colours and its total.
  - `Reports`: the report page's period filter, totals, growth, groupings and
    quick ranges.
  - `ShipmentsTable`: the daily shipments table's search, add-shipment guards,
    badges and counts.

  `Sorting` models `Array.prototype.sort` with a "largest first" comparator as
  an insertion sort; its contract is the sorted order and the permutation, not
  the relative order of equal keys. `Folds`, `Text` and `Calendar` model the list
  reductions, the JavaScript string operations and the date arithmetic the
  rest uses.

Ids are natural numbers drawn from a counter in the store, which keeps the one
property the code relies on: a new id is not in use. Money is an exact `real`.
Instants are whole milliseconds. The time zone is a parameter (an offset in
milliseconds), as are the random draws and the clock.

In two places the code does less than it appears to. The model follows what
the code does:

- POST `/api/transactions` and both payment routes build their own numbers
  (`INV-YYYYMMDD-XXXXXX` and `PAYMENT-…`). The insert schema omits
  `transactionNumber` (`dist/index.js:155-159`), so those numbers never reach
  the table. `createTransaction` always stores its own sequential number. The
  model therefore has only the sequential scheme.
- `deleteSupplier` throws an Arabic "not found" message. The route compares
  the error against `"Supplier not found"`, so a missing supplier answers 500,
  not 404 (`Routes.DeleteSupplierRoute`).

Other behaviour of the code that the model keeps as it is:

- A latest number that does not parse (for example `INV-NaN`) makes the next
  number `INV-NaN` as well. Every later insert then breaks the UNIQUE
  constraint (`Storage.NaNBlocksNumbering`).
- PUT `/api/transactions/:id/items` deletes the old items and then inserts
  rows without a `productId`, which the NOT NULL column refuses. A non-empty
  replacement therefore answers 500 with the old items already gone.
- `/api/payments` lowers the balance by the raw amount, with no currency
  conversion.
- A shipment name made only of spaces passes the route's check and is stored
  empty.

## Model

| member | source | states |
|---|---|---|
| Storage.Store.UpdateCustomerDebt | dist/index.js:322-350 | null (`None`) exactly for an unknown customer, with nothing written; otherwise the balance becomes `NewDebt` of the old one, is stored in TRY with a new `updatedAt`, and no other table or customer changes |
| Ledger.InTry | dist/index.js:329-332 | a USD amount is multiplied by 33; any other currency is taken as is |
| Ledger.NewDebt | dist/index.js:333-334 | adding raises the balance by the converted amount; subtracting gives max(0, balance − converted amount), never negative |
| Ledger.DebtRoundTrip | dist/index.js:333-334 | adding and then subtracting the same non-negative amount restores a non-negative balance |
| Ledger.OverpaymentClears | dist/index.js:334 | subtracting at least the balance leaves exactly 0 |
| Storage.Store.UpdateProductStock | dist/index.js:351-369 | an unknown product throws with nothing written; otherwise only that product changes, to the new quantity and `updatedAt` |
| Ledger.NewQuantity | dist/index.js:357-358 | a missing quantity counts as 0; add raises it by the delta; subtract gives max(0, q − delta) |
| Ledger.StatusOf | dist/index.js:373-382 | over the TRY limit iff debt ≥ 5000; over the USD limit iff debt ≥ 4950 (150 × 33); the first implies the second; `debtInUSD` × 33 is the debt; the currency defaults to TRY |
| Ledger.CustomerDebtStatus | dist/index.js:370-383 | null exactly for an unknown customer, otherwise that customer's status |
| Codes.SkuTypeCode | dist/index.js:217 | the first min(3, length) characters of the trimmed name, each upper-cased; empty iff the name is all whitespace |
| Codes.RandomSuffix | dist/index.js:219 | any draw in [0, 1) gives a suffix in [1000, 9999] |
| Codes.GenerateSku | dist/index.js:216-221 | the SKU is type code, "-", YYMMDD date code, "-", then four digits reading 1000..9999 |
| Codes.SupplierProductCode | dist/index.js:222-225 | the supplier code, "-", then digits that parse back to the count |
| Codes.SupplierProductCodeInjective | dist/index.js:222-225 | different counts give different codes for one supplier |
| Storage.AssignSku | dist/index.js:265-278 | a truthy supplied SKU is kept; else a known supplier with a code gives `code-NNN` numbered one past its product count; else `generateSKU(name)` on today's UTC date |
| Storage.SupplierCountAfterInsert | dist/index.js:269-271 | inserting a product of a supplier raises that supplier's count by one, so its next code number is one further |
| Storage.SupplierCountOtherInsert | dist/index.js:269-271 | a product of another supplier leaves the count alone |
| Storage.Store.CreateProduct | dist/index.js:262-286 | succeeds iff the supplier (if any) exists, the assigned SKU is unused and the barcode (if any) is unused; on success the row with that SKU is added under a fresh id, on failure nothing changes |
| Storage.Store.DeleteSupplier | dist/index.js:407-421 | the supplier's products are deleted first, which an item reference refuses with nothing deleted; otherwise the products go, then the supplier, and a missing supplier throws after the products are gone |
| Codes.FirstInvoiceNumber | dist/index.js:443-453 | an empty table numbers its first row "INV-001" |
| Codes.NumberingStartsAtOne | dist/index.js:445 | with no latest row the number is `InvoiceNumber(1)` |
| Codes.InvoiceSuccessor | dist/index.js:446-453 | the number after `INV-<k>` is `INV-<k+1>`, padded to three digits |
| Codes.NextFromValue | dist/index.js:447-453 | a latest number whose rest after "INV-" parses as k is followed by `INV-<k+1>` |
| Codes.InvoiceValue | dist/index.js:447-453 | the value read back from `INV-<k>` is k |
| Codes.InvoiceNumberInjective | dist/index.js:453 | distinct values give distinct numbers |
| Codes.NaNRepeats | dist/index.js:447-453 | after "INV-NaN" the next number is "INV-NaN" again |
| Codes.NoDigitsIsNaN | dist/index.js:447-450 | `parseInt` of a string starting with a letter is NaN |
| Storage.NextOfSequential | dist/index.js:443-453 | on rows numbered INV-001, INV-002, … in order, the next number is the next in the sequence |
| Storage.SequentialFresh | dist/index.js:443-458 | on such rows the next number is not yet used, so the UNIQUE constraint holds |
| Storage.SequentialAppend | dist/index.js:443-458 | appending the row so numbered keeps the numbering sequential |
| Storage.NaNBlocksNumbering | dist/index.js:447-458 | once the latest row is "INV-NaN" the next number is already in the table |
| Storage.Store.CreateTransaction | dist/index.js:443-460 | succeeds iff the next number is unused and the customer (if any) exists; then exactly that row is appended under a fresh id; otherwise nothing changes |
| Storage.Store.AppendTransaction | dist/index.js:454-458 | the insert of a row that meets the constraints appends it and keeps the integrity |
| Storage.Store.CreateTransactionItem | dist/index.js:461-472 | succeeds iff the item has a product id and name, the product exists and the transaction exists; then the row is appended and, when the quantity is not 0, that product's stock is decremented; otherwise nothing changes |
| Storage.Store.UpdateTransactionStatus | dist/index.js:473-476 | every row with the id gets the status and `updatedAt`; nothing else changes |
| Storage.SetStatus | dist/index.js:473-476 | the rows with the id get the new status, the others are unchanged, and the length is kept |
| Storage.FindTx | dist/index.js:439-442 | `getTransaction` finds a row with the id exactly when the id is in the table |
| Storage.Store.SetCustomerDebt | dist/index.js:315-318 | `updateCustomer(id, {totalDebt})` sets the balance as given for a known customer and leaves an unknown one alone |
| Schema.ParseTransaction | dist/index.js:155-164 | accepts iff the name and total are present and the enumerated fields are valid; a valid `paymentType`, `currency` or `transactionType` is kept and an absent one becomes cash, TRY or sale |
| Schema.ParseDefaults | dist/index.js:161-163 | a record with only a name and total parses with the three defaults |
| Metrics.OrdersPlusCollections | dist/index.js:480 | every row is an order or a debt collection, never both: orders + collections = rows |
| Metrics.CollectionLeavesTotals | dist/index.js:480-485 | recording a debt collection changes neither `totalOrders` nor `totalSales` |
| Metrics.SaleAddsTotals | dist/index.js:480-485 | a completed sale adds one order and its total |
| Metrics.TotalSalesNonNegative | dist/index.js:483-485 | with non-negative totals, `totalSales` ≥ 0 |
| Metrics.ActiveProducts | dist/index.js:486 | exactly the products with `isActive` true |
| Metrics.NewCustomers | dist/index.js:487 | a customer is counted iff its creation instant has the month number of now, whatever the year |
| Metrics.NewCustomerByMonthNumber | dist/index.js:487 | for creation and current local dates, the customer is new iff the two months are equal, so one created in the same month of an earlier year is counted |
| Metrics.ActiveCustomers | dist/index.js:490 | a customer id is counted iff some row names it and has the month number of now, whatever the year; rows without a customer add nothing |
| Metrics.LowStock | dist/index.js:488 | exactly the products whose known quantity is at most their known minimum |
| Metrics.ActiveCustomersBounded | dist/index.js:490 | with every customer reference resolving, the distinct active customers are a subset of the customers |
| Metrics.DashboardMetricsOf | dist/index.js:477-503 | each counter is its defined set or count (sales and orders, active products, new customers, low stock, pending, active customers, returns), and the orders, pending plus returns, low-stock, active-product and new-customer counts are bounded by their tables |
| Metrics.HistoryRows | dist/index.js:510-519 | one row per item of the product: row j is the left join of the j-th such item with its transaction, so the rows follow the items' order |
| Metrics.HistoryQuantity | dist/index.js:510-521 | the quantity summed over the joined rows equals the quantity summed over the product's items |
| Metrics.NewestFirst | dist/index.js:519 | `ORDER BY created_at DESC` is a reordering of the rows: those without a transaction first, then the dated ones newest first |
| Metrics.ProductSalesHistory | dist/index.js:509-527 | the history is a reordering of the product's joined rows; `totalSales` is their number and the number of the product's items; `totalQuantitySold` is the sum of their quantities, which is the sum of the product's item quantities |
| Metrics.HistoryAfterItem | dist/index.js:520-521 | an item of the product adds one sale and its quantity; an item of another product changes nothing |
| Routes.PostTransaction | server/routes.ts:388-480 | 400 with nothing written for a missing transaction, missing or empty items, or a schema error; 500 with nothing written when the row insert fails; otherwise the row, then the items in order with their stock changes up to the first refused one (500); with every item placed, a credit sale with a customer raises that debt and the answer is 201 with the row |
| Routes.PlaceItems | server/routes.ts:429-444 | the item loop places exactly the items before the first refused one, appending their rows in order and applying their stock changes in order |
| Routes.PlaceNext | server/routes.ts:431-442 | one loop step: a placeable item extends the rows and stock by itself; otherwise its index is the first refused one and nothing is written |
| Routes.PlacedStep | server/routes.ts:431-442 | the row and stock change of item k extend those of the items before it to those of the items up to k |
| Routes.FirstRefused | server/routes.ts:431-442 | every item before the index is placeable and the one at the index (if any) is not |
| Routes.StockAfterEffect | server/routes.ts:431-442 | a product no item names keeps its row; a named one ends with a recorded quantity ≥ 0 and its SKU |
| Routes.Charged | server/routes.ts:446-456 | a credit sale with a known customer raises that balance by the total in TRY; every other customer, and every non-credit sale, leaves the table unchanged |
| Routes.PostCustomerPayment | server/routes.ts:239-296 | 404 for an unknown customer and 400 for an amount ≤ 0, with nothing written; otherwise the balance is lowered first (converted, never below 0); then either a completed cash `debt_collection` row of the amount is appended and 200 reports the stored, non-negative balance, or (a currency the schema refuses, a number already taken) 500 with the balance already lowered |
| Routes.PaidDown | server/routes.ts:552-559 | the customer's balance becomes 0 or the old balance minus the raw amount, never negative; the name, currency and other customers are unchanged |
| Routes.PaymentReply | server/routes.ts:593-599 | remaining amount + amount = the transaction's total; the remaining debt is ≥ 0; "Payment completed" iff the total equals the amount |
| Routes.SettlePayment | server/routes.ts:552-591 | a known customer's balance is paid down; then either a completed `debt_collection` row copying the transaction's currency is appended, the paid transaction is marked completed only when the new balance is exactly 0, and the reply is `PaymentReply`, or the insert fails with 500 and only the balance has changed |
| Routes.PostPayments | server/routes.ts:532-604 | 400 for a missing or zero amount or missing id and 404 for an unknown transaction, with nothing written; an unknown customer changes nothing yet gets the reply; a known customer is paid down, then either the `debt_collection` row is appended, the transaction is completed iff the balance reaches 0 and the reply is `PaymentReply`, or 500 with only the balance changed |
| Routes.PutTransactionItems | server/routes.ts:624-650 | every item of the transaction is removed and no other row or stock changes; 200 iff the new list is missing or empty, else 500, because the rows lack `productId` |
| Storage.Store.DeleteItemsOf | server/routes.ts:630 | the items table keeps exactly the rows of other transactions |
| Storage.Store.InsertItemRows | server/routes.ts:633-643 | a multi-row insert writes all rows iff every row is insertable, and none otherwise |
| Routes.Recent | server/routes.ts:681 | the 10000 latest rows, all of them when there are fewer |
| Routes.MonthlySales | server/routes.ts:679-729 | twelve consecutive month keys ending at the current month, oldest first; each bucket is the sum of totals of the completed recent rows of its month, debt collections included |
| Routes.MonthSeries | server/routes.ts:694-699 | twelve keys with consecutive month indices from the base, each with a month in 1..12 |
| Routes.BucketSums | server/routes.ts:702-709 | after the pass over the rows each bucket holds the sum over the completed rows of its month |
| Routes.SeriesTotal | server/routes.ts:684-709 | the buckets together hold exactly the completed rows whose month is in the series, each counted once |
| Calendar.MonthOf | server/routes.ts:703-704 | a month in 1..12 holding a day of that month whose day number is the instant's local day |
| Calendar.MonthOfDate | server/routes.ts:703-704 | the month of an instant is the year and month of the valid date with the instant's local day number |
| Calendar.CivilFromDays | dist/index.js:218 | every day number converts to a valid date: month in 1..12, day within the month, 29 February only in leap years |
| Calendar.DaysFromCivilRoundTrip | dist/index.js:218 | converting a day number to a date and back gives the day number |
| Calendar.CivilRoundTrip | dist/index.js:218 | converting a valid date to its day number and back gives the date, so the conversion is a bijection between day numbers and valid dates |
| Calendar.CivilFromDaysInjective | dist/index.js:218 | different day numbers give different dates |
| Calendar.MonthFromIndex | server/routes.ts:696-697 | `new Date(y, m, 1)` normalises a month index to a key with that index and a month in 1..12 |
| Calendar.MonthIndexInjective | server/routes.ts:706 | two month keys in range with the same index are the same key |
| Routes.PostShipment | server/routes.ts:745-779 | 400 with nothing written when the name or address is missing or empty; otherwise one row is appended with trimmed name and address, trimmed phone or null, status or "unpaid", and the given instant or now |
| Routes.BlankNameStoredEmpty | server/routes.ts:750-759 | a name of spaces passes the check and is stored empty |
| Storage.Store.InsertShipment | server/routes.ts:757-768 | the shipment row is appended under a fresh id with exactly the given fields; no other table changes |
| Routes.DeleteSupplierRoute | server/routes.ts:361-371 | 204 when the delete succeeds and 500 for every failure, a missing supplier included; when an item references one of the supplier's products nothing is deleted, otherwise its products and the supplier are gone; no other table changes |
| Text.Trim | client/src/components/dashboard/daily-shipments-table.tsx:99 | `trim` is the input with whitespace only removed at its two ends: a slice of the input with only whitespace before and after it, not starting or ending with whitespace, empty iff the input is all whitespace |
| Text.TrimIdempotent | client/src/components/dashboard/daily-shipments-table.tsx:213-214 | trimming twice is trimming once |
| Text.ToLower | client/src/components/dashboard/daily-shipments-table.tsx:101-102 | `toLowerCase` maps each ASCII capital to its small letter and keeps every other character |
| Text.ContainsIff | client/src/components/dashboard/daily-shipments-table.tsx:101-103 | `includes` holds iff the pattern occurs at some index |
| Text.PadStart | dist/index.js:223 | `padStart` keeps the string at the end and fills the front with the pad character up to the width |
| Text.ParseInt | dist/index.js:447-450 | `parseInt(s, 10)` is NaN exactly when no digit follows the leading space and sign |
| Text.ParseIntValue | dist/index.js:447-450 | `parseInt` of spaces, an optional sign, digits and anything not starting with a digit is the signed value of the digits |
| Text.ParsePadded | dist/index.js:447-453 | a zero-padded decimal parses back to its number |
| Text.DigitsRoundTrip | dist/index.js:453 | the decimal digits of n read back as n |
| Text.IndexOf | dist/index.js:448 | the first index where the pattern occurs, or none |
| Text.ReplaceLeading | dist/index.js:448 | replacing a leading pattern with "" leaves the rest |
| MetricsCards.SelectMetrics | client/src/components/dashboard/metrics-cards.tsx:13-68 | a server total is used as is with the other fields or 0; with no data or no transactions all four are 0; otherwise the sales figure sums the completed non-collection transactions with a positive total (so it is ≥ 0) and the order count counts the non-collection ones |
| MetricsCards.SalesWithinOrders | client/src/components/dashboard/metrics-cards.tsx:43-57 | no more transactions add to the sales figure than the order count |
| MetricsCards.FallbackMatchesServer | client/src/components/dashboard/metrics-cards.tsx:43-57 | on stored rows the fallback's order count equals the server's `totalOrders`, and its sales equal the server's `totalSales` when every total is positive |
| Sorting.SortDesc | client/src/components/dashboard/quick-stats.tsx:30-37 | the sort is a permutation of its input, largest key first |
| Sorting.SumSortDesc | client/src/components/dashboard/quick-stats.tsx:30-37 | sorting does not change the sum of any term over the list |
| QuickStats.DebtorList | client/src/components/dashboard/quick-stats.tsx:28-37 | the list is a permutation of the customers with a present, positive balance, ordered by the chosen key from largest down |
| QuickStats.DebtorListMembers | client/src/components/dashboard/quick-stats.tsx:28-29 | a customer is listed iff it is in the input with a positive balance; every listed amount is > 0 |
| QuickStats.TotalOfDebtors | client/src/components/dashboard/quick-stats.tsx:130-141 | the total shown is the sum of the debtors' balances whatever the order, and is > 0 when the list is shown |
| QuickStats.Cents | client/src/components/dashboard/quick-stats.tsx:45 | the nearest number of cents, a tie going up |
| QuickStats.FormatDebt | client/src/components/dashboard/quick-stats.tsx:41-46 | "0.00" for a missing or unparsable balance |
| QuickStats.ToFixed2Value | client/src/components/dashboard/quick-stats.tsx:45 | `toFixed(2)` of a non-negative balance is digits, ".", two digits, reading as the number of cents within half a cent of the balance |
| QuickStats.ToFixed2Negative | client/src/components/dashboard/quick-stats.tsx:45 | a negative number prints as "-" and its magnitude, "-0.00" when it rounds to zero cents |
| QuickStats.DebtColor | client/src/components/dashboard/quick-stats.tsx:48-54 | slate iff missing; red iff ≥ 5000; orange iff in [1000, 5000); yellow iff not a number or below 1000 |
| QuickStats.DebtColorMonotone | client/src/components/dashboard/quick-stats.tsx:48-54 | a larger balance never gets a lower colour band |
| Reports.Filtered | client/src/pages/reports.tsx:50-55 | a transaction is in the period's list iff it is a transaction stamped from the start's midnight to the end's midnight |
| Reports.FilteredKeepsOrder | client/src/pages/reports.tsx:50-55 | the period's list is the input at strictly increasing positions |
| Reports.TotalSales | client/src/pages/reports.tsx:58 | the period total is the sum of the totals of the transactions in the period |
| Reports.Average | client/src/pages/reports.tsx:59-60 | average × count = total when there are orders; 0 otherwise |
| Reports.Ceil | client/src/pages/reports.tsx:64 | `Math.ceil`: the least integer not below the value |
| Reports.SpanIsDayDifference | client/src/pages/reports.tsx:64 | the rounded-up span of the range is the difference of its day numbers |
| Reports.PreviousStart | client/src/pages/reports.tsx:63-65 | the previous window starts as many days before the range as the range spans |
| Reports.WindowsDisjoint | client/src/pages/reports.tsx:63-69 | no transaction is in both windows, so the two totals add up to the sum over their union |
| Reports.Growth | client/src/pages/reports.tsx:71-72 | with previous sales > 0, growth × previous = (total − previous) × 100 and growth > 0 iff sales rose; 0 otherwise |
| Reports.GroupSums | client/src/pages/reports.tsx:75-81 | the reduce into an object gives one entry per key |
| Reports.GroupAmounts | client/src/pages/reports.tsx:75-81 | each key's entry is the sum of the totals of the transactions with that key |
| Reports.GroupKeys | client/src/pages/reports.tsx:75-81 | a key has an entry iff some transaction has it |
| Reports.GroupTotal | client/src/pages/reports.tsx:75-92 | the entries add up to the sum of all totals |
| Reports.TopProducts | client/src/pages/reports.tsx:83-85 | at most five entries, largest first |
| Reports.TopProductsAreGroups | client/src/pages/reports.tsx:83-85 | the top list has min(5, number of groups) entries, each one a customer's group |
| Reports.TopProductsAreLargest | client/src/pages/reports.tsx:74-85 | the top list takes each group at most once, and every group left out is no larger than any entry kept |
| Reports.TopProductsWithinSales | client/src/pages/reports.tsx:75-85 | with non-negative totals the top entries add up to at most the period total |
| Sorting.Take | client/src/pages/reports.tsx:85 | `slice(0, n)` is the first min(n, length) elements |
| Sorting.TakeSorted | client/src/pages/reports.tsx:83-85 | the first entries of a list sorted largest first are still sorted largest first |
| Sorting.TakeKeepsLargest | client/src/pages/reports.tsx:83-85 | the first n entries of a list sorted largest first are a sub-multiset of it, and no entry left out is larger than one kept |
| Reports.StatusBucketsTotal | client/src/pages/reports.tsx:88-92 | the status buckets add up to the period total, and "pending" collects the missing, empty and pending statuses |
| Reports.InitialRangeIsOneInstant | client/src/pages/reports.tsx:29-32 | with the initial range only a transaction stamped exactly at today's UTC midnight is in the period |
| Reports.QuickRange | client/src/pages/reports.tsx:94-101 | the range ends today and spans exactly `days` days |
| Reports.QuickRangePrevious | client/src/pages/reports.tsx:63-65 | after a quick range of `days`, the comparison window starts 2 × `days` days before today |
| ShipmentsTable.Search | client/src/components/dashboard/daily-shipments-table.tsx:99-105 | a blank search returns the list unchanged; otherwise a shipment is kept iff its name or address contains the search ignoring case, or its phone contains it as typed |
| ShipmentsTable.SearchKeepsOrder | client/src/components/dashboard/daily-shipments-table.tsx:100-104 | the search result is the list at strictly increasing positions |
| ShipmentsTable.NameSearchIgnoresCase | client/src/components/dashboard/daily-shipments-table.tsx:101-102 | a search typed in capitals matches the same names and addresses |
| ShipmentsTable.FullNameFound | client/src/components/dashboard/daily-shipments-table.tsx:100-101 | searching for a shipment's full, non-blank name finds it |
| ShipmentsTable.BarcodeRequest | client/src/components/dashboard/daily-shipments-table.tsx:116-124 | nothing for a blank input; otherwise an unpaid shipment with the trimmed, non-empty name, the barcode placeholder address, no phone and the current time |
| ShipmentsTable.BarcodeAccepted | client/src/components/dashboard/daily-shipments-table.tsx:212-215 | a barcode request passes the server's name-and-address check, and the server's trimming keeps its name and address |
| ShipmentsTable.FindCustomer | client/src/components/dashboard/daily-shipments-table.tsx:153 | `find` returns the first customer with the id, and none exactly when no customer has it |
| ShipmentsTable.ManualRequest | client/src/components/dashboard/daily-shipments-table.tsx:152-161 | no selection is an error, as is an id not in the list; otherwise the request has the customer's name, the address or the placeholder, the phone or null, the status and the chosen date's UTC midnight |
| ShipmentsTable.ManualAddressAccepted | client/src/components/dashboard/daily-shipments-table.tsx:223-238 | a manual request always has an address the server accepts, so it is refused only for an empty name |
| ShipmentsTable.DefaultDateIsToday | client/src/components/dashboard/daily-shipments-table.tsx:70 | with the default date the shipment is stamped within the day before now |
| ShipmentsTable.StatusText | client/src/components/dashboard/daily-shipments-table.tsx:255-264 | "paid" and "unpaid" get their labels, and any other status is shown as stored |
| ShipmentsTable.StatusTextRoundTrip | client/src/components/dashboard/daily-shipments-table.tsx:255-264 | the label determines the status, unless the stored status is itself one of the labels |
| ShipmentsTable.StatusColor | client/src/components/dashboard/daily-shipments-table.tsx:244-253 | green iff paid, red iff unpaid, gray otherwise |
| ShipmentsTable.ReportCounts | client/src/components/dashboard/daily-shipments-table.tsx:271-273 | paid + unpaid ≤ total, with equality when every status is one of the two |

## Left out

- HTTP and Express plumbing, logging, authentication, Vite and static serving are not modelled. Handlers take their parsed inputs as parameters and return a status and a body.
- SQL, drizzle and the database driver are replaced by in-memory tables. The order of the transaction rows is their insertion order; the code reads the latest row by `createdAt`, so the model assumes the clock follows insertion.
- Concurrency is out of scope. The handlers run one at a time, so lost updates on the balance or stock and duplicate sequential numbers under parallel requests are not represented.
- Floating point is out of scope. Amounts are exact reals. `parseFloat` of garbage, `Number(...)` of a non-numeric total and NaN arithmetic are not represented; a NaN invoice value and a NaN client balance are the two exceptions the model keeps.
- Random ids are not modelled. `gen_random_uuid()` and `randomUUID()` are replaced by the store's counter; `Math.random()` and the clock are parameters.
- The `INV-YYYYMMDD-…` and `PAYMENT-…` numbers the routes build are not modelled, because the insert schema drops them before any storage call.
- Daylight-saving changes are not modelled. A time zone is one fixed offset.
- Only ASCII letters are case-mapped. `toLowerCase`/`toUpperCase` outside ASCII (Arabic has no case, but Latin-1 and others do) is not modelled.
- `Object.entries` puts integer-like keys first in ascending order. `Reports.GroupSums` keeps first-occurrence order for every key, so with such customer names the order of tied top entries can differ.
- In the "newest" debtor order a missing or invalid `createdAt` makes the JavaScript comparator return NaN. The model gives every customer a valid instant.
- Routes.PostPayments: the guard `!amount` is modelled on the parsed amount, so an absent amount or 0 is refused with 400. In server/routes.ts:536 the guard tests the raw body field, and a string such as "0" or "0.00" is truthy: the source passes the guard, pays down 0, appends a debt_collection row of total 0 and, when the balance is 0, completes the transaction. The model answers 400 for that input.
- Reports.GroupSums: `acc[key] || 0` on a `{}` literal reads inherited properties, so a customer name or status such as "constructor" or "toString" starts from the inherited function and concatenates a string in the source (client/src/pages/reports.tsx:78, 89). The model treats every name as an ordinary key starting from 0.
- A JSON `null` in a request field is not modelled: each field is either absent or present with a value. In the source a `null` is not replaced by the destructuring default `currency = 'TRY'` (server/routes.ts:241) or by the schema's `.default("TRY")` (dist/index.js:162), so `{amount: 100, currency: null}` lowers the balance and then answers 500.
- Metrics.NewestFirst: rows with the same `createdAt` keep the join order. PostgreSQL leaves their order unspecified.
- Column types are not modelled. Money is an exact real, so the `decimal(10,2)` columns (`price`, `totalDebt`, `total`) neither round to cents nor fail with "numeric field overflow" from 10^8 up. Quantities are unbounded, not 32-bit `integer`s.
- The NOT NULL refusal on an item's `quantity`, `price` and `total` cannot arise in the model, because an item input always carries all three.
- QuickStats.ToFixed2Value: proved for non-negative balances only (the debtor list only shows positive ones). `toFixed` rounds the binary double, not the exact decimal, so a value such as 1.005 can print differently from the model's exact rounding.
- The remaining storage methods and routes (plain reads and updates of single rows, the delete-all-data endpoint, the shipment status and delete routes) are not modelled; they hold no logic beyond one query.
- The client's network results are not modelled. The model stops at the request body the table posts. Toasts, query invalidation, rendering and printable HTML are left out.
