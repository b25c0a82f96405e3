/** The arithmetic of the debt ledger and the stock adjuster, and the debt-status
    query: the values `updateCustomerDebt`, `updateProductStock` and
    `getCustomerDebtStatus` compute before they write or return. */
module Ledger {
  import opened Common
  import opened Schema

  /** The `operation` argument: "add", and anything else, which subtracts. */
  datatype Op = Add | Subtract

  /** The fixed USD to TRY multiplier. */
  const UsdToTry: real := 33.0
  /** `getCustomerDebtStatus`'s limits, in TRY and in USD. */
  const DebtLimitTry: real := 5000.0
  const DebtLimitUsd: real := 150.0

  /** The amount in TRY: a USD amount is multiplied by 33, any other currency
      (including a misspelt one) is taken as TRY. */
  function InTry(amount: Money, currency: string): (r: Money)
    ensures currency == "USD" ==> r == amount * 33.0
    ensures currency != "USD" ==> r == amount
  {
    if currency == "USD" then amount * UsdToTry else amount
  }

  /** `parseFloat(customer.totalDebt || "0")`. */
  function DebtOf(c: Customer): Money {
    c.totalDebt.GetOr(0.0)
  }

  /** The balance `updateCustomerDebt` writes: adding raises it by the converted
      amount; subtracting lowers it by the converted amount but never below 0. */
  function NewDebt(current: Money, amount: Money, currency: string, op: Op): (r: Money)
    ensures op.Add? ==> r - current == InTry(amount, currency)
    ensures op.Subtract? ==> r >= 0.0 && r >= current - InTry(amount, currency)
    ensures op.Subtract? ==> r == 0.0 || r == current - InTry(amount, currency)
  {
    match op
    case Add => current + InTry(amount, currency)
    case Subtract => MaxReal(0.0, current - InTry(amount, currency))
  }

  /** Adding and then subtracting the same non-negative amount restores a
      non-negative balance. */
  lemma DebtRoundTrip(current: Money, amount: Money, currency: string)
    requires current >= 0.0 && amount >= 0.0
    ensures NewDebt(NewDebt(current, amount, currency, Add), amount, currency, Subtract) == current
  {
  }

  /** Subtracting more than the balance clears it. */
  lemma OverpaymentClears(current: Money, amount: Money, currency: string)
    requires InTry(amount, currency) >= current
    ensures NewDebt(current, amount, currency, Subtract) == 0.0
  {
  }

  /** The quantity `updateProductStock` writes (`product.quantity || 0` first):
      adding raises it by the delta, subtracting lowers it but never below 0. */
  function NewQuantity(current: Option<int>, delta: int, op: Op): (q: int)
    ensures op.Add? ==> q - current.GetOr(0) == delta
    ensures op.Subtract? ==> q >= 0 && q >= current.GetOr(0) - delta
    ensures op.Subtract? ==> q == 0 || q == current.GetOr(0) - delta
  {
    var q0 := current.GetOr(0);
    match op
    case Add => q0 + delta
    case Subtract => MaxInt(0, q0 - delta)
  }

  /** The body `GET /api/customers/:id/debt` returns. */
  datatype DebtStatus = DebtStatus(
    debt: Money,
    currency: string,
    isOverLimit: bool,
    debtInUSD: real,
    isOverLimitUSD: bool)

  /** Debt status of a customer. Both limits are fixed, and the USD limit
      (150 × 33 = 4950 TRY) is the lower one, so being over the TRY limit
      implies being over the USD limit. */
  function StatusOf(c: Customer): (s: DebtStatus)
    ensures s.debt == DebtOf(c) && s.currency == c.debtCurrency.GetOr("TRY")
    ensures s.isOverLimit <==> s.debt >= 5000.0
    ensures s.isOverLimitUSD <==> s.debt >= 4950.0
    ensures s.isOverLimit ==> s.isOverLimitUSD
    ensures s.debtInUSD * 33.0 == s.debt
  {
    var debt := DebtOf(c);
    DebtStatus(
      debt,
      c.debtCurrency.GetOr("TRY"),
      debt >= DebtLimitTry,
      debt / UsdToTry,
      debt / UsdToTry >= DebtLimitUsd)
  }

  /** `getCustomerDebtStatus(id)`: `None` (null, answered with 404) exactly for an
      unknown customer. */
  function CustomerDebtStatus(customers: map<Id, Customer>, id: Id): (r: Option<DebtStatus>)
    ensures r.None? <==> id !in customers
    ensures r.Some? ==> r.value == StatusOf(customers[id])
  {
    if id in customers then Some(StatusOf(customers[id])) else None
  }
}
