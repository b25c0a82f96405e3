/** The debtor card of the dashboard (`QuickStats`): the customers with a
    positive balance, sorted by the chosen order, each with its formatted
    balance and colour, and the total of the listed balances. */
module QuickStats {
  import opened Common
  import opened Folds
  import opened Sorting
  import Text

  /** What `parseFloat` makes of a `totalDebt` string: absent (null, undefined
      or the empty string, all falsy), not a number, or a value. */
  datatype Parsed = Missing | NotANumber | Value(amount: real)

  /** A customer as the card receives it; `createdAt` is the time stamp in ms. */
  datatype ClientCustomer = ClientCustomer(name: string, totalDebt: Parsed, createdAt: Instant)

  /** The two orders of the selector. */
  datatype SortOrder = Newest | Highest

  /** `customer.totalDebt && parseFloat(customer.totalDebt) > 0` (a `NaN`
      balance compares false). */
  predicate IsDebtor(c: ClientCustomer) {
    c.totalDebt.Value? && c.totalDebt.amount > 0.0
  }

  function DebtorFilter(): ClientCustomer -> bool { (c: ClientCustomer) => IsDebtor(c) }

  /** `parseFloat(totalDebt ?? "0")` for a listed customer. */
  function DebtAmount(): ClientCustomer -> real {
    (c: ClientCustomer) => if c.totalDebt.Value? then c.totalDebt.amount else 0.0
  }

  /** The sort key of an order: the balance, or the creation time. */
  function SortKey(order: SortOrder): ClientCustomer -> real {
    match order
    case Highest => DebtAmount()
    case Newest => (c: ClientCustomer) => c.createdAt as real
  }

  /** `debtorCustomers`: the debtors, largest key first. The list holds exactly
      the customers with a positive balance, each as often as in the input. */
  function DebtorList(customers: seq<ClientCustomer>, order: SortOrder): (r: seq<ClientCustomer>)
    ensures multiset(r) == multiset(Filter(customers, DebtorFilter()))
    ensures SortedDesc(r, SortKey(order))
  {
    SortDesc(Filter(customers, DebtorFilter()), SortKey(order))
  }

  /** The list holds exactly the customers with a positive balance. */
  lemma DebtorListMembers(customers: seq<ClientCustomer>, order: SortOrder)
    ensures forall c :: c in DebtorList(customers, order) <==> c in customers && IsDebtor(c)
    ensures forall i :: 0 <= i < |DebtorList(customers, order)| ==> DebtAmount()(DebtorList(customers, order)[i]) > 0.0
  {
    var debtors := Filter(customers, DebtorFilter());
    var r := DebtorList(customers, order);
    forall c ensures c in r <==> c in customers && IsDebtor(c) {
      assert c in r <==> c in multiset(r);
      assert c in debtors <==> c in multiset(debtors);
      if c in debtors {
        var i :| 0 <= i < |debtors| && debtors[i] == c;
      }
      if c in customers && IsDebtor(c) {
        var i :| 0 <= i < |customers| && customers[i] == c;
      }
    }
    forall i | 0 <= i < |r| ensures DebtAmount()(r[i]) > 0.0 {
      assert r[i] in r;
    }
  }

  /** The total under the list: the sum of the listed balances. */
  function TotalDebt(list: seq<ClientCustomer>): Money {
    Sum(list, DebtAmount())
  }

  /** The total shown is the sum of every debtor's balance whatever the order,
      and it is positive whenever the list is shown. */
  lemma TotalOfDebtors(customers: seq<ClientCustomer>, order: SortOrder)
    ensures TotalDebt(DebtorList(customers, order)) == SumWhere(customers, DebtorFilter(), DebtAmount())
    ensures DebtorList(customers, order) != [] ==> TotalDebt(DebtorList(customers, order)) > 0.0
  {
    var debtors := Filter(customers, DebtorFilter());
    SumSortDesc(debtors, SortKey(order), DebtAmount());
    SumFilter(customers, DebtorFilter(), DebtAmount());
    var r := DebtorList(customers, order);
    if r != [] {
      DebtorListMembers(customers, order);
      SumPositive(r, DebtAmount());
    }
  }

  // ---------------------------------------------------------------------------
  // formatDebt and getDebtColor

  /** `round(x * 100)` as `toFixed(2)` takes it for a non-negative `x`: the
      nearest whole number of cents, a tie going up. */
  function Cents(x: real): (c: int)
    requires x >= 0.0
    ensures c >= 0
    ensures c as real <= x * 100.0 + 0.5 < c as real + 1.0
  {
    (x * 100.0 + 0.5).Floor
  }

  /** `x.toFixed(2)`: the sign, the whole part and two digits of cents. */
  function ToFixed2(x: real): (r: string)
  {
    var c := Cents(if x < 0.0 then -x else x);
    var digits := Text.DigitsOf(c / 100) + "." + Text.PadStart(Text.DigitsOf(c % 100), 2, '0');
    if x < 0.0 then "-" + digits else digits
  }

  /** A negative number prints as its magnitude behind a minus sign, even when
      it rounds to zero cents ("-0.00"). */
  lemma ToFixed2Negative(x: real)
    requires x < 0.0
    ensures ToFixed2(x) == "-" + ToFixed2(-x)
    ensures x > -0.005 ==> ToFixed2(x) == "-0.00"
  {
    if x > -0.005 {
      assert Cents(-x) == 0;
      assert Text.DigitsOf(0) == "0";
      assert Text.PadStart("0", 2, '0') == "00";
    }
  }

  /** `formatDebt`: "0.00" when the balance is absent or not a number. */
  function FormatDebt(debt: Parsed): (r: string)
    ensures !debt.Value? ==> r == "0.00"
  {
    match debt
    case Value(x) => ToFixed2(x)
    case _ => "0.00"
  }

  /** The digits of `ToFixed2(x)` with the point taken out read as the whole
      number of cents, which lies within half a cent of `x`. */
  lemma ToFixed2Value(x: real)
    requires x >= 0.0
    ensures var r := ToFixed2(x);
      && |r| >= 4 && r[|r| - 3] == '.'
      && Text.AllDigits(r[..|r| - 3] + r[|r| - 2..])
      && Text.DigitsValue(r[..|r| - 3] + r[|r| - 2..]) == Cents(x)
      && -0.005 < Cents(x) as real / 100.0 - x <= 0.005
  {
    var c := Cents(x);
    var whole := Text.DigitsOf(c / 100);
    var cents := Text.PadStart(Text.DigitsOf(c % 100), 2, '0');
    var r := ToFixed2(x);
    assert r == whole + "." + cents;
    assert |cents| == 2 by { Text.DigitsRoundTrip(c % 100); TwoDigitsAtMost(c % 100); }
    Text.PaddedValue(Text.DigitsOf(c % 100), 2);
    Text.DigitsRoundTrip(c % 100);
    Text.DigitsRoundTrip(c / 100);
    assert r[..|r| - 3] == whole;
    assert r[|r| - 2..] == cents;
    DigitsValueAppend2(whole, cents);
  }

  /** A number below 100 has at most two digits. */
  lemma TwoDigitsAtMost(n: nat)
    requires n < 100
    ensures |Text.DigitsOf(n)| <= 2
  {
    if n >= 10 {
      assert Text.DigitsOf(n) == Text.DigitsOf(n / 10) + [Text.DigitChar(n % 10)];
    }
  }

  /** Appending two digits multiplies the value by 100 and adds theirs. */
  lemma DigitsValueAppend2(a: string, b: string)
    requires Text.AllDigits(a) && Text.AllDigits(b) && |b| == 2
    ensures Text.AllDigits(a + b)
    ensures Text.DigitsValue(a + b) == Text.DigitsValue(a) * 100 + Text.DigitsValue(b)
  {
    var ab, a1, b0 := a + b, a + [b[0]], [b[0]];
    assert ab[..|ab| - 1] == a1 && ab[|ab| - 1] == b[1];
    assert a1[..|a1| - 1] == a && a1[|a1| - 1] == b[0];
    assert b[..1] == b0 && b0[..0] == [];
    assert Text.AllDigits(a1);
    var d0, d1 := b[0] as int - '0' as int, b[1] as int - '0' as int;
    assert Text.DigitsValue(b0) == d0;
    assert Text.DigitsValue(b) == d0 * 10 + d1;
    assert Text.DigitsValue(a1) == Text.DigitsValue(a) * 10 + d0;
    assert Text.DigitsValue(ab) == Text.DigitsValue(a1) * 10 + d1;
  }

  /** `getDebtColor`. A balance that is not a number fails both comparisons and
      is shown in yellow, like a small one. */
  function DebtColor(debt: Parsed): (color: string)
    ensures color == "text-slate-500" <==> debt.Missing?
    ensures color == "text-red-600" <==> debt.Value? && debt.amount >= 5000.0
    ensures color == "text-orange-600" <==> debt.Value? && 1000.0 <= debt.amount < 5000.0
    ensures color == "text-yellow-600" <==> debt.NotANumber? || (debt.Value? && debt.amount < 1000.0)
  {
    match debt
    case Missing => "text-slate-500"
    case NotANumber => "text-yellow-600"
    case Value(x) =>
      if x >= 5000.0 then "text-red-600"
      else if x >= 1000.0 then "text-orange-600"
      else "text-yellow-600"
  }

  /** The colours rise with the balance: a larger balance is never shown in a
      lower band. */
  lemma DebtColorMonotone(a: real, b: real)
    requires a <= b
    ensures Band(DebtColor(Value(a))) <= Band(DebtColor(Value(b)))
  {
  }

  /** The band of a colour, from yellow (0) to red (2). */
  function Band(color: string): nat {
    if color == "text-red-600" then 2 else if color == "text-orange-600" then 1 else 0
  }
}
