/** Identifier and code generation: product SKUs (`generateSKU`), supplier
    product codes (`generateProductCodeForSupplier`) and the sequential
    `INV-###` transaction numbers written by `createTransaction`. */
module Codes {
  import opened Common
  import opened Text
  import Calendar

  // ---------------------------------------------------------------------------
  // generateSKU(type)

  /** The first three characters of the trimmed hint, upper-cased. */
  function SkuTypeCode(hint: string): (r: string)
    ensures |r| == if |Trim(hint)| < 3 then |Trim(hint)| else 3
    ensures forall i :: 0 <= i < |r| ==> r[i] == UpperChar(Trim(hint)[i])
    ensures r == [] <==> AllSpace(hint)
  {
    var t := Trim(hint);
    ToUpper(t[..if |t| < 3 then |t| else 3])
  }

  /** Two-digit field of a date code. */
  function TwoDigits(n: nat): (r: string)
    ensures |r| >= 2 && AllDigits(r)
  {
    PadStart(DigitsOf(n), 2, '0')
  }

  /** `toISOString().slice(2, 10)` with the dashes removed: YYMMDD of the UTC date
      (years 0..9999, the range `toISOString` writes with four digits). */
  function DateCode(d: Calendar.Date): string {
    TwoDigits(d.year % 100)
      + TwoDigits(if d.month < 0 then 0 else d.month)
      + TwoDigits(if d.day < 0 then 0 else d.day)
  }

  /** `Math.floor(1e3 + Math.random() * 9e3)` for a draw `rand` of `Math.random()`. */
  function RandomSuffix(rand: real): (n: int)
    requires 0.0 <= rand < 1.0
    ensures 1000 <= n <= 9999
  {
    (1000.0 + rand * 9000.0).Floor
  }

  lemma {:induction false} FourDigitLength(n: nat)
    requires 1000 <= n <= 9999
    ensures |DigitsOf(n)| == 4
  {
    assert DigitsOf(n) == DigitsOf(n / 10) + [DigitChar(n % 10)];
    assert DigitsOf(n / 10) == DigitsOf(n / 100) + [DigitChar(n / 10 % 10)];
    assert DigitsOf(n / 100) == DigitsOf(n / 1000) + [DigitChar(n / 100 % 10)];
  }

  /** `generateSKU(hint)` on the UTC date `today` and the random draw `rand`:
      type code, date code and a four-digit suffix in [1000, 9999], joined by "-". */
  function GenerateSku(hint: string, today: Calendar.Date, rand: real): (r: string)
    requires 0.0 <= rand < 1.0
    ensures |r| >= 5
    ensures r[..|r| - 4] == SkuTypeCode(hint) + "-" + DateCode(today) + "-"
    ensures AllDigits(r[|r| - 4..]) && 1000 <= DigitsValue(r[|r| - 4..]) <= 9999
  {
    var n := RandomSuffix(rand);
    FourDigitLength(n);
    DigitsRoundTrip(n);
    var prefix := SkuTypeCode(hint) + "-" + DateCode(today) + "-";
    var r := prefix + DigitsOf(n);
    assert r[..|r| - 4] == prefix && r[|r| - 4..] == DigitsOf(n);
    r
  }

  // ---------------------------------------------------------------------------
  // generateProductCodeForSupplier(code, count)

  /** The zero-padded sequence part of a supplier product code. */
  function Seq3(count: nat): (r: string)
    ensures |r| >= 3 && AllDigits(r)
  {
    PadStart(DigitsOf(count), 3, '0')
  }

  /** `supplierCode + "-" + count.toString().padStart(3, "0")`. */
  function SupplierProductCode(supplierCode: string, count: nat): (r: string)
    ensures |r| > |supplierCode| && r[..|supplierCode| + 1] == supplierCode + "-"
    ensures ParseInt(r[|supplierCode| + 1..]) == Some(count)
  {
    var r := supplierCode + "-" + Seq3(count);
    assert r[|supplierCode| + 1..] == Seq3(count);
    ParsePadded(count, 3);
    r
  }

  /** Different sequence numbers give different codes for the same supplier. */
  lemma SupplierProductCodeInjective(supplierCode: string, a: nat, b: nat)
    requires SupplierProductCode(supplierCode, a) == SupplierProductCode(supplierCode, b)
    ensures a == b
  {
  }

  // ---------------------------------------------------------------------------
  // Sequential transaction numbers

  const InvoicePrefix: string := "INV-"

  /** `` `INV-${n.toString().padStart(3, "0")}` `` */
  function InvoiceNumber(n: int): string {
    InvoicePrefix + PadStart(IntToString(n), 3, '0')
  }

  /** The number `NaN.toString().padStart(3, "0")` yields. */
  const InvoiceNaN: string := "INV-NaN"

  /** `createTransaction`'s numbering from the number of the latest row (`None`
      when the table is empty): strip the first "INV-", fall back to "0" when
      nothing is left, `parseInt`, add one; an unparsable remainder gives `NaN`. */
  function NextInvoiceNumber(last: Option<string>): string {
    NumberAfter(LastValue(last))
  }

  /** The sequence value of the latest number: 0 for an empty table (so the
      first number is 1), `None` for `NaN`. */
  function LastValue(last: Option<string>): Option<int> {
    match last
    case None => Some(0)
    case Some(number) => ParseInt(InvoiceRest(number))
  }

  /** What is left of a number once its first "INV-" is removed, "0" if nothing. */
  function InvoiceRest(number: string): string {
    var rest := ReplaceFirst(number, InvoicePrefix, "");
    if rest == "" then "0" else rest
  }

  /** The number after a parsed sequence value; `NaN` stays `NaN`. */
  function NumberAfter(parsed: Option<int>): string {
    match parsed
    case None => InvoiceNaN
    case Some(k) => InvoiceNumber(k + 1)
  }

  lemma FirstInvoiceNumber()
    ensures NextInvoiceNumber(None) == "INV-001"
  {
    NumberingStartsAtOne();
    FirstPadded();
  }

  /** An empty table numbers its first row 1. */
  lemma NumberingStartsAtOne()
    ensures NextInvoiceNumber(None) == InvoiceNumber(1)
  {
    assert LastValue(None) == Some(0);
    AfterValue(0);
  }

  lemma FirstPadded()
    ensures InvoiceNumber(1) == "INV-001"
  {
    assert IntToString(1) == "1";
    PadOne();
  }

  lemma PadOne()
    ensures PadStart("1", 3, '0') == "001"
  {
    assert Repeat('0', 2) == "00";
  }

  /** The number after `INV-<k>` is `INV-<k + 1>`, zero-padded to three digits. */
  lemma InvoiceSuccessor(k: nat)
    ensures NextInvoiceNumber(Some(InvoiceNumber(k))) == InvoiceNumber(k + 1)
  {
    InvoiceValue(k);
    NextFromValue(InvoiceNumber(k), k);
  }

  /** The number after a row whose sequence value reads back as `k`. */
  lemma NextFromValue(number: string, k: int)
    requires ParseInt(InvoiceRest(number)) == Some(k)
    ensures NextInvoiceNumber(Some(number)) == InvoiceNumber(k + 1)
  {
    assert LastValue(Some(number)) == Some(k);
    AfterValue(k);
  }

  lemma AfterValue(k: int)
    ensures NumberAfter(Some(k)) == InvoiceNumber(k + 1)
  {
  }

  /** The sequence value read back from `INV-<k>` is `k`. */
  lemma InvoiceValue(k: nat)
    ensures ParseInt(InvoiceRest(InvoiceNumber(k))) == Some(k)
  {
    var digits := PadStart(DigitsOf(k), 3, '0');
    assert InvoiceNumber(k) == InvoicePrefix + digits;
    ReplaceLeading(InvoicePrefix, digits);
    assert InvoiceRest(InvoiceNumber(k)) == digits;
    ParsePadded(k, 3);
  }

  /** Distinct sequence values give distinct numbers, so two non-concurrent
      creations after `INV-<k>` are `INV-<k + 1>` and `INV-<k + 2>`, both new. */
  lemma InvoiceNumberInjective(a: nat, b: nat)
    requires InvoiceNumber(a) == InvoiceNumber(b)
    ensures a == b
  {
    var da, db := PadStart(DigitsOf(a), 3, '0'), PadStart(DigitsOf(b), 3, '0');
    assert da == InvoiceNumber(a)[4..] && db == InvoiceNumber(b)[4..];
    ParsePadded(a, 3);
    ParsePadded(b, 3);
  }

  /** Once the latest number is "INV-NaN" the next one is "INV-NaN" again. */
  lemma NaNRepeats()
    ensures NextInvoiceNumber(Some(InvoiceNaN)) == InvoiceNaN
  {
    ReplaceLeading(InvoicePrefix, "NaN");
    assert InvoiceRest(InvoiceNaN) == "NaN";
    NoDigitsIsNaN("NaN");
  }

  /** `parseInt` of a string starting with a letter is `NaN`. */
  lemma NoDigitsIsNaN(s: string)
    requires |s| > 0 && ('A' <= s[0] <= 'Z' || 'a' <= s[0] <= 'z')
    ensures ParseInt(s) == None
  {
    assert !IsSpace(s[0]) && !IsDigit(s[0]);
    assert TrimStart(s) == s;
    assert SignedBody(s) == s;
  }
}
