/** Calendar arithmetic on instants: the date parts that JavaScript's `Date`
    getters and PostgreSQL's `EXTRACT` read off a timestamp. A time-zone offset
    is a parameter (daylight-saving changes are not modelled). */
module Calendar {
  import opened Common

  const MsPerDay: int := 86_400_000

  /** A proleptic Gregorian calendar date; `month` runs 1..12. */
  datatype Date = Date(year: int, month: int, day: int)

  /** A calendar month, the "YYYY-MM" keys of the monthly sales series. */
  datatype MonthKey = MonthKey(year: int, month: int)

  /** Gregorian leap years: every fourth year, except centuries not divisible
      by 400. */
  predicate IsLeap(y: int) {
    y % 4 == 0 && (y % 100 != 0 || y % 400 == 0)
  }

  function DaysInMonth(y: int, m: int): int
    requires 1 <= m <= 12
  {
    if m == 2 then (if IsLeap(y) then 29 else 28)
    else if m == 4 || m == 6 || m == 9 || m == 11 then 30
    else 31
  }

  predicate ValidDate(d: Date) {
    1 <= d.month <= 12 && 1 <= d.day <= DaysInMonth(d.year, d.month)
  }

  // The conversion counts days from 0000-03-01 (719468 days before
  // 1970-01-01) in years that start on 1 March, so that a leap day is the last
  // day of its year. 400 years repeat the calendar exactly: 146097 days.

  // ---------------------------------------------------------------------------
  // Division by the calendar's constants, one fact per lemma so that each proof
  // sees only the quotients it needs.

  lemma Div4(x: int, q: int, r: int)
    requires x == 4 * q + r && 0 <= r < 4
    ensures x / 4 == q && x % 4 == r
  {
  }

  lemma Div100(x: int, q: int, r: int)
    requires x == 100 * q + r && 0 <= r < 100
    ensures x / 100 == q && x % 100 == r
  {
  }

  lemma Div400(x: int, q: int, r: int)
    requires x == 400 * q + r && 0 <= r < 400
    ensures x / 400 == q && x % 400 == r
  {
  }

  lemma Div365(x: int, q: int, r: int)
    requires x == 365 * q + r && 0 <= r < 365
    ensures x / 365 == q && x % 365 == r
  {
  }

  lemma Div1461(x: int, q: int, r: int)
    requires x == 1461 * q + r && 0 <= r < 1461
    ensures x / 1461 == q && x % 1461 == r
  {
  }

  lemma Div36524(x: int, q: int, r: int)
    requires x == 36524 * q + r && 0 <= r < 36524
    ensures x / 36524 == q && x % 36524 == r
  {
  }

  /** The cycle and the day of the cycle of a day count from 0000-03-01. */
  lemma CycleOf(z: int, era: int, doe: int)
    requires 0 <= doe < 146097 && z == era * 146097 + doe
    ensures z / 146097 == era && z % 146097 == doe
  {
  }

  /** The calendar repeats every 400 years. */
  lemma LeapShift(y: int, k: int)
    ensures IsLeap(y + 400 * k) == IsLeap(y)
  {
    Div4(y + 400 * k, y / 4 + 100 * k, y % 4);
    Div100(y + 400 * k, y / 100 + 4 * k, y % 100);
    Div400(y + 400 * k, y / 400 + k, y % 400);
  }

  // ---------------------------------------------------------------------------
  // Splitting a 400-year cycle

  /** A year of a 400-year cycle and a day of that March-based year. */
  datatype YearDay = YearDay(year: int, day: int)

  /** Day `doe` of a cycle written as `c` centuries of 36524 days, `q` blocks
      of 1461 days, `t` years of 365 days and `doy` days: the shape `SplitCycle`
      reads off. A day 365 only ends a block, and a block ending on day 36524
      of its century only ends the cycle. */
  predicate CycleShape(doe: int, c: int, q: int, t: int, doy: int) {
    && doe == 36524 * c + 1461 * q + 365 * t + doy
    && 0 <= c <= 3 && 0 <= q <= 24 && 0 <= t <= 3 && 0 <= doy <= 365
    && (doy == 365 ==> t == 3)
    && (q == 24 && t == 3 && doy == 365 ==> c == 3)
  }

  /** The year that follows a year ending in a leap day of the cycle is a leap
      year (the year 400 of the cycle is one, being a multiple of 400). */
  lemma LeapAfterBlock(c: int, q: int)
    requires 0 <= c <= 3 && 0 <= q <= 24 && (q == 24 ==> c == 3)
    ensures IsLeap(100 * c + 4 * q + 4)
  {
    Div4(100 * c + 4 * q + 4, 25 * c + q + 1, 0);
    if q < 24 {
      Div100(100 * c + 4 * q + 4, c, 4 * q + 4);
    } else {
      assert 100 * c + 4 * q + 4 == 400;
    }
  }

  /** The year and day of the year of a day in cycle shape. */
  lemma CycleShapeYear(doe: int, c: int, q: int, t: int, doy: int)
    requires CycleShape(doe, c, q, t, doy)
    ensures var yoe := 100 * c + 4 * q + t;
      && 0 <= yoe < 400
      && doe == 365 * yoe + yoe / 4 - yoe / 100 + doy
      && (doy == 365 ==> IsLeap(yoe + 1))
  {
    var yoe := 100 * c + 4 * q + t;
    Div4(yoe, 25 * c + q, t);
    Div100(yoe, c, 4 * q + t);
    if doy == 365 {
      LeapAfterBlock(c, q);
    }
  }

  /** Day `doe` of a 400-year cycle. The cycle has four centuries of 36524
      days, the last with one day more (its final 29 February); a century has
      4-year blocks of 1461 days; a block has three years of 365 days and a
      fourth of 366. The day of the year is 365 only in a year ending in a
      leap day. */
  function SplitCycle(doe: int): (p: YearDay)
    requires 0 <= doe < 146097
    ensures 0 <= p.year < 400 && 0 <= p.day <= 365
    ensures doe == 365 * p.year + p.year / 4 - p.year / 100 + p.day
    ensures p.day == 365 ==> IsLeap(p.year + 1)
  {
    var c := if doe / 36524 < 4 then doe / 36524 else 3;
    var doc := doe - 36524 * c;
    var q := doc / 1461;
    var doq := doc % 1461;
    var t := if doq / 365 < 4 then doq / 365 else 3;
    var doy := doq - 365 * t;
    assert CycleShape(doe, c, q, t, doy);
    CycleShapeYear(doe, c, q, t, doy);
    YearDay(100 * c + 4 * q + t, doy)
  }

  /** `SplitCycle` reads back a day in cycle shape. */
  lemma SplitCycleOfShape(doe: int, c: int, q: int, t: int, doy: int)
    requires CycleShape(doe, c, q, t, doy)
    ensures 0 <= doe < 146097 && SplitCycle(doe) == YearDay(100 * c + 4 * q + t, doy)
  {
    var doc := 1461 * q + 365 * t + doy;
    if doc < 36524 {
      Div36524(doe, c, doc);
    } else {
      Div36524(doe, 4, 0);
    }
    Div1461(doc, q, 365 * t + doy);
    if doy < 365 {
      Div365(365 * t + doy, t, doy);
    } else {
      Div365(365 * t + doy, 4, 0);
    }
  }

  /** A year of a cycle and a day within that year's length are recovered
      from their day of the cycle. */
  lemma SplitCycleUnique(yoe: int, doy: int)
    requires 0 <= yoe < 400 && 0 <= doy <= 365
    requires doy == 365 ==> IsLeap(yoe + 1)
    ensures 0 <= 365 * yoe + yoe / 4 - yoe / 100 + doy < 146097
    ensures SplitCycle(365 * yoe + yoe / 4 - yoe / 100 + doy) == YearDay(yoe, doy)
  {
    var c := yoe / 100;
    var q, t := (yoe % 100) / 4, (yoe % 100) % 4;
    Div4(yoe, 25 * c + q, t);
    Div100(yoe, c, 4 * q + t);
    if doy == 365 {
      if t < 3 {
        Div4(yoe + 1, 25 * c + q, t + 1);
      }
      if q == 24 && c < 3 {
        Div100(yoe + 1, c + 1, 0);
        Div400(yoe + 1, 0, 100 * c + 100);
      }
    }
    assert CycleShape(365 * yoe + yoe / 4 - yoe / 100 + doy, c, q, t, doy);
    SplitCycleOfShape(365 * yoe + yoe / 4 - yoe / 100 + doy, c, q, t, doy);
  }

  // ---------------------------------------------------------------------------
  // Splitting a March-based year

  /** A month counted from March (0..11) and a day of that month. */
  datatype MonthDay = MonthDay(month: int, day: int)

  /** Day `doy` of a March-based year. The months from March have 31, 30, 31,
      30, 31, 31, 30, 31, 30, 31, 31 and 28 (29 in a leap year) days, so month
      `mp` starts on day `(153 * mp + 2) / 5`. */
  function SplitYear(doy: int): (md: MonthDay)
    requires 0 <= doy <= 365
    ensures 0 <= md.month <= 11 && md.day >= 1
    ensures doy == (153 * md.month + 2) / 5 + md.day - 1
    ensures md.day <= (if md.month == 11 then (if doy == 365 then 29 else 28)
                       else if md.month in {1, 3, 6, 8} then 30 else 31)
  {
    var mp := (5 * doy + 2) / 153;
    MonthDay(mp, doy - (153 * mp + 2) / 5 + 1)
  }

  /** A March-based month and a day within its length are recovered from
      their day of the year. */
  lemma SplitYearUnique(mp: int, day: int)
    requires 0 <= mp <= 11 && 1 <= day
    requires day <= (if mp == 11 then 29 else if mp in {1, 3, 6, 8} then 30 else 31)
    ensures 0 <= (153 * mp + 2) / 5 + day - 1 <= 365
    ensures (153 * mp + 2) / 5 + day - 1 == 365 <==> mp == 11 && day == 29
    ensures SplitYear((153 * mp + 2) / 5 + day - 1) == MonthDay(mp, day)
  {
  }

  // ---------------------------------------------------------------------------
  // Day numbers and dates

  /** The date of the March-based month `mp`, day `day`, of year `yoe` of
      cycle `era`. */
  function DateOfParts(era: int, yoe: int, mp: int, day: int): Date {
    Date(yoe + era * 400 + (if mp < 10 then 0 else 1), if mp < 10 then mp + 3 else mp - 9, day)
  }

  /** The date of day number `days` (days since 1970-01-01), as the `Date`
      getters and `toISOString` read it. */
  function CivilFromDays(days: int): (r: Date)
    ensures ValidDate(r)
  {
    var z := days + 719468;
    var era := z / 146097;
    var p := SplitCycle(z % 146097);
    var md := SplitYear(p.day);
    LeapShift(p.year + 1, era);
    DateOfParts(era, p.year, md.month, md.day)
  }

  /** The day number of a date: the inverse of `CivilFromDays`. */
  function DaysFromCivil(d: Date): int
    requires 1 <= d.month <= 12
  {
    var y := if d.month <= 2 then d.year - 1 else d.year;
    var era := y / 400;
    var yoe := y - era * 400;
    var mp := if d.month > 2 then d.month - 3 else d.month + 9;
    var doy := (153 * mp + 2) / 5 + d.day - 1;
    era * 146097 + 365 * yoe + yoe / 4 - yoe / 100 + doy - 719468
  }

  /** `DaysFromCivil` from the parts of a date: its cycle, its year of the
      cycle and its March-based month. */
  lemma DaysFromCivilParts(era: int, yoe: int, mp: int, day: int)
    requires 0 <= yoe < 400 && 0 <= mp <= 11
    ensures var d := DateOfParts(era, yoe, mp, day);
      && 1 <= d.month <= 12
      && DaysFromCivil(d)
           == era * 146097 + (365 * yoe + yoe / 4 - yoe / 100 + ((153 * mp + 2) / 5 + day - 1)) - 719468
  {
    Div400(yoe + era * 400, era, yoe);
  }

  /** Every day number is the day number of its date, so distinct days have
      distinct dates. */
  lemma DaysFromCivilRoundTrip(n: int)
    ensures DaysFromCivil(CivilFromDays(n)) == n
  {
    var z := n + 719468;
    var era := z / 146097;
    var doe := z % 146097;
    var p := SplitCycle(doe);
    var md := SplitYear(p.day);
    assert CivilFromDays(n) == DateOfParts(era, p.year, md.month, md.day);
    DaysFromCivilParts(era, p.year, md.month, md.day);
  }

  /** Distinct day numbers give distinct dates. */
  lemma CivilFromDaysInjective(a: int, b: int)
    requires CivilFromDays(a) == CivilFromDays(b)
    ensures a == b
  {
    DaysFromCivilRoundTrip(a);
    DaysFromCivilRoundTrip(b);
  }

  /** `CivilFromDays` of a day given by its cycle, its year of the cycle, its
      March-based month and its day of the month. */
  lemma CivilFromParts(n: int, era: int, yoe: int, mp: int, day: int)
    requires 0 <= yoe < 400 && 0 <= mp <= 11 && 1 <= day
    requires day <= (if mp == 11 then 29 else if mp in {1, 3, 6, 8} then 30 else 31)
    requires mp == 11 && day == 29 ==> IsLeap(yoe + 1)
    requires n + 719468 == era * 146097 + 365 * yoe + yoe / 4 - yoe / 100 + (153 * mp + 2) / 5 + day - 1
    ensures CivilFromDays(n) == DateOfParts(era, yoe, mp, day)
  {
    DateSplits(yoe, mp, day);
    var doy := (153 * mp + 2) / 5 + day - 1;
    CivilOfSplits(n, era, 365 * yoe + yoe / 4 - yoe / 100 + doy, yoe, doy, mp, day);
  }

  /** A year of a cycle, a March-based month and a day within its length are
      what the cycle and year splits read back from their day of the cycle. */
  lemma DateSplits(yoe: int, mp: int, day: int)
    requires 0 <= yoe < 400 && 0 <= mp <= 11 && 1 <= day
    requires day <= (if mp == 11 then 29 else if mp in {1, 3, 6, 8} then 30 else 31)
    requires mp == 11 && day == 29 ==> IsLeap(yoe + 1)
    ensures var doy := (153 * mp + 2) / 5 + day - 1;
      var doe := 365 * yoe + yoe / 4 - yoe / 100 + doy;
      && 0 <= doe < 146097
      && SplitCycle(doe) == YearDay(yoe, doy) && SplitYear(doy) == MonthDay(mp, day)
  {
    SplitYearUnique(mp, day);
    SplitCycleUnique(yoe, (153 * mp + 2) / 5 + day - 1);
  }

  /** `CivilFromDays` of a day whose cycle splits are known. */
  lemma CivilOfSplits(n: int, era: int, doe: int, yoe: int, doy: int, mp: int, day: int)
    requires 0 <= doe < 146097 && n + 719468 == era * 146097 + doe
    requires SplitCycle(doe) == YearDay(yoe, doy) && SplitYear(doy) == MonthDay(mp, day)
    ensures CivilFromDays(n) == DateOfParts(era, yoe, mp, day)
  {
    CivilFromCycle(n, era, doe);
  }

  /** `CivilFromDays` of day `doe` of cycle `era`. */
  lemma CivilFromCycle(n: int, era: int, doe: int)
    requires 0 <= doe < 146097 && n + 719468 == era * 146097 + doe
    ensures var p := SplitCycle(doe);
      var md := SplitYear(p.day);
      CivilFromDays(n) == DateOfParts(era, p.year, md.month, md.day)
  {
    CycleOf(n + 719468, era, doe);
    var p := SplitCycle(doe);
    var md := SplitYear(p.day);
    assert CivilFromDays(n) == DateOfParts(era, p.year, md.month, md.day);
  }

  /** Every valid date is the date of its day number: with
      `DaysFromCivilRoundTrip`, the two conversions are inverse bijections
      between day numbers and valid dates. */
  lemma CivilRoundTrip(d: Date)
    requires ValidDate(d)
    ensures CivilFromDays(DaysFromCivil(d)) == d
  {
    var y := if d.month <= 2 then d.year - 1 else d.year;
    var era := y / 400;
    var yoe := y - era * 400;
    var mp := if d.month > 2 then d.month - 3 else d.month + 9;
    LeapShift(yoe + 1, era);
    assert DateOfParts(era, yoe, mp, d.day) == d;
    DaysFromCivilParts(era, yoe, mp, d.day);
    CivilFromParts(DaysFromCivil(d), era, yoe, mp, d.day);
  }

  /** `new Date("yyyy-MM-dd")`: midnight UTC of day number `day`. */
  function Midnight(day: int): Instant {
    day * MsPerDay
  }

  /** The day number of an instant seen from a zone `offset` milliseconds east of UTC. */
  function DayOf(t: Instant, offset: int): int {
    (t + offset) / MsPerDay
  }

  function DateOf(t: Instant, offset: int): Date {
    CivilFromDays(DayOf(t, offset))
  }

  /** `getFullYear()` and `getMonth() + 1` of an instant: the month that
      holds the instant's local day. */
  function MonthOf(t: Instant, offset: int): (k: MonthKey)
    ensures 1 <= k.month <= 12
    ensures exists day :: 1 <= day <= DaysInMonth(k.year, k.month)
                          && DaysFromCivil(Date(k.year, k.month, day)) == DayOf(t, offset)
  {
    var d := DateOf(t, offset);
    DaysFromCivilRoundTrip(DayOf(t, offset));
    MonthKey(d.year, d.month)
  }

  /** The month of an instant is the month of the valid date its local day
      number converts from, so two instants share a month number exactly when
      their local dates do, whatever their years. */
  lemma MonthOfDate(t: Instant, offset: int, d: Date)
    requires ValidDate(d) && DayOf(t, offset) == DaysFromCivil(d)
    ensures MonthOf(t, offset) == MonthKey(d.year, d.month)
  {
    CivilRoundTrip(d);
  }

  /** Months counted from year 0: the number `new Date(y, m, 1)` normalises. */
  function MonthIndex(k: MonthKey): int {
    k.year * 12 + k.month - 1
  }

  /** The month `new Date(y, m0, 1)` lands on for a month index that may fall
      outside one year (JavaScript carries it into the year). */
  function MonthFromIndex(i: int): (k: MonthKey)
    ensures MonthIndex(k) == i && 1 <= k.month <= 12
  {
    MonthKey(i / 12, i % 12 + 1)
  }

  /** A month key is determined by its index when its month is in range. */
  lemma MonthIndexInjective(a: MonthKey, b: MonthKey)
    requires 1 <= a.month <= 12 && 1 <= b.month <= 12
    requires MonthIndex(a) == MonthIndex(b)
    ensures a == b
  {
  }

  /** Day 0 is 1 January 1970, the epoch of JavaScript's and PostgreSQL's
      timestamps. */
  lemma EpochDate()
    ensures CivilFromDays(0) == Date(1970, 1, 1)
    ensures DaysFromCivil(Date(1970, 1, 1)) == 0
  {
    assert 719468 / 146097 == 4 && 719468 % 146097 == 135080;
    assert SplitCycle(135080) == YearDay(369, 306);
    assert SplitYear(306) == MonthDay(10, 1);
  }
}
