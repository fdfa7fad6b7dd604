/** A UTC proleptic Gregorian calendar over millisecond timestamps: the
    fields that java.util.Calendar reports (YEAR, 0-based MONTH,
    DAY_OF_MONTH, DAY_OF_YEAR) and the month/year additions that
    `Calendar.add` performs. */
module Calendar {

  const MillisPerDay: int := 86400000

  predicate IsLeapYear(y: int) {
    y % 4 == 0 && (y % 100 != 0 || y % 400 == 0)
  }

  /** Days in the 0-based month `m` of year `y`. */
  function DaysInMonth(y: int, m: int): (n: int)
    requires 0 <= m < 12
    ensures 28 <= n <= 31
  {
    if m == 1 then (if IsLeapYear(y) then 29 else 28)
    else if m == 3 || m == 5 || m == 8 || m == 10 then 30
    else 31
  }

  /** A calendar date: year, 0-based month, 1-based day of month. */
  datatype Civil = Civil(year: int, month: int, day: int)

  predicate ValidCivil(c: Civil) {
    0 <= c.month < 12 && 1 <= c.day <= DaysInMonth(c.year, c.month)
  }

  // The steps of H. Hinnant's days-from-civil algorithm, over 400-year
  // eras whose years start on the 1st of March.

  /** Days from the start of the era to the start of year `yoe` of the era,
      plus `doy`. */
  function DayOfEra(yoe: int, doy: int): int {
    yoe * 365 + yoe / 4 - yoe / 100 + doy
  }

  /** Day of the March-based year of day `d` of March-based month `mp`. */
  function DayOfMarchYear(mp: int, d: int): int {
    (153 * mp + 2) / 5 + d - 1
  }

  function YearOfEraOf(doe: int): int {
    (doe - doe / 1460 + doe / 36524 - doe / 146096) / 365
  }

  function MarchMonthOf(doy: int): int {
    (5 * doy + 2) / 153
  }

  /** Days since 1970-01-01 of a calendar date. */
  function DaysFromCivil(c: Civil): int
    requires ValidCivil(c)
  {
    var y1 := if c.month < 2 then c.year - 1 else c.year;
    var era := y1 / 400;
    var mp := if c.month >= 2 then c.month - 2 else c.month + 10;
    era * 146097 + DayOfEra(y1 - era * 400, DayOfMarchYear(mp, c.day)) - 719468
  }

  /** The calendar date of day `doe` of era `era`. */
  function CivilFromEraDay(era: int, doe: int): Civil {
    var yoe := YearOfEraOf(doe);
    var doy := doe - DayOfEra(yoe, 0);
    var mp := MarchMonthOf(doy);
    var d := doy - DayOfMarchYear(mp, 1) + 1;
    var month := if mp < 10 then mp + 2 else mp - 10;
    Civil(yoe + era * 400 + (if month < 2 then 1 else 0), month, d)
  }

  /** The calendar date of a day count since 1970-01-01. */
  function CivilFromDays(z: int): Civil {
    CivilFromEraDay((z + 719468) / 146097, (z + 719468) % 146097)
  }

  /** Division by a positive constant is determined by any quotient and
      remainder in range. */
  lemma DivIs(a: int, k: int, quot: int, rem: int)
    requires k > 0 && a == quot * k + rem && 0 <= rem < k
    ensures a / k == quot && a % k == rem
  {
    var d := a / k - quot;
    assert d * k == rem - a % k;
    if d >= 1 {
      MulAtLeast(d, k);
    } else if d <= -1 {
      MulAtLeast(-d, k);
    }
  }

  lemma MulAtLeast(x: int, k: int)
    requires x >= 1 && k > 0
    ensures x * k >= k
  {
    assert x * k == (x - 1) * k + k;
  }

  /** The year of the era recovered from the day of the era: the step of
      `CivilFromDays` that undoes the leap-day count of `DaysFromCivil`. */
  lemma YearOfEra(yoe: int, doy: int)
    requires 0 <= yoe < 400
    requires 0 <= doy < 365 || (doy == 365 && (yoe + 1) % 4 == 0 && ((yoe + 1) % 100 != 0 || yoe == 399))
    ensures YearOfEraOf(DayOfEra(yoe, doy)) == yoe
  {
    var c, q, r := YearOfEraDigits(yoe);
    YearOfEraFromDigits(c, q, r, doy);
  }

  lemma YearOfEraDigits(yoe: int) returns (c: int, q: int, r: int)
    requires 0 <= yoe < 400
    ensures yoe == 100 * c + 4 * q + r && 0 <= c < 4 && 0 <= q < 25 && 0 <= r < 4
    ensures yoe * 365 + yoe / 4 - yoe / 100 == 36524 * c + 1461 * q + 365 * r
    ensures (yoe + 1) % 4 == 0 <==> r == 3
    ensures (yoe + 1) % 100 == 0 <==> (r == 3 && q == 24)
  {
    c, q, r := yoe / 100, (yoe % 100) / 4, yoe % 4;
    DivIs(yoe, 4, 25 * c + q, r);
    DivIs(yoe, 100, c, 4 * q + r);
    DivIs(yoe + 1, 4, 25 * c + q + (r + 1) / 4, (r + 1) % 4);
    DivIs(yoe + 1, 100, c + (4 * q + r + 1) / 100, (4 * q + r + 1) % 100);
  }

  lemma YearOfEraFromDigits(c: int, q: int, r: int, doy: int)
    requires 0 <= c < 4 && 0 <= q < 25 && 0 <= r < 4
    requires 0 <= doy < 365 || (doy == 365 && r == 3 && (q != 24 || c == 3))
    ensures var doe := 36524 * c + 1461 * q + 365 * r + doy;
            (doe - doe / 1460 + doe / 36524 - doe / 146096) / 365 == 100 * c + 4 * q + r
  {
    var doe := 36524 * c + 1461 * q + 365 * r + doy;
    var s := if 24 * c + q + 365 * r + doy >= 1460 then 1 else 0;
    DivIs(doe, 1460, 25 * c + q + s, 24 * c + q + 365 * r + doy - 1460 * s);
    var e := if 1461 * q + 365 * r + doy == 36524 then 1 else 0;
    DivIs(doe, 36524, c + e, 1461 * q + 365 * r + doy - 36524 * e);
    DivIs(doe, 146096, e, doe - 146096 * e);
    DivIs(doe - doe / 1460 + doe / 36524 - doe / 146096, 365, 100 * c + 4 * q + r, doy - s);
  }

  /** Length of the month `mp` of a March-based year (0 = March, 11 = February). */
  function MarchMonthLength(mp: int, leap: bool): int
    requires 0 <= mp < 12
  {
    if mp == 11 then (if leap then 29 else 28)
    else if mp == 1 || mp == 3 || mp == 6 || mp == 8 then 30
    else 31
  }

  /** The month and day are recovered from the day of the March-based year. */
  lemma MonthOfYear(mp: int, d: int, leap: bool)
    requires 0 <= mp < 12 && 1 <= d <= MarchMonthLength(mp, leap)
    ensures var doy := DayOfMarchYear(mp, d);
            0 <= doy < 365 + (if leap then 1 else 0) && (doy == 365 ==> mp == 11 && d == 29) &&
            MarchMonthOf(doy) == mp && doy - DayOfMarchYear(mp, 1) + 1 == d
  {
    var doy := (153 * mp + 2) / 5 + d - 1;
    var base := (153 * mp + 2) / 5;
    DivIs(153 * mp + 2, 5, base, 153 * mp + 2 - 5 * base);
    if mp == 0 { assert base == 0; }
    else if mp == 1 { assert base == 31; }
    else if mp == 2 { assert base == 61; }
    else if mp == 3 { assert base == 92; }
    else if mp == 4 { assert base == 122; }
    else if mp == 5 { assert base == 153; }
    else if mp == 6 { assert base == 184; }
    else if mp == 7 { assert base == 214; }
    else if mp == 8 { assert base == 245; }
    else if mp == 9 { assert base == 275; }
    else if mp == 10 { assert base == 306; }
    else { assert base == 337; }
    DivIs(5 * doy + 2, 153, mp, 5 * doy + 2 - 153 * mp);
  }

  /** Converting a valid calendar date to its day count and back gives the
      same date. */
  lemma {:induction false} CivilRoundTrip(c: Civil)
    requires ValidCivil(c)
    ensures CivilFromDays(DaysFromCivil(c)) == c
  {
    var y1 := if c.month < 2 then c.year - 1 else c.year;
    var era := y1 / 400;
    var yoe := y1 - era * 400;
    var mp := if c.month >= 2 then c.month - 2 else c.month + 10;
    var leap := (yoe + 1) % 4 == 0 && ((yoe + 1) % 100 != 0 || yoe == 399);
    LeapOfEra(era, yoe);
    assert c.day <= MarchMonthLength(mp, leap);
    MonthOfYear(mp, c.day, leap);
    var doy := DayOfMarchYear(mp, c.day);
    var c4, q, r := YearOfEraDigits(yoe);
    YearOfEra(yoe, doy);
    var doe := DayOfEra(yoe, doy);
    assert 0 <= doe < 146097;
    var z := DaysFromCivil(c);
    DaysFromCivilParts(c);
    CivilFromDaysIs(z, era, doe);
    EraDayRoundTrip(era, yoe, mp, c.day, doy);
    assert (if mp < 10 then mp + 2 else mp - 10) == c.month;
  }

  lemma DaysFromCivilParts(c: Civil)
    requires ValidCivil(c)
    ensures var y1 := if c.month < 2 then c.year - 1 else c.year;
            var mp := if c.month >= 2 then c.month - 2 else c.month + 10;
            DaysFromCivil(c) + 719468 == (y1 / 400) * 146097 + DayOfEra(y1 - (y1 / 400) * 400, DayOfMarchYear(mp, c.day))
  {
  }

  lemma CivilFromDaysIs(z: int, era: int, doe: int)
    requires z + 719468 == era * 146097 + doe && 0 <= doe < 146097
    ensures CivilFromDays(z) == CivilFromEraDay(era, doe)
  {
    DivIs(z + 719468, 146097, era, doe);
  }

  lemma EraDayRoundTrip(era: int, yoe: int, mp: int, d: int, doy: int)
    requires doy == DayOfMarchYear(mp, d) && 0 <= mp < 12
    requires YearOfEraOf(DayOfEra(yoe, doy)) == yoe
    requires MarchMonthOf(doy) == mp && doy - DayOfMarchYear(mp, 1) + 1 == d
    ensures CivilFromEraDay(era, DayOfEra(yoe, doy)) ==
            var month := if mp < 10 then mp + 2 else mp - 10;
            Civil(yoe + era * 400 + (if month < 2 then 1 else 0), month, d)
  {
  }

  lemma LeapOfEra(era: int, yoe: int)
    requires 0 <= yoe < 400
    ensures IsLeapYear(era * 400 + yoe + 1) == ((yoe + 1) % 4 == 0 && ((yoe + 1) % 100 != 0 || yoe == 399))
  {
    DivIs(era * 400 + yoe + 1, 4, era * 100 + (yoe + 1) / 4, (yoe + 1) % 4);
    DivIs(era * 400 + yoe + 1, 100, era * 4 + (yoe + 1) / 100, (yoe + 1) % 100);
    DivIs(era * 400 + yoe + 1, 400, era + (yoe + 1) / 400, (yoe + 1) % 400);
  }

  lemma MonthLengthsAgree(mp: int, y: int)
    requires 0 <= mp < 12
    ensures MarchMonthLength(mp, IsLeapYear(y)) == DaysInMonth(y, if mp < 10 then mp + 2 else mp - 10)
  {
  }

  /** Splits a day of the March-based year into month and day. */
  lemma MarchMonthSplit(doy: int, leap: bool) returns (mp: int, d: int)
    requires 0 <= doy < 365 + (if leap then 1 else 0)
    ensures 0 <= mp < 12 && 1 <= d <= MarchMonthLength(mp, leap) && doy == DayOfMarchYear(mp, d)
  {
    var starts := [0, 31, 61, 92, 122, 153, 184, 214, 245, 275, 306, 337];
    mp := 11;
    while starts[mp] > doy
      invariant 0 <= mp < 12
      invariant forall k :: mp < k < 12 ==> starts[k] > doy
      decreases mp
    {
      mp := mp - 1;
    }
    d := doy - starts[mp] + 1;
    assert mp < 11 ==> doy < starts[mp + 1];
    MarchMonthStart(mp, leap);
  }

  lemma MarchMonthStart(mp: int, leap: bool)
    requires 0 <= mp < 12
    ensures var starts := [0, 31, 61, 92, 122, 153, 184, 214, 245, 275, 306, 337];
            DayOfMarchYear(mp, 1) == starts[mp] &&
            (mp < 11 ==> starts[mp + 1] - starts[mp] == MarchMonthLength(mp, leap)) &&
            (mp == 11 ==> 365 + (if leap then 1 else 0) - starts[mp] == MarchMonthLength(mp, leap))
  {
    if mp == 0 {} else if mp == 1 {} else if mp == 2 {} else if mp == 3 {}
    else if mp == 4 {} else if mp == 5 {} else if mp == 6 {} else if mp == 7 {}
    else if mp == 8 {} else if mp == 9 {} else if mp == 10 {} else {}
  }

  /** Splits a day of the era into a year of the era and a day of the
      March-based year. */
  lemma EraDaySplit(doe: int) returns (yoe: int, doy: int)
    requires 0 <= doe < 146097
    ensures 0 <= yoe < 400 && doe == DayOfEra(yoe, doy)
    ensures 0 <= doy < 365 || (doy == 365 && (yoe + 1) % 4 == 0 && ((yoe + 1) % 100 != 0 || yoe == 399))
  {
    var c, rest := SplitCenturies(doe);
    var q, rest2 := SplitLeapCycles(rest);
    var r;
    r, doy := SplitYears(rest2);
    yoe := 100 * c + 4 * q + r;
    var c', q', r' := YearOfEraDigits(yoe);
    assert c' == c && q' == q && r' == r;
  }

  /** Whole centuries of 36524 days, the last one taking the era's extra day. */
  lemma SplitCenturies(doe: int) returns (c: int, rest: int)
    requires 0 <= doe < 146097
    ensures 0 <= c <= 3 && rest == doe - 36524 * c && 0 <= rest <= 36524 && (rest == 36524 ==> c == 3)
  {
    c := if doe / 36524 < 3 then doe / 36524 else 3;
    rest := doe - 36524 * c;
  }

  /** Whole four-year cycles of 1461 days within a century. */
  lemma SplitLeapCycles(rest: int) returns (q: int, rest2: int)
    requires 0 <= rest <= 36524
    ensures 0 <= q <= 24 && rest2 == rest - 1461 * q && 0 <= rest2 <= 1460
    ensures rest2 == 1460 ==> q < 24 || rest == 36524
  {
    q := if rest / 1461 < 24 then rest / 1461 else 24;
    rest2 := rest - 1461 * q;
  }

  /** Whole years of 365 days within a four-year cycle. */
  lemma SplitYears(rest2: int) returns (r: int, doy: int)
    requires 0 <= rest2 <= 1460
    ensures 0 <= r <= 3 && doy == rest2 - 365 * r && 0 <= doy <= 365 && (doy == 365 ==> r == 3)
  {
    r := if rest2 / 365 < 3 then rest2 / 365 else 3;
    doy := rest2 - 365 * r;
  }

  /** Every day count names a valid calendar date. */
  lemma {:induction false} CivilFromDaysValid(z: int)
    ensures ValidCivil(CivilFromDays(z))
  {
    var era := (z + 719468) / 146097;
    var doe := (z + 719468) % 146097;
    var yoe, doy := EraDaySplit(doe);
    YearOfEra(yoe, doy);
    var leap := (yoe + 1) % 4 == 0 && ((yoe + 1) % 100 != 0 || yoe == 399);
    var mp, d := MarchMonthSplit(doy, leap);
    MonthOfYear(mp, d, leap);
    EraDayRoundTrip(era, yoe, mp, d, doy);
    var month := if mp < 10 then mp + 2 else mp - 10;
    var year := yoe + era * 400 + (if month < 2 then 1 else 0);
    assert CivilFromDays(z) == Civil(year, month, d);
    LeapOfEra(era, yoe);
    MonthLengthsAgree(mp, year);
  }

  /** java.util.Date: milliseconds since 1970-01-01T00:00:00Z. */
  datatype Date = Date(time: int)

  function CivilOf(d: Date): (c: Civil)
    ensures ValidCivil(c)
  {
    CivilFromDaysValid(d.time / MillisPerDay);
    CivilFromDays(d.time / MillisPerDay)
  }

  /** Calendar.YEAR */
  function Year(d: Date): int { CivilOf(d).year }

  /** Calendar.MONTH (0 = January) */
  function Month(d: Date): int { CivilOf(d).month }

  /** Calendar.DAY_OF_MONTH */
  function DayOfMonth(d: Date): int { CivilOf(d).day }

  /** Calendar.DAY_OF_YEAR (1 = the 1st of January) */
  function DayOfYear(d: Date): int {
    d.time / MillisPerDay - DaysFromCivil(Civil(Year(d), 0, 1)) + 1
  }

  function MillisOfDay(d: Date): int { d.time % MillisPerDay }

  /** The key `year * 12 + month` that orders calendar months. */
  function MonthKey(d: Date): int { Year(d) * 12 + Month(d) }

  /** The instant at `ms` milliseconds into the calendar day `c`. */
  function AtCivil(c: Civil, ms: int): Date
    requires ValidCivil(c) && 0 <= ms < MillisPerDay
  {
    Date(DaysFromCivil(c) * MillisPerDay + ms)
  }

  lemma {:induction false} AtCivilFields(c: Civil, ms: int)
    requires ValidCivil(c) && 0 <= ms < MillisPerDay
    ensures CivilOf(AtCivil(c, ms)) == c && MillisOfDay(AtCivil(c, ms)) == ms
  {
    DivIs(AtCivil(c, ms).time, MillisPerDay, DaysFromCivil(c), ms);
    CivilRoundTrip(c);
  }

  /** The calendar day `n` months after `c`: the same day of the month,
      or the last day of the target month when that month is shorter. */
  function ShiftMonths(c: Civil, n: int): (r: Civil)
    requires ValidCivil(c)
    ensures ValidCivil(r)
    ensures r.year * 12 + r.month == c.year * 12 + c.month + n
    ensures r.day == if c.day <= DaysInMonth(r.year, r.month) then c.day else DaysInMonth(r.year, r.month)
  {
    var k := c.year * 12 + c.month + n;
    var day := if c.day <= DaysInMonth(k / 12, k % 12) then c.day else DaysInMonth(k / 12, k % 12);
    Civil(k / 12, k % 12, day)
  }

  /** `Calendar.add(Calendar.MONTH, n)`: the same day of the month `n` months
      on (the last day of that month when it is shorter), at the same time of
      day. `Calendar.add(Calendar.YEAR, 1)` is `AddMonths(d, 12)`. */
  function AddMonths(d: Date, n: int): Date {
    AtCivil(ShiftMonths(CivilOf(d), n), MillisOfDay(d))
  }

  /** Adding `n` months moves the month key by exactly `n`, keeps the day
      of the month unless the target month is shorter, and keeps the time of
      day. */
  lemma {:induction false} AddMonthsFields(d: Date, n: int)
    ensures MonthKey(AddMonths(d, n)) == MonthKey(d) + n
    ensures var r := AddMonths(d, n);
            DayOfMonth(r) ==
              if DayOfMonth(d) <= DaysInMonth(Year(r), Month(r)) then DayOfMonth(d) else DaysInMonth(Year(r), Month(r))
    ensures MillisOfDay(AddMonths(d, n)) == MillisOfDay(d)
  {
    AtCivilFields(ShiftMonths(CivilOf(d), n), MillisOfDay(d));
  }

  /** Every day count is the day count of its own calendar date. */
  lemma {:induction false} DaysRoundTrip(z: int)
    ensures ValidCivil(CivilFromDays(z)) && DaysFromCivil(CivilFromDays(z)) == z
  {
    CivilFromDaysValid(z);
    var era := (z + 719468) / 146097;
    var doe := (z + 719468) % 146097;
    var yoe, doy := EraDaySplit(doe);
    YearOfEra(yoe, doy);
    var leap := (yoe + 1) % 4 == 0 && ((yoe + 1) % 100 != 0 || yoe == 399);
    var mp, d := MarchMonthSplit(doy, leap);
    MonthOfYear(mp, d, leap);
    EraDayRoundTrip(era, yoe, mp, d, doy);
    DaysOfEraDate(era, yoe, mp, d);
  }

  /** The day count of the date that `CivilFromEraDay` builds from its parts. */
  lemma DaysOfEraDate(era: int, yoe: int, mp: int, d: int)
    requires 0 <= yoe < 400 && 0 <= mp < 12
    ensures var month := if mp < 10 then mp + 2 else mp - 10;
            var c := Civil(yoe + era * 400 + (if month < 2 then 1 else 0), month, d);
            ValidCivil(c) ==> DaysFromCivil(c) == era * 146097 + DayOfEra(yoe, DayOfMarchYear(mp, d)) - 719468
  {
    var month := if mp < 10 then mp + 2 else mp - 10;
    var year := yoe + era * 400 + (if month < 2 then 1 else 0);
    var y1 := if month < 2 then year - 1 else year;
    DivIs(y1, 400, era, yoe);
  }

  /** Moving within a month moves the day number by the same amount. */
  lemma DaysFromCivilDay(c: Civil, day: int)
    requires ValidCivil(c) && 1 <= day <= DaysInMonth(c.year, c.month)
    ensures DaysFromCivil(Civil(c.year, c.month, day)) == DaysFromCivil(c) + (day - c.day)
  {
    var c' := Civil(c.year, c.month, day);
    DaysFromCivilParts(c);
    DaysFromCivilParts(c');
    var y1 := if c.month < 2 then c.year - 1 else c.year;
    var mp := if c.month >= 2 then c.month - 2 else c.month + 10;
    assert DayOfMarchYear(mp, day) == DayOfMarchYear(mp, c.day) + (day - c.day);
  }

  /** A date is the instant of its calendar day at its time of day. */
  lemma DateOfCivil(d: Date)
    ensures d == AtCivil(CivilOf(d), MillisOfDay(d))
  {
    DaysRoundTrip(d.time / MillisPerDay);
  }
}
