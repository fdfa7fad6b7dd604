/** What the home screen derives from the expense list and the daily budget:
    the budget message and its snackbar, the habit tracker's progress and
    remaining budget, today's spend, and the expense a spoken sentence adds. */
module HomeScreen {
  import opened Wrappers
  import Text
  import Numbers
  import Seqs
  import Calendar
  import opened Entities
  import Tables
  import ExpenseDao
  import CategoryDao
  import ExpenseRepository
  import HomeViewModel

  // ---------------------------------------------------------------------
  // The budget message

  /** The line of the `message` chain that applies. */
  datatype Tier = Exceeded | Near | KeepAnEye | DoingWell | GreatStart | Quiet

  /** The tier of today's spend against the daily limit: no message for a
      zero limit, otherwise the first band the ratio lies above. */
  function MessageTier(spent: real, limit: real): (t: Tier)
    ensures limit == 0.0 ==> t == Quiet
    ensures limit != 0.0 ==>
              var ratio := spent / limit;
              (t == Exceeded <==> ratio > 1.0)
              && (t == Near <==> 0.8 < ratio <= 1.0)
              && (t == KeepAnEye <==> 0.5 < ratio <= 0.8)
              && (t == DoingWell <==> 0.3 < ratio <= 0.5)
              && (t == GreatStart <==> 0.1 < ratio <= 0.3)
              && (t == Quiet <==> ratio <= 0.1)
  {
    if limit == 0.0 then Quiet
    else if spent / limit > 1.0 then Exceeded
    else if spent / limit > 0.8 then Near
    else if spent / limit > 0.5 then KeepAnEye
    else if spent / limit > 0.3 then DoingWell
    else if spent / limit > 0.1 then GreatStart
    else Quiet
  }

  /** The text of a tier; `percent` is the ratio times 100 already formatted
      with one decimal. */
  function MessageText(t: Tier, percent: string): string {
    match t
    case Exceeded => "\U{1F6A8} You've exceeded your budget! \U{1F437}\U{1F4B8}"
    case Near => "\U{26A0}\U{FE0F} You're at " + percent + "%! \U{1F437}"
    case KeepAnEye => "\U{1F60A} Keep an eye on spending: " + percent + "%."
    case DoingWell => "\U{1F44D} Doing well! " + percent + "% used. \U{1F31F}"
    case GreatStart => "\U{2728} Great start! " + percent + "% spent. \U{1F308}"
    case Quiet => ""
  }

  /** `message`, with the `"%.1f"` formatting of a percentage given as
      `format`. */
  function BudgetMessage(spent: real, limit: real, format: real -> string): (m: string)
    ensures m == "" <==> MessageTier(spent, limit) == Quiet
  {
    if limit == 0.0 then "" else MessageText(MessageTier(spent, limit), format(spent / limit * 100.0))
  }

  /** The snackbar is shown exactly when the message is non-empty, so
      exactly when some tier other than `Quiet` applies. */
  predicate ShowsSnackbar(spent: real, limit: real, format: real -> string) {
    BudgetMessage(spent, limit, format) != ""
  }

  lemma SnackbarIffTier(spent: real, limit: real, format: real -> string)
    ensures ShowsSnackbar(spent, limit, format) <==> MessageTier(spent, limit) != Quiet
  {
  }

  /** The tiers in order of urgency. */
  function Rank(t: Tier): (n: nat)
    ensures n <= 5
  {
    match t
    case Quiet => 0
    case GreatStart => 1
    case DoingWell => 2
    case KeepAnEye => 3
    case Near => 4
    case Exceeded => 5
  }

  /** With a positive limit, spending more never gives a less urgent tier. */
  lemma TierMonotone(spent1: real, spent2: real, limit: real)
    requires limit > 0.0 && spent1 <= spent2
    ensures Rank(MessageTier(spent1, limit)) <= Rank(MessageTier(spent2, limit))
  {
    assert spent1 / limit <= spent2 / limit by {
      assert spent2 / limit - spent1 / limit == (spent2 - spent1) / limit;
    }
  }

  // ---------------------------------------------------------------------
  // The habit tracker

  /** `remainingBudget`; negative once the limit is overspent. */
  function Remaining(limit: real, spent: real): (r: real)
    ensures r + spent == limit
  {
    limit - spent
  }

  /** `progress`: the spent share of a positive limit, clamped to [0, 1];
      0 when the limit is not positive. */
  function Progress(limit: real, spent: real): (p: real)
    ensures 0.0 <= p <= 1.0
    ensures limit <= 0.0 ==> p == 0.0
    ensures limit > 0.0 ==> (p == 0.0 <==> spent <= 0.0) && (p == 1.0 <==> spent >= limit)
    ensures limit > 0.0 && 0.0 <= spent <= limit ==> p * limit == spent
  {
    if limit > 0.0 then
      var ratio := spent / limit;
      assert ratio * limit == spent;
      RatioOrder(spent, limit);
      if ratio < 0.0 then 0.0 else if ratio > 1.0 then 1.0 else ratio
    else 0.0
  }

  /** A share of a positive whole reaches 1 exactly when the part reaches
      the whole, and is positive exactly when the part is. */
  lemma RatioOrder(part: real, whole: real)
    requires whole > 0.0
    ensures part / whole >= 1.0 <==> part >= whole
    ensures part / whole <= 0.0 <==> part <= 0.0
  {
    var q := part / whole;
    assert q * whole == part;
    assert q * whole - whole == (q - 1.0) * whole;
  }

  /** With a positive limit the message says "exceeded" exactly when the
      remaining budget is negative, and the progress bar is then full. */
  lemma ExceededIffOverspent(spent: real, limit: real)
    requires limit > 0.0
    ensures MessageTier(spent, limit) == Exceeded <==> Remaining(limit, spent) < 0.0
    ensures MessageTier(spent, limit) == Exceeded ==> Progress(limit, spent) == 1.0
  {
    RatioAbove(spent, limit, 1.0);
  }

  /** Against a positive limit, the ratio exceeds `c` exactly when the
      amount exceeds `c` times the limit. */
  lemma RatioAbove(x: real, limit: real, c: real)
    requires limit > 0.0
    ensures x / limit > c <==> x > c * limit
  {
    var r := x / limit;
    assert r * limit == x;
    assert (r - c) * limit == x - c * limit;
    PositiveProduct(r - c, limit);
  }

  lemma PositiveProduct(a: real, b: real)
    requires b > 0.0
    ensures a > 0.0 <==> a * b > 0.0
  {
  }

  // ---------------------------------------------------------------------
  // Today's spend

  /** Same `Calendar.YEAR` and `Calendar.DAY_OF_YEAR`. */
  predicate SameCalendarDay(a: Calendar.Date, b: Calendar.Date) {
    Calendar.Year(a) == Calendar.Year(b) && Calendar.DayOfYear(a) == Calendar.DayOfYear(b)
  }

  /** Year and day of the year pick out exactly one calendar day: the two
      dates fall into the same whole day since the epoch. */
  lemma SameCalendarDayIff(a: Calendar.Date, b: Calendar.Date)
    ensures SameCalendarDay(a, b) <==> a.time / Calendar.MillisPerDay == b.time / Calendar.MillisPerDay
  {
  }

  function OnDayOf(today: Calendar.Date): ExpenseUiModel -> bool {
    (e: ExpenseUiModel) => SameCalendarDay(e.date, today)
  }

  /** `spentAmount`: the summed amounts of the expenses dated today. */
  function SpentToday(expenses: seq<ExpenseUiModel>, today: Calendar.Date): real {
    Seqs.Sum(Seqs.Filter(expenses, OnDayOf(today)), UiAmount)
  }

  /** One more expense adds its amount when it is dated today and nothing
      otherwise. */
  lemma SpentTodayAppend(expenses: seq<ExpenseUiModel>, e: ExpenseUiModel, today: Calendar.Date)
    ensures SpentToday(expenses + [e], today)
            == SpentToday(expenses, today) + (if SameCalendarDay(e.date, today) then e.amount else 0.0)
  {
    Seqs.FilterSnoc(expenses, e, OnDayOf(today));
    Seqs.SumAppend(Seqs.Filter(expenses, OnDayOf(today)), if SameCalendarDay(e.date, today) then [e] else [], UiAmount);
    assert [e][..0] == [];
  }

  lemma SpentTodayNonNegative(expenses: seq<ExpenseUiModel>, today: Calendar.Date)
    requires forall i :: 0 <= i < |expenses| ==> expenses[i].amount >= 0.0
    ensures SpentToday(expenses, today) >= 0.0
  {
    var f := Seqs.Filter(expenses, OnDayOf(today));
    Seqs.SumNonNegative(f, UiAmount);
  }

  // ---------------------------------------------------------------------
  // The amount of a spoken sentence

  /** The first index holding an ASCII digit, or `|s|` when there is none. */
  function FirstDigit(s: string): (i: nat)
    ensures i <= |s|
    ensures forall k :: 0 <= k < i ==> !Text.IsDigit(s[k])
    ensures i < |s| ==> Text.IsDigit(s[i])
  {
    if s == [] then 0
    else if Text.IsDigit(s[0]) then 0
    else 1 + FirstDigit(s[1..])
  }

  /** A whole match of `\d+(?:\.\d{1,2})?`. */
  predicate IsAmountToken(m: string) {
    var k := Numbers.DotIndex(m);
    if k < 0 then |m| >= 1 && Text.AllDigits(m)
    else k >= 1 && Text.AllDigits(m[..k]) && 1 <= |m| - k - 1 <= 2 && Text.AllDigits(m[k + 1..])
  }

  /** Where the match that starts at the digit `i` ends: the longest run of
      digits, then a '.' and up to two digits when at least one follows. */
  function AmountEnd(s: string, i: nat): (e: nat)
    requires i < |s| && Text.IsDigit(s[i])
    ensures i < e <= |s|
  {
    var j := Text.DigitRunEnd(s, i);
    if j + 1 < |s| && s[j] == '.' && Text.IsDigit(s[j + 1]) then
      (if j + 2 < |s| && Text.IsDigit(s[j + 2]) then j + 3 else j + 2)
    else j
  }

  /** `Regex("(\\d+(?:\\.\\d{1,2})?)").find(text)?.groupValues?.get(1)`: the
      leftmost match. */
  function FindAmount(text: string): (r: Option<string>)
    ensures r.None? <==> !Numbers.HasDigit(text)
    ensures r.Some? ==> IsAmountToken(r.value)
    ensures r.Some? ==> var i := FirstDigit(text);
                        i + |r.value| <= |text| && text[i..i + |r.value|] == r.value
  {
    var i := FirstDigit(text);
    if i == |text| then None
    else
      var m := text[i..AmountEnd(text, i)];
      AmountEndIsToken(text, i);
      Some(m)
  }

  lemma AmountEndIsToken(s: string, i: nat)
    requires i < |s| && Text.IsDigit(s[i])
    ensures IsAmountToken(s[i..AmountEnd(s, i)])
  {
    var j := Text.DigitRunEnd(s, i);
    var e := AmountEnd(s, i);
    var m := s[i..e];
    var k := j - i;
    var whole := s[i..j];
    assert Text.AllDigits(whole) by {
      forall x | 0 <= x < |whole| ensures Text.IsDigit(whole[x]) {
        assert whole[x] == s[i + x];
      }
    }
    if e == j {
      assert m == whole;
      TokenOfDigits(m);
    } else {
      assert m[..k] == whole && m[k] == s[j];
      var rest := m[k + 1..];
      if e == j + 2 {
        assert rest == [s[j + 1]];
      } else {
        assert rest == [s[j + 1], s[j + 2]];
      }
      TokenWithFraction(m, k);
    }
  }

  lemma TokenOfDigits(m: string)
    requires |m| >= 1 && Text.AllDigits(m)
    ensures IsAmountToken(m)
  {
    DotIndexOfDigits(m);
  }

  lemma TokenWithFraction(m: string, k: nat)
    requires 1 <= k < |m| && Text.AllDigits(m[..k]) && m[k] == '.'
    requires 1 <= |m| - k - 1 <= 2 && Text.AllDigits(m[k + 1..])
    ensures IsAmountToken(m)
  {
    DotIndexAfterDigits(m, k);
  }

  lemma DotIndexOfDigits(m: string)
    requires Text.AllDigits(m)
    ensures Numbers.DotIndex(m) == -1
  {
  }

  lemma {:induction false} DotIndexAfterDigits(m: string, k: nat)
    requires k < |m| && Text.AllDigits(m[..k]) && m[k] == '.'
    ensures Numbers.DotIndex(m) == k
  {
    if k > 0 {
      assert Text.IsDigit(m[..k][0]);
      assert m[1..][..k - 1] == m[..k][1..];
      DotIndexAfterDigits(m[1..], k - 1);
    }
  }

  /** No match is longer: every longer text from the same start fails to be
      a match, so the extraction is greedy. */
  lemma FindAmountLongest(text: string, e: nat)
    requires FindAmount(text).Some?
    requires FirstDigit(text) + |FindAmount(text).value| < e <= |text|
    ensures !IsAmountToken(text[FirstDigit(text)..e])
  {
    var i := FirstDigit(text);
    assert |FindAmount(text).value| == AmountEnd(text, i) - i;
    AmountEndLongest(text, i, e);
  }

  /** The match starting at the digit `i` cannot be extended to `e`. */
  lemma AmountEndLongest(text: string, i: nat, e: nat)
    requires i < |text| && Text.IsDigit(text[i]) && AmountEnd(text, i) < e <= |text|
    ensures !IsAmountToken(text[i..e])
  {
    var j := Text.DigitRunEnd(text, i);
    var t := text[i..e];
    var k := j - i;
    assert t[..k] == text[i..j];
    assert t[k] == text[j];
    if text[j] != '.' {
      NotTokenWithStray(t, k);
    } else if e == j + 1 || e > j + 3 {
      NotTokenAfterDot(t, k);
    } else {
      var rest := t[k + 1..];
      if AmountEnd(text, i) == j {
        assert rest[0] == text[j + 1] && !Text.IsDigit(text[j + 1]);
      } else {
        assert e == j + 3;
        assert rest[1] == text[j + 2] && !Text.IsDigit(text[j + 2]);
      }
      NotTokenAfterDot(t, k);
    }
  }

  /** Digits, a '.' and then nothing, more than two characters, or a
      character that is not a digit: no match. */
  lemma NotTokenAfterDot(t: string, k: nat)
    requires k < |t| && Text.AllDigits(t[..k]) && t[k] == '.'
    requires |t| - k - 1 == 0 || |t| - k - 1 > 2 || !Text.AllDigits(t[k + 1..])
    ensures !IsAmountToken(t)
  {
    DotIndexAfterDigits(t, k);
  }

  /** Digits followed by a character that is neither a digit nor '.' are
      no match. */
  lemma NotTokenWithStray(t: string, p: nat)
    requires p < |t| && Text.AllDigits(t[..p]) && !Text.IsDigit(t[p]) && t[p] != '.'
    ensures !IsAmountToken(t)
  {
    var k := Numbers.DotIndex(t);
    if k >= 0 {
      assert k > p;
      assert t[..k][p] == t[p];
    }
  }

  /** A match always reads as a number, so `amount.toDouble()` never throws
      on it. */
  lemma AmountTokenParses(m: string)
    requires IsAmountToken(m)
    ensures Numbers.ToDouble(m).Ok?
  {
    assert Numbers.MatchesAmountPattern(m);
    var k := Numbers.DotIndex(m);
    if k >= 1 {
      assert m[..k][0] == m[0];
    }
    assert Text.IsDigit(m[0]);
  }

  // ---------------------------------------------------------------------
  // The date of a spoken sentence

  /** `Calendar.DAY_OF_WEEK`: 1 for Sunday to 7 for Saturday; the first of
      January 1970 was a Thursday. */
  function DayOfWeek(d: Calendar.Date): (w: int)
    ensures 1 <= w <= 7
  {
    (d.time / Calendar.MillisPerDay + 4) % 7 + 1
  }

  /** The weekday names of the "last ..." phrase with their `Calendar`
      constants, in the order of the pattern's alternatives. */
  const Weekdays: seq<(string, int)> := [("monday", 2), ("tuesday", 3), ("wednesday", 4),
    ("thursday", 5), ("friday", 6), ("saturday", 7), ("sunday", 1)]

  /** `calendar.set(Calendar.DAY_OF_MONTH, day)` on the lenient calendar:
      the time moves by whole days, so a day past the month's end rolls over
      into the next month. */
  function SetDayOfMonth(d: Calendar.Date, day: int): Calendar.Date {
    Calendar.Date(d.time + (day - Calendar.DayOfMonth(d)) * Calendar.MillisPerDay)
  }

  /** A day of the current month is set as such, at the same time of day. */
  lemma SetDayOfMonthFields(d: Calendar.Date, day: int)
    requires 1 <= day <= Calendar.DaysInMonth(Calendar.Year(d), Calendar.Month(d))
    ensures var r := SetDayOfMonth(d, day);
            Calendar.Year(r) == Calendar.Year(d) && Calendar.Month(r) == Calendar.Month(d)
            && Calendar.DayOfMonth(r) == day && Calendar.MillisOfDay(r) == Calendar.MillisOfDay(d)
  {
    var c := Calendar.CivilOf(d);
    var c' := Calendar.Civil(c.year, c.month, day);
    Calendar.DateOfCivil(d);
    Calendar.DaysFromCivilDay(c, day);
    assert SetDayOfMonth(d, day) == Calendar.AtCivil(c', Calendar.MillisOfDay(d));
    Calendar.AtCivilFields(c', Calendar.MillisOfDay(d));
  }

  /** The "last <weekday>" date: a week back, then forward day by day to the
      first day with that weekday. */
  function LastWeekdayDate(now: Calendar.Date, dayOfWeek: int): Calendar.Date {
    var start := Calendar.Date(now.time - 7 * Calendar.MillisPerDay);
    Calendar.Date(start.time + ((dayOfWeek - DayOfWeek(start)) % 7) * Calendar.MillisPerDay)
  }

  lemma NextDayOfWeek(t: int)
    ensures DayOfWeek(Calendar.Date(t + Calendar.MillisPerDay)) == DayOfWeek(Calendar.Date(t)) % 7 + 1
  {
    Calendar.DivIs(t + Calendar.MillisPerDay, Calendar.MillisPerDay, t / Calendar.MillisPerDay + 1, t % Calendar.MillisPerDay);
  }

  /** Stepping one day on from weekday `(w0 - 1 + k) % 7 + 1`. */
  lemma WeekdayStep(w0: int, k: nat)
    requires 1 <= w0 <= 7
    ensures ((w0 - 1 + k) % 7 + 1) % 7 + 1 == (w0 - 1 + k + 1) % 7 + 1
  {
    var a := w0 - 1 + k;
    Calendar.DivIs(a + 1, 7, a / 7 + (a % 7 + 1) / 7, (a % 7 + 1) % 7);
  }

  /** Within the first `(w - w0) % 7` steps from weekday `w0`, weekday `w`
      is reached exactly at the last one. */
  lemma WeekdayReached(w0: int, w: int, k: nat)
    requires 1 <= w0 <= 7 && 1 <= w <= 7 && k <= (w - w0) % 7
    ensures (w0 - 1 + k) % 7 + 1 == w <==> k == (w - w0) % 7
  {
    var n := (w - w0) % 7;
    var a := (w - w0) / 7;
    assert w - w0 == 7 * a + n;
    if k == n {
      Calendar.DivIs(w0 - 1 + k, 7, -a, w - 1);
    } else {
      var q := (w0 - 1 + k) / 7;
      var rem := (w0 - 1 + k) % 7;
      assert w0 - 1 + k == 7 * q + rem;
      assert rem != w - 1;
    }
  }

  /** The loop of the "last <weekday>" branch. */
  method LastWeekday(now: Calendar.Date, dayOfWeek: int) returns (d: Calendar.Date)
    requires 1 <= dayOfWeek <= 7
    ensures d == LastWeekdayDate(now, dayOfWeek)
    ensures DayOfWeek(d) == dayOfWeek
    ensures now.time - 7 * Calendar.MillisPerDay <= d.time < now.time
    ensures (now.time - d.time) % Calendar.MillisPerDay == 0
  {
    var start := Calendar.Date(now.time - 7 * Calendar.MillisPerDay);
    var w0 := DayOfWeek(start);
    ghost var n := (dayOfWeek - w0) % 7;
    var k := 0;
    d := start;
    WeekdayReached(w0, dayOfWeek, 0);
    while DayOfWeek(d) != dayOfWeek
      invariant 0 <= k <= n
      invariant d.time == start.time + k * Calendar.MillisPerDay
      invariant DayOfWeek(d) == (w0 - 1 + k) % 7 + 1
      invariant DayOfWeek(d) == dayOfWeek <==> k == n
      decreases n - k
    {
      NextDayOfWeek(d.time);
      WeekdayStep(w0, k);
      d := Calendar.Date(d.time + Calendar.MillisPerDay);
      k := k + 1;
      WeekdayReached(w0, dayOfWeek, k);
    }
    Calendar.DivIs(now.time - d.time, Calendar.MillisPerDay, 7 - k, 0);
  }

  /** An ordinal date phrase at `i` of the lowered text `l`: "on the ",
      digits, then "st", "nd", "rd" or "th". */
  predicate OrdinalAt(l: string, i: nat)
    requires i <= |l|
  {
    Text.StartsWith(l[i..], "on the ")
    && var j := Text.DigitRunEnd(l, i + 7);
       j > i + 7 && (Text.StartsWith(l[j..], "st") || Text.StartsWith(l[j..], "nd")
                     || Text.StartsWith(l[j..], "rd") || Text.StartsWith(l[j..], "th"))
  }

  /** `text.contains(Regex("on the (\\d+)(st|nd|rd|th)", IGNORE_CASE))`,
      matched against the lowered text. Kotlin's `IGNORE_CASE` also folds
      non-ASCII case; `Text.Lower` folds ASCII letters only. */
  predicate HasOrdinalPhrase(text: string) {
    var l := Text.Lower(text);
    exists i :: 0 <= i <= |l| && OrdinalAt(l, i)
  }

  /** "on the " followed by a digit at `i`, case-sensitively. */
  predicate OnTheDigitAt(text: string, i: nat)
    requires i <= |text|
  {
    Text.StartsWith(text[i..], "on the ") && i + 7 < |text| && Text.IsDigit(text[i + 7])
  }

  /** `Regex("on the (\\d+)").find(text)`: where the first match starts. */
  function FindOnThe(text: string, from: nat): (r: Option<nat>)
    requires from <= |text|
    ensures r.Some? ==> from <= r.value <= |text| && OnTheDigitAt(text, r.value)
                        && forall i :: from <= i < r.value ==> !OnTheDigitAt(text, i)
    ensures r.None? ==> forall i :: from <= i <= |text| ==> !OnTheDigitAt(text, i)
    decreases |text| - from
  {
    if OnTheDigitAt(text, from) then Some(from)
    else if from == |text| then None
    else FindOnThe(text, from + 1)
  }

  const IntMax: int := 2147483647

  /** `String.toIntOrNull()` on a string of digits: null past `Int.MAX_VALUE`. */
  function ToIntOrNull(digits: string): (r: Option<int>)
    requires Text.AllDigits(digits)
    ensures r.Some? ==> 0 <= r.value <= IntMax
  {
    if Text.DigitsValue(digits) <= IntMax then Some(Text.DigitsValue(digits)) else None
  }

  /** `dayMatch?.groupValues?.get(1)?.toIntOrNull()`: the digits after the
      first case-sensitive "on the ". */
  function SpokenDay(text: string): (r: Option<int>)
    ensures r.Some? ==> FindOnThe(text, 0).Some?
  {
    match FindOnThe(text, 0)
    case None => None
    case Some(i) =>
      var j := Text.DigitRunEnd(text, i + 7);
      ToIntOrNull(text[i + 7..j])
  }

  /** The date of an "on the ..." sentence: the spoken day of the current
      month when it lies in 1..31, otherwise now. */
  function OnTheDate(text: string, now: Calendar.Date): Calendar.Date {
    match SpokenDay(text)
    case Some(day) => if 1 <= day <= 31 then SetDayOfMonth(now, day) else now
    case None => now
  }

  /** The day-of-week constant of the weekday named at `p` after "last ",
      trying the names from the `k`-th on. */
  function WeekdayAt(l: string, p: nat, k: nat): (r: Option<int>)
    requires p <= |l|
    ensures r.Some? ==> 1 <= r.value <= 7
    decreases |Weekdays| - k
  {
    if k >= |Weekdays| then None
    else if Text.StartsWith(l[p..], "last " + Weekdays[k].0) then Some(Weekdays[k].1)
    else WeekdayAt(l, p, k + 1)
  }

  /** `Regex("last (monday|...|sunday)", IGNORE_CASE).find(text)` on the
      lowered text, mapped through the `when` to a `Calendar` constant. */
  function FindWeekday(l: string, p: nat): (r: Option<int>)
    requires p <= |l|
    ensures r.Some? ==> 1 <= r.value <= 7
    decreases |l| - p
  {
    match WeekdayAt(l, p, 0)
    case Some(w) => Some(w)
    case None => if p == |l| then None else FindWeekday(l, p + 1)
  }

  /** The branch of the date `when` a sentence takes. */
  datatype DatePhrase = OnThe | Last(dayOfWeek: int) | Yesterday | Tomorrow | NoPhrase

  /** The first branch whose test holds, in the order "on the Nth", "last
      <weekday>", "yesterday", "tomorrow". */
  function PhraseOf(text: string): (p: DatePhrase)
    ensures var l := Text.Lower(text);
            (p == OnThe <==> HasOrdinalPhrase(text))
            && (p.Last? <==> !HasOrdinalPhrase(text) && FindWeekday(l, 0).Some?)
            && (p == Yesterday <==> !HasOrdinalPhrase(text) && FindWeekday(l, 0).None?
                                    && Text.Contains(l, "yesterday"))
            && (p == Tomorrow <==> !HasOrdinalPhrase(text) && FindWeekday(l, 0).None?
                                   && !Text.Contains(l, "yesterday") && Text.Contains(l, "tomorrow"))
    ensures p.Last? ==> 1 <= p.dayOfWeek <= 7
  {
    var l := Text.Lower(text);
    if HasOrdinalPhrase(text) then OnThe
    else match FindWeekday(l, 0)
      case Some(w) => Last(w)
      case None =>
        if Text.Contains(l, "yesterday") then Yesterday
        else if Text.Contains(l, "tomorrow") then Tomorrow
        else NoPhrase
  }

  /** The `date` of a spoken sentence. */
  function VoiceDate(text: string, now: Calendar.Date): Calendar.Date {
    match PhraseOf(text)
    case OnThe => OnTheDate(text, now)
    case Last(w) => LastWeekdayDate(now, w)
    case Yesterday => Calendar.Date(now.time - Calendar.MillisPerDay)
    case Tomorrow => Calendar.Date(now.time + Calendar.MillisPerDay)
    case NoPhrase => now
  }

  /** An "on the ..." sentence moves the date only for a spoken day in
      1..31, and a day of the current month becomes the day of the month. */
  lemma OnTheChangesDayOnlyInRange(text: string, now: Calendar.Date)
    requires PhraseOf(text) == OnThe
    ensures VoiceDate(text, now) != now ==>
              SpokenDay(text).Some? && 1 <= SpokenDay(text).value <= 31
    ensures SpokenDay(text).Some? && 1 <= SpokenDay(text).value <= Calendar.DaysInMonth(Calendar.Year(now), Calendar.Month(now))
            ==> Calendar.DayOfMonth(VoiceDate(text, now)) == SpokenDay(text).value
                && Calendar.Month(VoiceDate(text, now)) == Calendar.Month(now)
                && Calendar.Year(VoiceDate(text, now)) == Calendar.Year(now)
  {
    match SpokenDay(text)
    case None =>
    case Some(day) =>
      if 1 <= day <= Calendar.DaysInMonth(Calendar.Year(now), Calendar.Month(now)) {
        assert Calendar.DaysInMonth(Calendar.Year(now), Calendar.Month(now)) <= 31;
        SetDayOfMonthFields(now, day);
      }
  }

  /** "yesterday" and "tomorrow" are the neighbouring days at the same time
      of day. */
  lemma NeighbourDays(text: string, now: Calendar.Date)
    ensures PhraseOf(text) == Yesterday ==>
              VoiceDate(text, now).time / Calendar.MillisPerDay == now.time / Calendar.MillisPerDay - 1
    ensures PhraseOf(text) == Tomorrow ==>
              VoiceDate(text, now).time / Calendar.MillisPerDay == now.time / Calendar.MillisPerDay + 1
    ensures PhraseOf(text) in {Yesterday, Tomorrow} ==>
              Calendar.MillisOfDay(VoiceDate(text, now)) == Calendar.MillisOfDay(now)
  {
    var q := now.time / Calendar.MillisPerDay;
    var ms := now.time % Calendar.MillisPerDay;
    Calendar.DivIs(now.time - Calendar.MillisPerDay, Calendar.MillisPerDay, q - 1, ms);
    Calendar.DivIs(now.time + Calendar.MillisPerDay, Calendar.MillisPerDay, q + 1, ms);
  }

  /** The date `when` of the speech callback, with its loop. */
  method VoiceDateOf(text: string, now: Calendar.Date) returns (date: Calendar.Date)
    ensures date == VoiceDate(text, now)
  {
    var phrase := PhraseOf(text);
    match phrase
    case OnThe =>
      date := OnTheDate(text, now);
    case Last(w) =>
      date := LastWeekday(now, w);
    case Yesterday =>
      date := Calendar.Date(now.time - Calendar.MillisPerDay);
    case Tomorrow =>
      date := Calendar.Date(now.time + Calendar.MillisPerDay);
    case NoPhrase =>
      date := now;
  }

  // ---------------------------------------------------------------------
  // The expense a sentence adds

  /** The `ExpenseUiModel` the callback builds when an amount is found: the
      amount read from the match, category "Other", not recurring. */
  function VoiceExpense(text: string, place: string, date: Calendar.Date): (r: Option<ExpenseUiModel>)
    ensures r.Some? <==> Numbers.HasDigit(text)
    ensures r.Some? ==> Numbers.ToDouble(FindAmount(text).value) == Ok(r.value.amount)
    ensures r.Some? ==> r.value == ExpenseUiModel(0, r.value.amount, place, "Other", date, false, None, None)
    ensures r.Some? ==> HomeViewModel.WithDueDate(r.value) == r.value
  {
    match FindAmount(text)
    case None => None
    case Some(m) =>
      AmountTokenParses(m);
      Some(ExpenseUiModel(0, Numbers.ToDouble(m).value, place, "Other", date, false, None, None))
  }

  /** With an "Other" category present, a sentence with an amount appends
      one row with a fresh id. */
  lemma VoiceAddAppends(t: Tables.Table<Expense>, categories: seq<CategoryEntity>, text: string, place: string, date: Calendar.Date)
    requires Tables.Valid(t, ExpenseDao.Id) && CategoryDao.HasName(categories, "Other")
    requires Numbers.HasDigit(text)
    ensures var next := ExpenseRepository.Added(t, categories, VoiceExpense(text, place, date).value);
            next.Ok? && |next.value.rows| == |t.rows| + 1 && next.value.rows[..|t.rows|] == t.rows
  {
    var ui := VoiceExpense(text, place, date).value;
    ExpenseRepository.AddedNew(t, categories, ui);
    var k := ExpenseRepository.CategoryIdFor(categories, ui.categoryName).value;
    assert (t.rows + [ExpenseRepository.ToEntity(ui, k).(id := t.lastId + 1)])[..|t.rows|] == t.rows;
  }

  /** The speech callback: with an amount in the sentence, `addExpense` of
      the voice expense on its spoken date; without one, nothing. The place
      is the sentence after the callback's clean-up. */
  method OnSpeechResult(vm: HomeViewModel.HomeViewModel, text: string, place: string, now: Calendar.Date)
    returns (r: Result<()>)
    requires vm.repository.Valid()
    modifies vm, vm.repository.expenseDao
    ensures vm.repository.Valid()
    ensures match VoiceExpense(text, place, VoiceDate(text, now))
            case None =>
              r == Ok(()) && vm.isExpenseAdded == old(vm.isExpenseAdded)
              && vm.repository.expenseDao.State() == old(vm.repository.expenseDao.State())
            case Some(ui) =>
              var next := ExpenseRepository.Added(old(vm.repository.expenseDao.State()), vm.repository.categoryDao.rows, ui);
              (next.Ok? ==> r == Ok(()) && vm.isExpenseAdded && vm.repository.expenseDao.State() == next.value)
              && (next.Err? ==> vm.repository.expenseDao.State() == old(vm.repository.expenseDao.State())
                                && r == if next.error == ExpenseRepository.CategoryNotFound then Ok(()) else Err(next.error))
  {
    var amount := FindAmount(text);
    var date := VoiceDateOf(text, now);
    if amount.None? {
      r := Ok(());
      return;
    }
    var ui := VoiceExpense(text, place, date).value;
    r := vm.AddExpense(ui);
  }
}
