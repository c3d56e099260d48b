/** Calendar arithmetic shared by the dashboard, the reports and the calendar:
    "YYYY-MM" keys, month offsets as `new Date(y, m - i, 1)` computes them,
    the month of an ISO date string, and the proleptic Gregorian calendar. */
module Dates {
  import opened Types
  import opened Text

  /** A calendar month; `month` is 1..12 (JavaScript's `getMonth() + 1`). */
  datatype YearMonth = YearMonth(year: int, month: int)
  {
    predicate Valid() { 1 <= month <= 12 }
  }

  /** `date.substring(0, 7)`: the "YYYY-MM" prefix of an ISO date (the whole string if shorter). */
  function MonthPrefix(date: string): (r: string)
    ensures |r| == if |date| < 7 then |date| else 7
    ensures r <= date
  {
    if |date| < 7 then date else date[..7]
  }

  /** The month and year of `new Date(date)` for an ISO "YYYY-MM[-DD...]" string;
      None where JavaScript yields an invalid date. */
  function EventMonth(date: string): (r: Option<YearMonth>)
    ensures r.Some? ==> r.value.Valid() && 0 <= r.value.year <= 9999
    ensures r.Some? && r.value.year >= 1000 ==> MonthKey(r.value) == MonthPrefix(date)
  {
    if |date| >= 7 && AllDigits(date[..4]) && date[4] == '-' && AllDigits(date[5..7])
       && (|date| == 7 || date[7] == '-')
       && 1 <= ParseDigits(date[5..7]) <= 12
    then
      var ym := YearMonth(ParseDigits(date[..4]), ParseDigits(date[5..7]));
      ParseDigitsBelow(date[..4]);
      assert Pow10(4) == 10000;
      assert ym.year >= 1000 ==> MonthKey(ym) == MonthPrefix(date) by {
        if ym.year >= 1000 {
          FourDigitsCanonical(date[..4]);
          TwoDigitsCanonical(date[5..7]);
          assert date[..7] == date[..4] + "-" + date[5..7];
        }
      }
      Some(ym)
    else None
  }

  /** `${year}-${String(month).padStart(2, '0')}`. */
  function MonthKey(ym: YearMonth): string
    requires ym.Valid()
  {
    IntToString(ym.year) + "-" + PadStart(NatToString(ym.month), 2)
  }

  /** The month key ends in a hyphen and the two digits of the zero-padded month, which
      read back as the month. */
  lemma MonthKeyShape(ym: YearMonth)
    requires ym.Valid()
    ensures var k := MonthKey(ym);
      && |k| >= 4 && k[|k| - 3] == '-'
      && k[|k| - 2] == DigitChar(ym.month / 10) && k[|k| - 1] == DigitChar(ym.month % 10)
      && DigitValue(k[|k| - 2]) * 10 + DigitValue(k[|k| - 1]) == ym.month
  {
    var y, p := IntToString(ym.year), PadStart(NatToString(ym.month), 2);
    assert |y| >= 1;
    Pad2Digits(ym.month);
    var hi, lo := DigitChar(ym.month / 10), DigitChar(ym.month % 10);
    assert p == [hi, lo];
    assert MonthKey(ym) == y + "-" + [hi, lo];
    DigitRoundTrip(ym.month / 10);
    DigitRoundTrip(ym.month % 10);
    HyphenSuffix(y, hi, lo);
  }

  lemma HyphenSuffix(y: string, hi: char, lo: char)
    requires |y| >= 1
    ensures var k := y + "-" + [hi, lo]; |k| >= 4 && k[|k| - 3] == '-' && k[|k| - 2] == hi && k[|k| - 1] == lo
  {
  }

  /** The month `delta` months after `ym` (before, when negative), with year carry:
      `new Date(year, month - 1 + delta, 1)`. */
  function AddMonths(ym: YearMonth, delta: int): (r: YearMonth)
    requires ym.Valid()
    ensures r.Valid()
  {
    var total := ym.year * 12 + (ym.month - 1) + delta;
    YearMonth(total / 12, total % 12 + 1)
  }

  /** The number of months from year 0 to `ym`; AddMonths moves it by exactly `delta`. */
  function MonthIndex(ym: YearMonth): int
  {
    ym.year * 12 + ym.month - 1
  }

  lemma AddMonthsIndex(ym: YearMonth, delta: int)
    requires ym.Valid()
    ensures MonthIndex(AddMonths(ym, delta)) == MonthIndex(ym) + delta
  {
  }

  lemma MonthIndexInjective(a: YearMonth, b: YearMonth)
    requires a.Valid() && b.Valid() && MonthIndex(a) == MonthIndex(b)
    ensures a == b
  {
    assert (a.year - b.year) * 12 == b.month - a.month;
  }

  /** One month later: the next month of the same year, or January of the next year after December. */
  lemma NextMonth(ym: YearMonth)
    requires ym.Valid()
    ensures AddMonths(ym, 1) == if ym.month == 12 then YearMonth(ym.year + 1, 1) else YearMonth(ym.year, ym.month + 1)
  {
    var n := AddMonths(ym, 1);
    var expected := if ym.month == 12 then YearMonth(ym.year + 1, 1) else YearMonth(ym.year, ym.month + 1);
    AddMonthsIndex(ym, 1);
    assert MonthIndex(expected) == MonthIndex(ym) + 1;
    MonthIndexInjective(n, expected);
  }

  lemma AddMonthsZero(ym: YearMonth)
    requires ym.Valid()
    ensures AddMonths(ym, 0) == ym
  {
    AddMonthsIndex(ym, 0);
    MonthIndexInjective(AddMonths(ym, 0), ym);
  }

  lemma AddMonthsCompose(ym: YearMonth, a: int, b: int)
    requires ym.Valid()
    ensures AddMonths(AddMonths(ym, a), b) == AddMonths(ym, a + b)
  {
    AddMonthsIndex(ym, a);
    AddMonthsIndex(AddMonths(ym, a), b);
    AddMonthsIndex(ym, a + b);
    MonthIndexInjective(AddMonths(AddMonths(ym, a), b), AddMonths(ym, a + b));
  }

  // ---- Gregorian calendar ----

  predicate IsLeapYear(y: int)
  {
    y % 4 == 0 && (y % 100 != 0 || y % 400 == 0)
  }

  /** `new Date(year, month, 0).getDate()`: the length of the month. */
  function DaysInMonth(y: int, m: int): (r: int)
    requires 1 <= m <= 12
    ensures 28 <= r <= 31
    ensures m == 2 ==> (r == 29 <==> IsLeapYear(y))
  {
    if m == 2 then (if IsLeapYear(y) then 29 else 28)
    else if m == 4 || m == 6 || m == 9 || m == 11 then 30
    else 31
  }

  function DaysInYear(y: int): int
  {
    if IsLeapYear(y) then 366 else 365
  }

  /** Days from 0001-01-01 to the first of January of year `y` (negative before year 1),
      counted year by year. */
  function DaysBeforeYear(y: int): int
    decreases if y >= 1 then y - 1 else 1 - y
  {
    if y == 1 then 0
    else if y > 1 then DaysBeforeYear(y - 1) + DaysInYear(y - 1)
    else DaysBeforeYear(y + 1) - DaysInYear(y)
  }

  /** The proleptic Gregorian count in closed form: 365 days a year plus the leap days. */
  function LeapFormula(y: int): int
  {
    365 * (y - 1) + (y - 1) / 4 - (y - 1) / 100 + (y - 1) / 400
  }

  /** Days from the first of January of `y` to the first of month `m`. */
  function DaysBeforeMonth(y: int, m: int): int
    requires 1 <= m <= 12
  {
    [0, 31, 59, 90, 120, 151, 181, 212, 243, 273, 304, 334][m - 1]
    + (if m > 2 && IsLeapYear(y) then 1 else 0)
  }

  /** The first of the next month comes DaysInMonth days after the first of this one;
      December ends the year. */
  lemma DaysBeforeMonthStep(y: int, m: int)
    requires 1 <= m <= 12
    ensures m < 12 ==> DaysBeforeMonth(y, m + 1) == DaysBeforeMonth(y, m) + DaysInMonth(y, m)
    ensures m == 12 ==> DaysBeforeMonth(y, m) + DaysInMonth(y, m) == DaysInYear(y)
  {
  }

  /** Days from 0001-01-01 (a Monday) to the given date. */
  function DayNumber(y: int, m: int, d: int): int
    requires 1 <= m <= 12
  {
    DaysBeforeYear(y) + DaysBeforeMonth(y, m) + (d - 1)
  }

  /** The weekday of the first of January of `y`, counted year by year from the epoch
      1970-01-01, a Thursday (0 = Sunday .. 6 = Saturday). */
  function JanFirstWeekday(y: int): (r: int)
    ensures 0 <= r <= 6
    decreases if y >= 1970 then y - 1970 else 1970 - y
  {
    if y == 1970 then 4
    else if y > 1970 then (JanFirstWeekday(y - 1) + DaysInYear(y - 1)) % 7
    else (JanFirstWeekday(y + 1) - DaysInYear(y)) % 7
  }

  /** `getDay()`: 0 = Sunday .. 6 = Saturday. */
  function Weekday(y: int, m: int, d: int): (r: int)
    requires 1 <= m <= 12
    ensures 0 <= r <= 6
  {
    (JanFirstWeekday(y) + DaysBeforeMonth(y, m) + (d - 1)) % 7
  }

  /** Consecutive years start a year length apart, on either side of year 1. */
  lemma DaysBeforeYearStep(y: int)
    ensures DaysBeforeYear(y + 1) == DaysBeforeYear(y) + DaysInYear(y)
  {
    if y < 1 {
      assert DaysBeforeYear(y) == DaysBeforeYear(y + 1) - DaysInYear(y);
    } else {
      assert DaysBeforeYear(y + 1) == DaysBeforeYear(y) + DaysInYear(y);
    }
  }

  lemma QuarterStep(y: int)
    ensures y / 4 - (y - 1) / 4 == if y % 4 == 0 then 1 else 0
  {
  }

  lemma CenturyStep(y: int)
    ensures y / 100 - (y - 1) / 100 == if y % 100 == 0 then 1 else 0
  {
  }

  lemma QuadricentennialStep(y: int)
    ensures y / 400 - (y - 1) / 400 == if y % 400 == 0 then 1 else 0
  {
  }

  /** The closed form grows by exactly one year length from year to year: the leap rule
      of 4, 100 and 400. */
  lemma LeapFormulaStep(y: int)
    ensures LeapFormula(y + 1) == LeapFormula(y) + DaysInYear(y)
  {
    QuarterStep(y);
    CenturyStep(y);
    QuadricentennialStep(y);
    DivisorChain(y);
  }

  /** A multiple of 400 is one of 100, and a multiple of 100 one of 4. */
  lemma DivisorChain(y: int)
    ensures y % 400 == 0 ==> y % 100 == 0
    ensures y % 100 == 0 ==> y % 4 == 0
  {
    if y % 400 == 0 {
      var k := y / 400;
      assert y == 400 * k;
      assert y / 100 == 4 * k;
    }
    if y % 100 == 0 {
      var k := y / 100;
      assert y == 100 * k;
      assert y / 4 == 25 * k;
    }
  }


  /** The year-by-year count agrees with the closed Gregorian formula for every year. */
  lemma {:induction false} DaysBeforeYearClosedForm(y: int)
    ensures DaysBeforeYear(y) == LeapFormula(y)
    decreases if y >= 1 then y - 1 else 1 - y
  {
    if y > 1 {
      DaysBeforeYearClosedForm(y - 1);
      LeapFormulaStep(y - 1);
    } else if y < 1 {
      DaysBeforeYearClosedForm(y + 1);
      LeapFormulaStep(y);
    }
  }

  /** The first of the next month is DaysInMonth days after the first of this one. */
  lemma DayNumberOfNextMonth(y: int, m: int)
    requires 1 <= m <= 12
    ensures var n := AddMonths(YearMonth(y, m), 1);
      DayNumber(n.year, n.month, 1) == DayNumber(y, m, 1) + DaysInMonth(y, m)
  {
    NextMonth(YearMonth(y, m));
    DaysBeforeMonthStep(y, m);
    if m == 12 {
      DaysBeforeYearStep(y);
    }
  }

  lemma ModShift(a: int, k: int)
    ensures (a + k) % 7 == (a % 7 + k) % 7
  {
    assert a == 7 * (a / 7) + a % 7;
    assert a + k == 7 * (a / 7) + (a % 7 + k);
  }

  /** The count from 0001-01-01 (a Monday) puts 1970-01-01 on a Thursday, where the
      weekday count starts. */
  lemma EpochIsThursday()
    ensures (DayNumber(1970, 1, 1) + 1) % 7 == 4
  {
    DaysBeforeYearClosedForm(1970);
  }

  /** The first of January falls on the same weekday in both counts, for every year. */
  lemma {:induction false} JanFirstMatchesDayCount(y: int)
    ensures JanFirstWeekday(y) == (DaysBeforeYear(y) + 1) % 7
    decreases if y >= 1970 then y - 1970 else 1970 - y
  {
    if y == 1970 {
      EpochIsThursday();
    } else if y > 1970 {
      JanFirstMatchesDayCount(y - 1);
      DaysBeforeYearStep(y - 1);
      ModShift(DaysBeforeYear(y - 1) + 1, DaysInYear(y - 1));
    } else {
      JanFirstMatchesDayCount(y + 1);
      DaysBeforeYearStep(y);
      ModShift(DaysBeforeYear(y + 1) + 1, -DaysInYear(y));
    }
  }

  /** `getDay()` agrees with the day count from 0001-01-01 (a Monday) on every date. */
  lemma WeekdayMatchesDayCount(y: int, m: int, d: int)
    requires 1 <= m <= 12
    ensures Weekday(y, m, d) == (DayNumber(y, m, d) + 1) % 7
  {
    JanFirstMatchesDayCount(y);
    ModShift(DaysBeforeYear(y) + 1, DaysBeforeMonth(y, m) + (d - 1));
  }

  /** The weekday of the first of the next month advances by the length of this month,
      across the turn of the year too. */
  lemma WeekdayOfNextMonth(y: int, m: int)
    requires 1 <= m <= 12
    ensures var n := AddMonths(YearMonth(y, m), 1);
      Weekday(n.year, n.month, 1) == (Weekday(y, m, 1) + DaysInMonth(y, m)) % 7
  {
    var n := AddMonths(YearMonth(y, m), 1);
    NextMonth(YearMonth(y, m));
    WeekdayMatchesDayCount(y, m, 1);
    WeekdayMatchesDayCount(n.year, n.month, 1);
    DayNumberOfNextMonth(y, m);
    ModShift(DayNumber(y, m, 1) + 1, DaysInMonth(y, m));
  }

  /** The "YYYY" part of `Date.prototype.toISOString()`: four digits for years 0..9999,
      a sign and six digits otherwise. */
  function IsoYear(y: int): string
  {
    if 0 <= y <= 9999 then PadStart(NatToString(y), 4)
    else if y < 0 then "-" + PadStart(NatToString(-y), 6)
    else "+" + PadStart(NatToString(y), 6)
  }

  /** The date part of `new Date(Date.UTC(y, m - 1, d)).toISOString()`, before the "T". */
  function IsoTimestampDate(y: int, m: int, d: int): (r: string)
    requires 1 <= m <= 12 && 1 <= d <= 31
    ensures |r| >= 10
  {
    IsoYear(y) + "-" + PadStart(NatToString(m), 2) + "-" + PadStart(NatToString(d), 2)
  }

  /** `toISOString().slice(0, 10)` of that instant: the whole date for years 0..9999; for
      a six-digit signed year the slice stops inside the month. */
  function IsoDate(y: int, m: int, d: int): (r: string)
    requires 1 <= m <= 12 && 1 <= d <= 31
    ensures |r| == 10
  {
    IsoTimestampDate(y, m, d)[..10]
  }

  /** The month and day parts of an ISO date are two characters each. */
  lemma IsoPartsLength(m: int, d: int)
    requires 1 <= m <= 12 && 1 <= d <= 31
    ensures |PadStart(NatToString(m), 2)| == 2 && |PadStart(NatToString(d), 2)| == 2
  {
    Pad2Digits(m);
    Pad2Digits(d);
  }

  /** For years 0..9999 the slice keeps the whole date. */
  lemma IsoDateWhole(y: int, m: int, d: int)
    requires 1 <= m <= 12 && 1 <= d <= 31 && 0 <= y <= 9999
    ensures IsoDate(y, m, d) == IsoTimestampDate(y, m, d)
  {
    assert Pow10(4) == 10000;
    NatToStringAtMost(y, 4);
    var yy := IsoYear(y);
    assert |yy| == 4;
    IsoPartsLength(m, d);
    assert |IsoTimestampDate(y, m, d)| == 10;
  }

  /** From year 10000 on, the slice ends at the month: every day of a month gets the same
      date string. */
  lemma ExpandedYearDatesCollide(y: int, m: int, d1: int, d2: int)
    requires 1 <= m <= 12 && 1 <= d1 <= 31 && 1 <= d2 <= 31 && 10000 <= y < 1000000
    ensures IsoDate(y, m, d1) == IsoDate(y, m, d2)
  {
    assert Pow10(6) == 1000000;
    NatToStringAtMost(y, 6);
    var yy := IsoYear(y);
    assert |yy| == 7;
    var mm := PadStart(NatToString(m), 2);
    IsoPartsLength(m, d1);
    var head := yy + "-" + mm;
    assert |head| == 10;
    ExpandedYearPrefix(head, PadStart(NatToString(d1), 2));
    ExpandedYearPrefix(head, PadStart(NatToString(d2), 2));
  }

  lemma ExpandedYearPrefix(head: string, dd: string)
    requires |head| == 10
    ensures (head + "-" + dd)[..10] == head
  {
  }

  /** Different days of a month have different ISO date strings: the last two characters
      read back as the day. */
  lemma IsoDateDay(y: int, m: int, d: int)
    requires 1 <= m <= 12 && 1 <= d <= 31 && 0 <= y <= 9999
    ensures var r := IsoDate(y, m, d); AllDigits(r[8..]) && ParseDigits(r[8..]) == d
  {
    Pad2RoundTrip(d);
    IsoDateWhole(y, m, d);
    var dd := PadStart(NatToString(d), 2);
    var front := IsoYear(y) + "-" + PadStart(NatToString(m), 2) + "-";
    assert IsoTimestampDate(y, m, d) == front + dd;
    LastTwo(front, dd);
  }

  lemma LastTwo(front: string, dd: string)
    requires |front + dd| == 10 && |dd| == 2
    ensures (front + dd)[8..] == dd
  {
  }
}
