/**
 * Proleptic Gregorian calendar dates, the arithmetic that Python's `date`/`timedelta` and
 * JavaScript's local-time `Date` perform on them, and the month/year clamping helpers the
 * dashboards share. Days are counted as Python's `date.toordinal()` does (0001-01-01 is day 1).
 */
module Calendar {
  datatype Date = Date(year: int, month: int, day: int)

  predicate IsLeap(y: int) {
    y % 4 == 0 && (y % 100 != 0 || y % 400 == 0)
  }

  function DaysInMonth(y: int, m: int): (n: int)
    requires 1 <= m <= 12
    ensures 28 <= n <= 31
    ensures n == 29 <==> m == 2 && IsLeap(y)
    ensures n == 28 <==> m == 2 && !IsLeap(y)
  {
    if m == 2 then (if IsLeap(y) then 29 else 28)
    else if m == 4 || m == 6 || m == 9 || m == 11 then 30
    else 31
  }

  predicate Valid(d: Date) {
    1 <= d.year && 1 <= d.month <= 12 && 1 <= d.day <= DaysInMonth(d.year, d.month)
  }

  /** Lexicographic order on (year, month, day), the order of the dates themselves. */
  predicate Before(a: Date, b: Date) {
    a.year < b.year || (a.year == b.year && (a.month < b.month || (a.month == b.month && a.day < b.day)))
  }

  predicate NotAfter(a: Date, b: Date) { a == b || Before(a, b) }

  function DaysBeforeYear(y: int): int
    requires 1 <= y
  {
    var p := y - 1;
    365 * p + p / 4 - p / 100 + p / 400
  }

  function DaysBeforeMonth(y: int, m: int): (n: int)
    requires 1 <= m <= 12
    ensures 0 <= n <= 31 * (m - 1)
  {
    if m == 1 then 0 else DaysBeforeMonth(y, m - 1) + DaysInMonth(y, m - 1)
  }

  function DaysInYear(y: int): int { if IsLeap(y) then 366 else 365 }

  /** `date.toordinal()` */
  function Ordinal(d: Date): int
    requires Valid(d)
  {
    DaysBeforeYear(d.year) + DaysBeforeMonth(d.year, d.month) + d.day
  }

  lemma YearLength(y: int)
    requires 1 <= y
    ensures DaysBeforeYear(y + 1) == DaysBeforeYear(y) + DaysInYear(y)
    ensures DaysBeforeMonth(y, 12) + 31 == DaysInYear(y)
  {
    var p := y - 1;
    assert y / 4 == p / 4 + (if y % 4 == 0 then 1 else 0);
    assert y / 100 == p / 100 + (if y % 100 == 0 then 1 else 0);
    assert y / 400 == p / 400 + (if y % 400 == 0 then 1 else 0);
    var feb := DaysInMonth(y, 2);
    assert DaysBeforeMonth(y, 3) == 31 + feb;
    assert DaysBeforeMonth(y, 4) == 31 + feb + 31;
    assert DaysBeforeMonth(y, 5) == 31 + feb + 31 + 30;
    assert DaysBeforeMonth(y, 6) == 31 + feb + 31 + 30 + 31;
    assert DaysBeforeMonth(y, 7) == 31 + feb + 31 + 30 + 31 + 30;
    assert DaysBeforeMonth(y, 8) == 31 + feb + 31 + 30 + 31 + 30 + 31;
    assert DaysBeforeMonth(y, 9) == 31 + feb + 31 + 30 + 31 + 30 + 31 + 31;
    assert DaysBeforeMonth(y, 10) == 31 + feb + 31 + 30 + 31 + 30 + 31 + 31 + 30;
    assert DaysBeforeMonth(y, 11) == 31 + feb + 31 + 30 + 31 + 30 + 31 + 31 + 30 + 31;
    assert DaysBeforeMonth(y, 12) == 31 + feb + 31 + 30 + 31 + 30 + 31 + 31 + 30 + 31 + 30;
  }

  lemma OrdinalPositive(d: Date)
    requires Valid(d)
    ensures Ordinal(d) >= 1
  {
    var p := d.year - 1;
    assert p / 4 - p / 100 >= 0 && p / 400 >= 0;
  }

  /** The following calendar day, as `d + timedelta(days=1)` or `setDate(getDate() + 1)`. */
  function NextDay(d: Date): (r: Date)
    requires Valid(d)
    ensures Valid(r) && Ordinal(r) == Ordinal(d) + 1 && Before(d, r)
  {
    if d.day < DaysInMonth(d.year, d.month) then Date(d.year, d.month, d.day + 1)
    else if d.month < 12 then Date(d.year, d.month + 1, 1)
    else
      YearLength(d.year);
      Date(d.year + 1, 1, 1)
  }

  /** The previous calendar day; 0001-01-01 has none in this model. */
  function PrevDay(d: Date): (r: Date)
    requires Valid(d) && Ordinal(d) > 1
    ensures Valid(r) && Ordinal(r) + 1 == Ordinal(d) && Before(r, d)
  {
    if d.day > 1 then Date(d.year, d.month, d.day - 1)
    else if d.month > 1 then Date(d.year, d.month - 1, DaysInMonth(d.year, d.month - 1))
    else
      YearLength(d.year - 1);
      Date(d.year - 1, 12, 31)
  }

  /** `d + timedelta(days=k)`, one day at a time. */
  function AddDays(d: Date, k: int): (r: Date)
    requires Valid(d) && Ordinal(d) + k >= 1
    ensures Valid(r) && Ordinal(r) == Ordinal(d) + k
    decreases if k >= 0 then k else -k
  {
    if k == 0 then d
    else if k > 0 then AddDays(NextDay(d), k - 1)
    else AddDays(PrevDay(d), k + 1)
  }

  /** Ordinals order dates as the calendar does. */
  lemma {:induction false} OrdinalMonotone(a: Date, b: Date)
    requires Valid(a) && Valid(b)
    ensures Before(a, b) <==> Ordinal(a) < Ordinal(b)
  {
    if a.year < b.year {
      YearsApart(a, b);
    } else if b.year < a.year {
      YearsApart(b, a);
    } else if a.month < b.month {
      MonthsApart(a.year, a.month, b.month);
    } else if b.month < a.month {
      MonthsApart(a.year, b.month, a.month);
    }
  }

  lemma {:induction false} MonthsApart(y: int, m1: int, m2: int)
    requires 1 <= m1 < m2 <= 12
    ensures DaysBeforeMonth(y, m1) + DaysInMonth(y, m1) <= DaysBeforeMonth(y, m2)
    decreases m2 - m1
  {
    if m1 + 1 < m2 {
      MonthsApart(y, m1 + 1, m2);
    }
  }

  lemma {:induction false} YearsApart(a: Date, b: Date)
    requires Valid(a) && Valid(b) && a.year < b.year
    ensures Ordinal(a) < Ordinal(b)
  {
    YearLength(a.year);
    if a.month < 12 {
      MonthsApart(a.year, a.month, 12);
    }
    DaysBeforeYearMonotone(a.year + 1, b.year);
  }

  lemma {:induction false} DaysBeforeYearMonotone(y1: int, y2: int)
    requires 1 <= y1 <= y2
    ensures DaysBeforeYear(y1) <= DaysBeforeYear(y2)
    decreases y2 - y1
  {
    if y1 < y2 {
      YearLength(y1);
      DaysBeforeYearMonotone(y1 + 1, y2);
    }
  }

  /** Distinct valid dates have distinct ordinals. */
  lemma OrdinalInjective(a: Date, b: Date)
    requires Valid(a) && Valid(b) && Ordinal(a) == Ordinal(b)
    ensures a == b
  {
    OrdinalMonotone(a, b);
    OrdinalMonotone(b, a);
  }

  /** JavaScript `getDay()`: 0 is Sunday, 1 Monday, ... 6 Saturday (0001-01-01 was a Monday). */
  function JsWeekday(d: Date): (w: int)
    requires Valid(d)
    ensures 0 <= w < 7
  {
    Ordinal(d) % 7
  }

  /** Month number counted from year 0 (`12 * year + month - 1`). */
  function MonthIndex(y: int, m: int): int { 12 * y + m - 1 }

  /** The last day a clamped result may take: `Math.min(day, daysInMonth(y, m))`. */
  function ClampDay(y: int, m: int, day: int): (r: int)
    requires 1 <= m <= 12 && 1 <= day
    ensures 1 <= r <= DaysInMonth(y, m)
    ensures r == day || (day > DaysInMonth(y, m) && r == DaysInMonth(y, m))
  {
    if day < DaysInMonth(y, m) then day else DaysInMonth(y, m)
  }

  /**
   * `addMonthsClamp`: the same day of the month `delta` months away (JavaScript normalises
   * the month overflow of `new Date(y, m + delta, 1)`), lowered to that month's last day.
   */
  function AddMonthsClamp(d: Date, delta: int): (r: Date)
    requires Valid(d) && MonthIndex(d.year, d.month) + delta >= 12
    ensures Valid(r)
    ensures MonthIndex(r.year, r.month) == MonthIndex(d.year, d.month) + delta
    ensures r.day == d.day || (d.day > DaysInMonth(r.year, r.month) && r.day == DaysInMonth(r.year, r.month))
  {
    var t := d.month - 1 + delta;
    var ty := d.year + t / 12;
    var tm := t % 12 + 1;
    Date(ty, tm, ClampDay(ty, tm, d.day))
  }

  /** `addYearsClamp`: the same month and day `delta` years away; 29 February may become the 28th. */
  function AddYearsClamp(d: Date, delta: int): (r: Date)
    requires Valid(d) && d.year + delta >= 1
    ensures Valid(r) && r.year == d.year + delta && r.month == d.month
    ensures r.day == d.day || (d.month == 2 && d.day == 29 && !IsLeap(r.year) && r.day == 28)
  {
    var y := d.year + delta;
    Date(y, d.month, ClampDay(y, d.month, d.day))
  }

  /** Going back a month from 31 March lands on the last day of February. */
  lemma MarchEndBackOneMonth(y: int)
    requires 1 <= y
    ensures AddMonthsClamp(Date(y, 3, 31), -1) == Date(y, 2, if IsLeap(y) then 29 else 28)
  {
  }

  /** A whole number of years is a multiple of twelve months: both helpers agree then. */
  lemma YearsAreTwelveMonths(d: Date, delta: int)
    requires Valid(d) && d.year + delta >= 1
    ensures AddYearsClamp(d, delta) == AddMonthsClamp(d, 12 * delta)
  {
    var t := d.month - 1 + 12 * delta;
    assert t / 12 == delta && t % 12 == d.month - 1;
  }

  // ---------------------------------------------------------------------------------------
  // ISO text and YYYYMMDD numbers

  function DigitChar(n: int): (c: char)
    requires 0 <= n < 10
    ensures '0' <= c <= '9'
  {
    ('0' as int + n) as char
  }

  function DigitValue(c: char): int { c as int - '0' as int }

  predicate AllDigits(s: string) {
    forall i :: 0 <= i < |s| ==> '0' <= s[i] <= '9'
  }

  /** The number a string of decimal digits denotes. */
  function DigitsValue(s: string): (n: nat)
    requires AllDigits(s)
  {
    if s == [] then 0 else 10 * DigitsValue(s[..|s| - 1]) + DigitValue(s[|s| - 1])
  }

  /** `String(n)`: `n` in decimal, without leading zeros. */
  function Decimal(n: nat): (s: string)
    ensures 1 <= |s| && AllDigits(s) && DigitsValue(s) == n
    ensures |s| > 1 ==> s[0] != '0'
  {
    if n < 10 then [DigitChar(n)]
    else
      var s := Decimal(n / 10) + [DigitChar(n % 10)];
      assert s[..|s| - 1] == Decimal(n / 10);
      s
  }

  /** `n` in exactly `width` decimal digits, zero-padded. */
  function Pad(n: nat, width: nat): (s: string)
    ensures |s| == width && AllDigits(s)
  {
    if width == 0 then [] else Pad(n / 10, width - 1) + [DigitChar(n % 10)]
  }

  function Pow10(k: nat): nat { if k == 0 then 1 else 10 * Pow10(k - 1) }

  /** Padding a number that fits in the width and reading it back gives the number. */
  lemma {:induction false} PadValue(n: nat, width: nat)
    requires n < Pow10(width)
    ensures DigitsValue(Pad(n, width)) == n
  {
    if width > 0 {
      PadValue(n / 10, width - 1);
      var s := Pad(n, width);
      assert s[..|s| - 1] == Pad(n / 10, width - 1);
    }
  }

  /** `date.isoformat()`: `YYYY-MM-DD`. */
  function IsoDate(d: Date): (s: string)
    requires Valid(d) && d.year < 10000
    ensures |s| == 10 && s[4] == '-' && s[7] == '-'
  {
    Pad(d.year, 4) + "-" + Pad(d.month, 2) + "-" + Pad(d.day, 2)
  }

  /** Text of the `YYYY-MM-DD` shape. */
  predicate IsIsoShape(s: string) {
    |s| == 10 && s[4] == '-' && s[7] == '-' && AllDigits(s[..4]) && AllDigits(s[5..7]) && AllDigits(s[8..])
  }

  function ParseIsoDate(s: string): Date
    requires IsIsoShape(s)
  {
    Date(DigitsValue(s[..4]), DigitsValue(s[5..7]), DigitsValue(s[8..]))
  }

  /** Formatting a date and parsing the text back gives the date. */
  lemma IsoDateRoundTrip(d: Date)
    requires Valid(d) && d.year < 10000
    ensures IsIsoShape(IsoDate(d)) && ParseIsoDate(IsoDate(d)) == d
  {
    var s := IsoDate(d);
    assert s[..4] == Pad(d.year, 4) && s[5..7] == Pad(d.month, 2) && s[8..] == Pad(d.day, 2);
    PadValue(d.year, 4);
    PadValue(d.month, 2);
    PadValue(d.day, 2);
  }

  /** The `YYYYMMDD` number of a date. */
  function Ymd(d: Date): int { d.year * 10000 + d.month * 100 + d.day }

  /** `YYYYMMDD` numbers order valid dates as the calendar does. */
  lemma YmdOrder(a: Date, b: Date)
    requires Valid(a) && Valid(b)
    ensures Before(a, b) <==> Ymd(a) < Ymd(b)
    ensures a == b <==> Ymd(a) == Ymd(b)
  {
  }
}
