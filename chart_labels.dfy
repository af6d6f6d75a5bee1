/**
 * `makeLabels` (apps/service/static/main_c.js, test_html/apps/service/static/main.js): the
 * x-axis labels of the sample trend chart, one per day, per seven days from the start, per
 * calendar month or per year of the chosen range.
 */
module ChartLabels {
  import opened Text
  import opened Calendar
  import opened RangeDates
  import opened TrendBuckets

  // ---------------------------------------------------------------------------------------
  // The labels each grain asks for

  /** One label per number of `xs`, in order. */
  function Along(xs: seq<int>, key: int -> string): (r: seq<string>)
    ensures |r| == |xs| && forall i :: 0 <= i < |xs| ==> r[i] == key(xs[i])
  {
    seq(|xs|, i requires 0 <= i < |xs| => key(xs[i]))
  }

  /** Every seventh day from `s` while not after `e`. */
  function Weeks(s: int, e: int): (r: seq<int>)
    ensures |r| == if s <= e then (e - s) / 7 + 1 else 0
    ensures forall i :: 0 <= i < |r| ==> r[i] == s + 7 * i <= e
  {
    var n := if s <= e then (e - s) / 7 + 1 else 0;
    seq(n, i requires 0 <= i < n => s + 7 * i)
  }

  /** `iso(d)`: the day as `YYYY-MM-DD` (days outside the printable span have no text). */
  function DayText(n: int): string {
    if Printable(n) then DayKey(n) else ""
  }

  /** The month with index `k` (twelve per year, see `MonthIndex`) as `YYYY-MM`. */
  function MonthOfIndex(k: int): string {
    if k >= 0 then MonthText(k / 12, k % 12 + 1) else ""
  }

  /** `String(y)` */
  function YearText(y: int): string {
    if y >= 0 then Decimal(y) else ""
  }

  function DailyLabels(s: int, e: int): seq<string> {
    Along(Days(s, e), DayText)
  }

  function WeeklyLabels(s: int, e: int): seq<string> {
    Along(Weeks(s, e), DayText)
  }

  function MonthlyLabels(a: Date, b: Date): seq<string> {
    Along(Days(MonthIndex(a.year, a.month), MonthIndex(b.year, b.month)), MonthOfIndex)
  }

  function YearlyLabels(y1: int, y2: int): seq<string> {
    Along(Days(y1, y2), YearText)
  }

  /** The two bounds parsed, the earlier first; none when either does not parse. */
  function Bounds(startIso: string, endIso: string): (r: Option<(Date, Date)>)
    ensures r.Some? ==> Supported(r.value.0) && Supported(r.value.1) && NotAfter(r.value.0, r.value.1)
    ensures r.Some? <==> ParseIso(startIso).Some? && ParseIso(endIso).Some?
  {
    match (ParseIso(startIso), ParseIso(endIso))
    case (Some(a), Some(b)) => if Before(b, a) then Some((b, a)) else Some((a, b))
    case _ => None
  }

  /**
   * What `makeLabels` returns: nothing for a missing or unreadable bound or an unknown grain;
   * otherwise the labels of the grain between the (swapped if reversed) bounds.
   */
  function LabelsFor(startIso: string, endIso: string, grain: string): seq<string> {
    match Bounds(startIso, endIso)
    case None => []
    case Some((a, b)) =>
      match ParseGrain(grain)
      case Day => DailyLabels(DayOf(a), DayOf(b))
      case Week => WeeklyLabels(DayOf(a), DayOf(b))
      case Month => MonthlyLabels(a, b)
      case Year => YearlyLabels(a.year, b.year)
      case Range => []
  }

  // ---------------------------------------------------------------------------------------
  // The loops

  /** `makeLabels`: the bounds read and ordered, then the loop of the grain. */
  method MakeLabels(startIso: string, endIso: string, grain: string) returns (labels: seq<string>)
    ensures labels == LabelsFor(startIso, endIso, grain)
  {
    labels := [];
    if startIso == "" || endIso == "" {
      return;
    }
    var ps, pe := ParseIso(startIso), ParseIso(endIso);
    if ps.None? || pe.None? {
      return;
    }
    var s, e := ps.value, pe.value;
    if Before(e, s) {
      s, e := e, s;
    }
    if grain == "day" {
      labels := DayLoop(DayOf(s), DayOf(e), DayText);
    } else if grain == "week" {
      labels := WeekLoop(DayOf(s), DayOf(e), DayText);
    } else if grain == "month" {
      labels := MonthLoop(s, e, MonthOfIndex);
    } else if grain == "year" {
      labels := YearLoop(s.year, e.year, YearText);
    }
  }

  /** `for (d = s; d <= e; d.setDate(d.getDate() + 1)) labels.push(iso(d))` */
  method DayLoop(s: int, e: int, iso: int -> string) returns (labels: seq<string>)
    ensures labels == Along(Days(s, e), iso)
  {
    labels := [];
    var d := s;
    while d <= e
      invariant s <= d && (d <= e + 1 || d == s)
      invariant |labels| == d - s
      invariant forall i :: 0 <= i < |labels| ==> labels[i] == iso(s + i)
    {
      labels := labels + [iso(d)];
      d := d + 1;
    }
  }

  /** `for (d = s; d <= e; d.setDate(d.getDate() + 7)) labels.push(iso(d))` */
  method WeekLoop(s: int, e: int, iso: int -> string) returns (labels: seq<string>)
    ensures labels == Along(Weeks(s, e), iso)
  {
    labels := [];
    if s > e {
      return;
    }
    var d, k := s, 0;
    while d <= e
      invariant d == s + 7 * k && k == |labels|
      invariant d <= e + 7
      invariant forall i :: 0 <= i < k ==> labels[i] == iso(s + 7 * i)
      decreases e - d
    {
      labels := labels + [iso(d)];
      d, k := d + 7, k + 1;
    }
    StepCount(s, e, k);
  }

  /** The number of seven-day steps from `s` that stay within `e`. */
  lemma StepCount(s: int, e: int, k: int)
    requires s <= e && 1 <= k && s + 7 * (k - 1) <= e < s + 7 * k
    ensures k == (e - s) / 7 + 1
  {
    var q, r := (e - s) / 7, (e - s) % 7;
    assert e - s == 7 * q + r && 0 <= r < 7;
  }

  /** A first of month is not after `b` exactly when its month is not after `b`'s. */
  lemma FirstOfMonthNotAfter(y: int, m: int, b: Date)
    requires 1 <= m <= 12 && 1 <= b.month <= 12 && 1 <= b.day
    ensures NotAfter(Date(y, m, 1), b) <==> MonthIndex(y, m) <= MonthIndex(b.year, b.month)
  {
  }

  lemma MonthOfIndexOf(y: nat, m: int)
    requires 1 <= m <= 12
    ensures MonthIndex(y, m) >= 0 && MonthOfIndex(MonthIndex(y, m)) == MonthText(y, m)
  {
    var k := MonthIndex(y, m);
    assert k == 12 * y + (m - 1);
    assert k / 12 == y && k % 12 == m - 1;
  }

  /**
   * `for (d = new Date(s.getFullYear(), s.getMonth(), 1); d <= e; d.setMonth(d.getMonth() + 1))`
   * with the month's `${year}-${pad2(month)}` pushed each time; `text` gives that label from
   * the month's index (`MonthOfIndexOf` shows it is the year and month so printed).
   */
  method MonthLoop(a: Date, b: Date, text: int -> string) returns (labels: seq<string>)
    requires 1 <= a.year && 1 <= a.month <= 12 && 1 <= b.month <= 12 && 1 <= b.day
    ensures labels == Along(Days(MonthIndex(a.year, a.month), MonthIndex(b.year, b.month)), text)
  {
    labels := [];
    var y, m := a.year, a.month;
    FirstOfMonthNotAfter(y, m, b);
    while NotAfter(Date(y, m, 1), b)
      invariant MonthLoopInv(a, b, y, m, labels, text)
      decreases MonthIndex(b.year, b.month) - MonthIndex(y, m)
    {
      MonthStep(a, b, y, m, labels, text);
      labels := labels + [text(MonthIndex(y, m))];
      var next := NextMonth(y, m);
      y, m := next.0, next.1;
    }
    MonthLoopDone(a, b, y, m, labels, text);
  }

  /** What `MonthLoop` knows before each pass: the months from `a`'s up to the one before `(y, m)`. */
  predicate MonthLoopInv(a: Date, b: Date, y: int, m: int, labels: seq<string>, text: int -> string) {
    var first, last, k := MonthIndex(a.year, a.month), MonthIndex(b.year, b.month), MonthIndex(y, m);
    1 <= y && 1 <= m <= 12 && 1 <= b.month <= 12 && 1 <= b.day
    && first <= k && (k <= last + 1 || k == first)
    && labels == Along(Days(first, k - 1), text)
  }

  lemma MonthStep(a: Date, b: Date, y: int, m: int, labels: seq<string>, text: int -> string)
    requires MonthLoopInv(a, b, y, m, labels, text) && NotAfter(Date(y, m, 1), b)
    ensures var next := NextMonth(y, m);
      MonthLoopInv(a, b, next.0, next.1, labels + [text(MonthIndex(y, m))], text)
      && MonthIndex(next.0, next.1) == MonthIndex(y, m) + 1
      && MonthIndex(y, m) <= MonthIndex(b.year, b.month)
  {
    FirstOfMonthNotAfter(y, m, b);
    AlongSnoc(MonthIndex(a.year, a.month), MonthIndex(y, m), text);
  }

  lemma MonthLoopDone(a: Date, b: Date, y: int, m: int, labels: seq<string>, text: int -> string)
    requires MonthLoopInv(a, b, y, m, labels, text) && !NotAfter(Date(y, m, 1), b)
    ensures labels == Along(Days(MonthIndex(a.year, a.month), MonthIndex(b.year, b.month)), text)
  {
    FirstOfMonthNotAfter(y, m, b);
    var first, last := MonthIndex(a.year, a.month), MonthIndex(b.year, b.month);
    if first > last {
      assert Days(first, MonthIndex(y, m) - 1) == [] == Days(first, last);
    }
  }

  /** `d.setMonth(d.getMonth() + 1)` on a first of month: the first of the next month. */
  function NextMonth(y: int, m: int): (r: (int, int))
    requires 1 <= m <= 12
    ensures 1 <= r.1 <= 12 && MonthIndex(r.0, r.1) == MonthIndex(y, m) + 1 && r.0 >= y
  {
    if m == 12 then (y + 1, 1) else (y, m + 1)
  }

  /** One more number, one more label. */
  lemma AlongSnoc(first: int, k: int, key: int -> string)
    requires first <= k
    ensures Along(Days(first, k), key) == Along(Days(first, k - 1), key) + [key(k)]
  {
    DaysSnoc(first, k - 1);
  }

  /** `for (y = s.getFullYear(); y <= e.getFullYear(); y++) labels.push(String(y))` */
  method YearLoop(y1: int, y2: int, text: int -> string) returns (labels: seq<string>)
    ensures labels == Along(Days(y1, y2), text)
  {
    labels := [];
    var y := y1;
    while y <= y2
      invariant y1 <= y && (y <= y2 + 1 || y == y1)
      invariant labels == Along(Days(y1, y - 1), text)
    {
      AlongSnoc(y1, y, text);
      labels := labels + [text(y)];
      y := y + 1;
    }
    assert Days(y1, y - 1) == Days(y1, y2);
  }

  // ---------------------------------------------------------------------------------------
  // What the labels mean

  /** Reversed bounds give the same labels. */
  lemma LabelsForSwap(startIso: string, endIso: string, grain: string)
    ensures LabelsFor(startIso, endIso, grain) == LabelsFor(endIso, startIso, grain)
  {
    assert Bounds(startIso, endIso) == Bounds(endIso, startIso);
  }

  /** With both bounds readable, the days of the trend range are the days between the ordered bounds. */
  lemma FullDatesOfBounds(startIso: string, endIso: string)
    requires Bounds(startIso, endIso).Some?
    ensures var (a, b) := Bounds(startIso, endIso).value;
      FullDates(startIso, endIso) == Days(DayOf(a), DayOf(b))
  {
    var pa, pb := ParseIso(startIso).value, ParseIso(endIso).value;
    DayOfBefore(pb, pa);
  }

  /** Day numbers order supported dates as the calendar does. */
  lemma DayOfBefore(a: Date, b: Date)
    requires Supported(a) && Supported(b)
    ensures Before(a, b) <==> DayOf(a) < DayOf(b)
  {
    OrdinalMonotone(a, b);
  }

  lemma DayTextIsKey(n: int)
    requires InSpan(n)
    ensures DayText(n) == BucketKey(n, Day)
  {
  }

  /** The day keys of consecutive days are the day labels between them. */
  lemma DaysKeys(s: int, e: int)
    requires InSpan(s) && InSpan(e)
    ensures Keys(Days(s, e), Day) == DailyLabels(s, e)
  {
    var days := Days(s, e);
    forall i | 0 <= i < |days| ensures DayText(days[i]) == BucketKey(days[i], Day) {
      DayTextIsKey(days[i]);
    }
  }

  /** Day labels are exactly the day bucket labels of the trend chart. */
  lemma DailyMatchesBuckets(startIso: string, endIso: string)
    ensures LabelsFor(startIso, endIso, "day") == TrendBuckets.Labels(startIso, endIso, Day)
  {
    DayLabels(startIso, endIso);
    match Bounds(startIso, endIso)
    case None =>
      assert FullDates(startIso, endIso) == [];
    case Some((a, b)) =>
      FullDatesOfBounds(startIso, endIso);
      DaysKeys(DayOf(a), DayOf(b));
  }

  /** Every day of the range lies in the seven days that begin at one of the week labels. */
  lemma WeeklyLabelsCover(s: int, e: int, n: int)
    requires s <= n <= e
    ensures var i := (n - s) / 7;
      i < |WeeklyLabels(s, e)| && WeeklyLabels(s, e)[i] == DayText(s + 7 * i) && s + 7 * i <= n < s + 7 * i + 7
  {
    var q, r := (n - s) / 7, (n - s) % 7;
    assert n - s == 7 * q + r;
    var Q, R := (e - s) / 7, (e - s) % 7;
    assert e - s == 7 * Q + R;
  }

  /** Printable days have distinct texts. */
  lemma DayTextInjective(a: int, b: int)
    requires Printable(a) && Printable(b) && a != b
    ensures DayText(a) != DayText(b)
  {
    if DayKey(a) == DayKey(b) {
      DayKeyInjective(a, b);
    }
  }

  /** Week labels are distinct. */
  lemma WeeklyLabelsDistinct(s: int, e: int)
    requires InSpan(s) && InSpan(e)
    ensures var labels := WeeklyLabels(s, e);
      forall i, j :: 0 <= i < j < |labels| ==> labels[i] != labels[j]
  {
    var weeks := Weeks(s, e);
    forall i, j | 0 <= i < j < |weeks| ensures DayText(weeks[i]) != DayText(weeks[j]) {
      DayTextInjective(weeks[i], weeks[j]);
    }
  }

  /** A day's month key is the text of its month index. */
  lemma MonthKeyIndex(n: int)
    requires Printable(n)
    ensures var d := FromOrdinal(n); MonthKey(n) == MonthOfIndex(MonthIndex(d.year, d.month))
  {
    var d := FromOrdinal(n);
    MonthOfIndexOf(d.year, d.month);
  }

  /** Calendar order of a day between two dates bounds its month index. */
  lemma MonthBetween(a: Date, b: Date, n: int)
    requires Valid(a) && Valid(b) && 1 <= n && Ordinal(a) <= n <= Ordinal(b)
    ensures var d := FromOrdinal(n);
      MonthIndex(a.year, a.month) <= MonthIndex(d.year, d.month) <= MonthIndex(b.year, b.month)
      && a.year <= d.year <= b.year
  {
    var d := FromOrdinal(n);
    OrdinalMonotone(d, a);
    OrdinalMonotone(b, d);
  }

  /** The month of every day of the range is among the month labels. */
  lemma MonthOfDayListed(a: Date, b: Date, n: int)
    requires Supported(a) && Supported(b) && Ordinal(a) <= n <= Ordinal(b)
    ensures Printable(n) && MonthKey(n) in MonthlyLabels(a, b)
  {
    SupportedInSpan(a);
    SupportedInSpan(b);
    MonthBetween(a, b, n);
    MonthKeyIndex(n);
    var d := FromOrdinal(n);
    var first, k := MonthIndex(a.year, a.month), MonthIndex(d.year, d.month);
    assert Days(first, MonthIndex(b.year, b.month))[k - first] == k;
  }

  /** The first day of month `k`, or `a` itself when that month is `a`'s. */
  function FirstDayIn(a: Date, k: int): (d: Date)
    requires Supported(a) && MonthIndex(a.year, a.month) <= k
    ensures Valid(d) && d.year >= 1001 && MonthIndex(d.year, d.month) == k && NotAfter(a, d)
  {
    if k == MonthIndex(a.year, a.month) then a else Date(k / 12, k % 12 + 1, 1)
  }

  /** That day lies in the range when its month is not after `b`'s. */
  lemma FirstDayInRange(a: Date, b: Date, k: int)
    requires Supported(a) && Supported(b) && NotAfter(a, b)
    requires MonthIndex(a.year, a.month) <= k <= MonthIndex(b.year, b.month)
    ensures Supported(FirstDayIn(a, k)) && NotAfter(FirstDayIn(a, k), b)
  {
    var d := FirstDayIn(a, k);
    if d != a {
      FirstOfMonthNotAfter(d.year, d.month, b);
    }
  }

  /** A valid date is the day of its own ordinal. */
  lemma FromOrdinalOf(d: Date)
    requires Valid(d)
    ensures Ordinal(d) >= 1 && FromOrdinal(Ordinal(d)) == d
  {
    OrdinalPositive(d);
    OrdinalInjective(FromOrdinal(Ordinal(d)), d);
  }

  /** The month key of a date's own day number is the text of its month. */
  lemma MonthKeyOfDate(d: Date)
    requires Supported(d)
    ensures Printable(Ordinal(d)) && MonthKey(Ordinal(d)) == MonthOfIndex(MonthIndex(d.year, d.month))
  {
    SupportedInSpan(d);
    FromOrdinalOf(d);
    MonthKeyIndex(Ordinal(d));
  }

  /**
   * Every month label is the month of a day of the range (the first of that month, or the
   * start itself); `MonthKeyOfDate` turns the label into that day's month bucket key.
   */
  lemma MonthLabelHasDay(a: Date, b: Date, i: int)
    requires Supported(a) && Supported(b) && NotAfter(a, b) && 0 <= i < |MonthlyLabels(a, b)|
    ensures var d := FirstDayIn(a, MonthIndex(a.year, a.month) + i);
      Supported(d) && NotAfter(a, d) && NotAfter(d, b) && MonthOfIndex(MonthIndex(d.year, d.month)) == MonthlyLabels(a, b)[i]
  {
    var first := MonthIndex(a.year, a.month);
    FirstDayInRange(a, b, first + i);
    assert Days(first, MonthIndex(b.year, b.month))[i] == first + i;
  }

  lemma MonthOfIndexInjective(k1: int, k2: int)
    requires 0 <= k1 < 120000 && 0 <= k2 < 120000 && k1 != k2
    ensures MonthOfIndex(k1) != MonthOfIndex(k2)
  {
    assert k1 == 12 * (k1 / 12) + k1 % 12 && k2 == 12 * (k2 / 12) + k2 % 12;
    MonthTextInjective(k1 / 12, k1 % 12 + 1, k2 / 12, k2 % 12 + 1);
  }

  /** Month labels are distinct. */
  lemma MonthlyLabelsDistinct(a: Date, b: Date)
    requires Supported(a) && Supported(b)
    ensures var labels := MonthlyLabels(a, b);
      forall i, j :: 0 <= i < j < |labels| ==> labels[i] != labels[j]
  {
    var months := Days(MonthIndex(a.year, a.month), MonthIndex(b.year, b.month));
    forall i, j | 0 <= i < j < |months| ensures MonthOfIndex(months[i]) != MonthOfIndex(months[j]) {
      MonthOfIndexInjective(months[i], months[j]);
    }
  }

  /** The year of every day of the range is among the year labels. */
  lemma YearOfDayListed(a: Date, b: Date, n: int)
    requires Supported(a) && Supported(b) && Ordinal(a) <= n <= Ordinal(b)
    ensures n >= 1 && Decimal(FromOrdinal(n).year) in YearlyLabels(a.year, b.year)
  {
    OrdinalPositive(a);
    MonthBetween(a, b, n);
    var y := FromOrdinal(n).year;
    assert Days(a.year, b.year)[y - a.year] == y;
  }

  /** The first day of year `y`, or `a` itself when that year is `a`'s. */
  function FirstDayOfYear(a: Date, y: int): (d: Date)
    requires Supported(a) && a.year <= y
    ensures Valid(d) && d.year == y && NotAfter(a, d)
  {
    if y == a.year then a else Date(y, 1, 1)
  }

  /** Every year label is the year of a day of the range (its first of January, or the start itself). */
  lemma YearLabelHasDay(a: Date, b: Date, i: int)
    requires Supported(a) && Supported(b) && NotAfter(a, b) && 0 <= i < |YearlyLabels(a.year, b.year)|
    ensures var d := FirstDayOfYear(a, a.year + i);
      NotAfter(a, d) && NotAfter(d, b) && Decimal(d.year) == YearlyLabels(a.year, b.year)[i]
  {
    assert Days(a.year, b.year)[i] == a.year + i;
  }

  /** Year labels are distinct. */
  lemma YearlyLabelsDistinct(y1: nat, y2: nat)
    ensures var labels := YearlyLabels(y1, y2);
      forall i, j :: 0 <= i < j < |labels| ==> labels[i] != labels[j]
  {
    var years := Days(y1, y2);
    forall i, j | 0 <= i < j < |years| ensures YearText(years[i]) != YearText(years[j]) {
      assert DigitsValue(Decimal(years[i])) != DigitsValue(Decimal(years[j]));
    }
  }
}
