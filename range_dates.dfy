/**
 * The dashboard's shared date range (apps/service/static/main.js, main_b.js and main_c.js):
 * the period tabs, the start date a tab presets, the end date held at yesterday at the latest,
 * the previous period of the same length, and the `app:rangechange` record the other panels
 * read. Dates are calendar days; `new Date(iso + "T00:00:00")` is `ParseIso` and `toISO` is
 * `Calendar.IsoDate`.
 */
module RangeDates {
  import opened Text
  import opened Calendar
  import Sorting

  /** The `data-grain` of the active period tab; `Range` stands for "range" and any other value. */
  datatype Grain = Day | Week | Month | Year | Range

  function GrainName(g: Grain): string {
    match g
    case Day => "day"
    case Week => "week"
    case Month => "month"
    case Year => "year"
    case Range => "range"
  }

  /** The grain the string-compares in the source pick out. */
  function ParseGrain(s: string): (g: Grain)
    ensures g != Range ==> GrainName(g) == s
    ensures g == Range <==> s !in {"day", "week", "month", "year"}
  {
    if s == "day" then Day
    else if s == "week" then Week
    else if s == "month" then Month
    else if s == "year" then Year
    else Range
  }

  /** Every grain survives being written out and read back. */
  lemma ParseGrainName(g: Grain)
    ensures ParseGrain(GrainName(g)) == g
  {
  }

  /**
   * `querySelector(".seg-btn.is-active")?.dataset.grain || fallback`: the active tab's
   * `data-grain`, or the fallback when no tab is active or its `data-grain` is empty.
   */
  function ActiveGrainText(active: Option<string>, fallback: string): string {
    if active.None? || active.value == "" then fallback else active.value
  }

  /** `getActiveMode` (main.js, main_c.js): the free range when no tab is active. */
  function ActiveMode(active: Option<string>): (g: Grain)
    ensures g == Range <==> active.None? || active.value !in {"day", "week", "month", "year"}
    ensures g != Range ==> active == Some(GrainName(g))
  {
    ParseGrain(ActiveGrainText(active, "range"))
  }

  /** `getActiveGrain` (main.js, main_b.js) and `getActiveGrainForChart`: "day" when no tab is active. */
  function ActiveGrain(active: Option<string>): (g: Grain)
    ensures active.None? ==> g == Day
  {
    ParseGrain(ActiveGrainText(active, "day"))
  }

  /**
   * The two readings differ only where no tab is active or its `data-grain` is empty: the mode
   * is then the free range and the grain is "day"; for any other tab they are the same grain.
   */
  lemma {:induction false} ActiveReadingsAgree(active: Option<string>)
    ensures ActiveMode(active) != ActiveGrain(active) <==> active.None? || active == Some("")
    ensures ActiveMode(active) != ActiveGrain(active) ==> ActiveMode(active) == Range && ActiveGrain(active) == Day
  {
    if active.Some? && active.value != "" {
      assert ActiveGrainText(active, "range") == ActiveGrainText(active, "day");
    } else {
      assert ActiveGrainText(active, "range") == "range" && ActiveGrainText(active, "day") == "day";
    }
  }

  /**
   * The dates this model follows: valid days from 1001-01-01 to 9999-12-31. A preset or a
   * week's Monday, which step back at most a year, then still has a four-digit year, for which
   * the source's `${d.getFullYear()}-${pad2(..)}-${pad2(..)}` is `IsoDate`.
   */
  predicate Supported(d: Date) {
    Valid(d) && 1001 <= d.year < 10000
  }

  // ---------------------------------------------------------------------------------------
  // ISO text

  /** `parseISO`: an ISO date text of a supported day, else null. */
  function ParseIso(s: string): (r: Option<Date>)
    ensures r.Some? ==> Supported(r.value) && IsoDate(r.value) == s
  {
    if IsIsoShape(s) && Supported(ParseIsoDate(s)) then
      IsoOfParse(s);
      Some(ParseIsoDate(s))
    else None
  }

  /** Formatting then parsing gives the day back. */
  lemma ParseIsoOfIso(d: Date)
    requires Supported(d)
    ensures ParseIso(IsoDate(d)) == Some(d)
  {
    IsoDateRoundTrip(d);
  }

  /** Zero-padding the value of a digit string to its length gives the string back. */
  lemma {:induction false} PadOfDigits(t: string)
    requires AllDigits(t)
    ensures Pad(DigitsValue(t), |t|) == t
    decreases |t|
  {
    if t != [] {
      var init := t[..|t| - 1];
      assert AllDigits(init);
      PadOfDigits(init);
      var v := DigitsValue(t);
      assert v / 10 == DigitsValue(init) && v % 10 == DigitValue(t[|t| - 1]);
      assert t == init + [t[|t| - 1]];
    }
  }

  lemma IsoOfParse(s: string)
    requires IsIsoShape(s) && Valid(ParseIsoDate(s)) && ParseIsoDate(s).year < 10000
    ensures IsoDate(ParseIsoDate(s)) == s
  {
    PadOfDigits(s[..4]);
    PadOfDigits(s[5..7]);
    PadOfDigits(s[8..]);
    assert s == s[..4] + "-" + s[5..7] + "-" + s[8..];
  }

  /** Comparing two texts that share a length-aligned split compares the heads first. */
  lemma {:induction false} StrLessAppend(p: string, q: string, x: string, y: string)
    requires |p| == |q|
    ensures Sorting.StrLess(p + x, q + y) <==> Sorting.StrLess(p, q) || (p == q && Sorting.StrLess(x, y))
    decreases |p|
  {
    if p != [] {
      assert (p + x)[1..] == p[1..] + x && (q + y)[1..] == q[1..] + y;
      StrLessAppend(p[1..], q[1..], x, y);
      if p[0] == q[0] && p[1..] == q[1..] {
        assert p == [p[0]] + p[1..] && q == [q[0]] + q[1..];
      }
    } else {
      assert p + x == x && q + y == y;
    }
  }

  /** Zero-padded numbers of one width compare as text as they compare as numbers. */
  lemma {:induction false} PadLess(n: nat, k: nat, w: nat)
    requires n < Pow10(w) && k < Pow10(w)
    ensures Sorting.StrLess(Pad(n, w), Pad(k, w)) <==> n < k
    ensures Pad(n, w) == Pad(k, w) <==> n == k
    decreases w
  {
    if w > 0 {
      PadLess(n / 10, k / 10, w - 1);
      StrLessAppend(Pad(n / 10, w - 1), Pad(k / 10, w - 1), [DigitChar(n % 10)], [DigitChar(k % 10)]);
      assert Sorting.StrLess([DigitChar(n % 10)], [DigitChar(k % 10)]) <==> n % 10 < k % 10 by {
        assert [DigitChar(n % 10)][1..] == [] && [DigitChar(k % 10)][1..] == [];
      }
      assert Pad(n, w) == Pad(n / 10, w - 1) + [DigitChar(n % 10)];
      assert Pad(k, w) == Pad(k / 10, w - 1) + [DigitChar(k % 10)];
      if Pad(n, w) == Pad(k, w) {
        assert Pad(n, w)[w - 1] == DigitChar(n % 10) && Pad(k, w)[w - 1] == DigitChar(k % 10);
        assert Pad(n, w)[..w - 1] == Pad(n / 10, w - 1) && Pad(k, w)[..w - 1] == Pad(k / 10, w - 1);
      }
    }
  }

  /** Comparing ISO texts, as `inputISO > yesterdayISO` does, is comparing the days. */
  lemma IsoLess(a: Date, b: Date)
    requires Valid(a) && Valid(b) && a.year < 10000 && b.year < 10000
    ensures Sorting.StrLess(IsoDate(a), IsoDate(b)) <==> Before(a, b)
  {
    assert Pow10(4) == 10000 && Pow10(2) == 100;
    PadLess(a.year, b.year, 4);
    PadLess(a.month, b.month, 2);
    PadLess(a.day, b.day, 2);
    DashedLess(Pad(a.year, 4), Pad(a.month, 2), Pad(a.day, 2), Pad(b.year, 4), Pad(b.month, 2), Pad(b.day, 2));
  }

  /** Dash-joined fields of equal widths compare field by field. */
  lemma DashedLess(ya: string, ma: string, da: string, yb: string, mb: string, db: string)
    requires |ya| == |yb| && |ma| == |mb|
    ensures Sorting.StrLess(ya + "-" + ma + "-" + da, yb + "-" + mb + "-" + db) <==>
      Sorting.StrLess(ya, yb) || (ya == yb && (Sorting.StrLess(ma, mb) || (ma == mb && Sorting.StrLess(da, db))))
  {
    assert ya + "-" + ma + "-" + da == ya + ("-" + (ma + ("-" + da)));
    assert yb + "-" + mb + "-" + db == yb + ("-" + (mb + ("-" + db)));
    StrLessAppend(ya, yb, "-" + (ma + ("-" + da)), "-" + (mb + ("-" + db)));
    StrLessAppend("-", "-", ma + ("-" + da), mb + ("-" + db));
    StrLessAppend(ma, mb, "-" + da, "-" + db);
    StrLessAppend("-", "-", da, db);
    Sorting.StrLessIrreflexive("-");
  }

  // ---------------------------------------------------------------------------------------
  // The range helpers

  /** `clampEndToYesterdayISO`: an empty input, or one later than yesterday as text, becomes yesterday. */
  function ClampEndToYesterday(input: string, yesterdayIso: string): (r: string)
    ensures r == yesterdayIso || r == input
  {
    if input == "" || Sorting.StrLess(yesterdayIso, input) then yesterdayIso else input
  }

  /** The end day `emitRangeChange` settles on: the clamped input parsed, or yesterday. */
  function EndOf(endValue: string, yesterday: Date): (r: Date)
    requires Supported(yesterday)
    ensures Supported(r) && NotAfter(r, yesterday)
  {
    var endIso := ClampEndToYesterday(endValue, IsoDate(yesterday));
    match ParseIso(endIso)
    case Some(d) =>
      IsoLess(yesterday, d);
      IsoLess(d, yesterday);
      d
    case None => yesterday
  }

  /** A typed end day is kept unless it is later than yesterday; an empty one is yesterday. */
  lemma EndOfInput(d: Date, yesterday: Date)
    requires Supported(d) && Supported(yesterday)
    ensures EndOf(IsoDate(d), yesterday) == (if Before(yesterday, d) then yesterday else d)
    ensures EndOf("", yesterday) == yesterday
  {
    IsoLess(yesterday, d);
    ParseIsoOfIso(d);
    ParseIsoOfIso(yesterday);
  }

  /**
   * `calcStartByGrain`: day keeps the end, week goes six days back (seven days with the end),
   * month and year go one month or one year back with the day clamped, anything else keeps it.
   */
  function CalcStartByGrain(g: Grain, end: Date): (r: Date)
    requires Supported(end)
    ensures Valid(r) && 1000 <= r.year <= end.year
    ensures g == Day || g == Range ==> r == end
    ensures g == Week ==> Ordinal(r) + 6 == Ordinal(end)
    ensures g == Month ==> MonthIndex(r.year, r.month) + 1 == MonthIndex(end.year, end.month)
    ensures g == Month ==> r.day == end.day || (end.day > DaysInMonth(r.year, r.month) && r.day == DaysInMonth(r.year, r.month))
    ensures g == Year ==> r == AddYearsClamp(end, -1)
  {
    match g
    case Day => end
    case Week => SixDaysBefore(end)
    case Month => AddMonthsClamp(end, -1)
    case Year => AddYearsClamp(end, -1)
    case Range => end
  }

  /** The first day of the seven that end on `end`. */
  function SixDaysBefore(end: Date): (r: Date)
    requires Supported(end)
    ensures Valid(r) && Ordinal(r) + 6 == Ordinal(end) && end.year - 1 <= r.year <= end.year
  {
    PastFirstYear(end);
    var r := AddDays(end, -6);
    NotAfterOrdinal(r, end);
    assert r.year + 2 > end.year by {
      if r.year + 2 <= end.year {
        FarApart(r, end);
      }
    }
    r
  }

  /** A supported day lies after the whole of year 1. */
  lemma PastFirstYear(d: Date)
    requires Supported(d)
    ensures Ordinal(d) > 365
  {
    DaysBeforeYearMonotone(2, d.year);
    assert DaysBeforeYear(2) == 365;
    assert Ordinal(d) > DaysBeforeYear(d.year);
  }

  /** Not after, in ordinals. */
  lemma NotAfterOrdinal(a: Date, b: Date)
    requires Valid(a) && Valid(b)
    ensures NotAfter(a, b) <==> Ordinal(a) <= Ordinal(b)
    ensures Before(a, b) <==> Ordinal(a) < Ordinal(b)
  {
    OrdinalMonotone(a, b);
    OrdinalMonotone(b, a);
    if Ordinal(a) == Ordinal(b) {
      OrdinalInjective(a, b);
    }
  }

  /** Dates two calendar years apart are more than a year of days apart. */
  lemma FarApart(r: Date, d: Date)
    requires Valid(r) && Valid(d) && r.year + 2 <= d.year
    ensures Ordinal(d) - Ordinal(r) > 365
  {
    var m := Date(d.year - 1, 1, 1);
    NotAfterOrdinal(r, m);
    YearLength(d.year - 1);
  }

  /** A preset start never lies after the end it was computed from. */
  lemma CalcStartNotAfterEnd(g: Grain, end: Date)
    requires Supported(end)
    ensures Ordinal(CalcStartByGrain(g, end)) <= Ordinal(end)
  {
    var r := CalcStartByGrain(g, end);
    if g == Month || g == Year {
      assert Before(r, end);
      OrdinalMonotone(r, end);
    }
  }

  /** The period just before [start, end], as calcPrevSameLength returns it. */
  datatype PrevRange = PrevRange(prevStart: Date, prevEnd: Date)

  /**
   * `calcPrevSameLength`: the previous period ends the day before `start` and spans as many
   * days as [start, end]. None where it would begin before 0001-01-01.
   */
  function CalcPrevSameLength(start: Date, end: Date): (r: Option<PrevRange>)
    requires Valid(start) && Valid(end)
    ensures r.Some? <==> 2 * Ordinal(start) - Ordinal(end) >= 2
    ensures r.Some? ==> Valid(r.value.prevStart) && Valid(r.value.prevEnd)
    ensures r.Some? ==> Ordinal(r.value.prevEnd) + 1 == Ordinal(start)
    ensures r.Some? ==> Ordinal(r.value.prevEnd) - Ordinal(r.value.prevStart) == Ordinal(end) - Ordinal(start)
  {
    var diffDays := Ordinal(end) - Ordinal(start);
    if Ordinal(start) - 1 - diffDays >= 1 then
      OrdinalPositive(end);
      Some(PrevPeriod(start, diffDays))
    else None
  }

  /** The period that ends the day before `start` and whose last day is `len` days after its first. */
  function PrevPeriod(start: Date, len: int): (p: PrevRange)
    requires Valid(start) && Ordinal(start) > 1 && Ordinal(start) - 1 - len >= 1
    ensures Valid(p.prevStart) && Valid(p.prevEnd)
    ensures Ordinal(p.prevEnd) + 1 == Ordinal(start) && Ordinal(p.prevEnd) - Ordinal(p.prevStart) == len
  {
    var prevEnd := PrevDay(start);
    PrevRange(AddDays(prevEnd, -len), prevEnd)
  }

  /** For an ordered range the previous period is ordered too and ends before it starts. */
  lemma PrevRangeBefore(start: Date, end: Date)
    requires Valid(start) && Valid(end) && Ordinal(start) <= Ordinal(end)
    requires CalcPrevSameLength(start, end).Some?
    ensures var p := CalcPrevSameLength(start, end).value;
      NotAfter(p.prevStart, p.prevEnd) && Before(p.prevEnd, start)
  {
    var p := CalcPrevSameLength(start, end).value;
    NotAfterOrdinal(p.prevEnd, start);
    NotAfterOrdinal(p.prevStart, p.prevEnd);
  }

  /** What `app:rangechange` carries: the grain, the range, and the previous period. */
  datatype AppRange = AppRange(grain: Grain, start: Date, end: Date, prev: Option<PrevRange>)

  /** The start before it is lowered: the preset, else the typed start, else the end. */
  function RawStart(usePreset: bool, g: Grain, startValue: string, end: Date): (r: Date)
    requires Supported(end)
    ensures Valid(r) && r.year < 10000
  {
    if usePreset then CalcStartByGrain(g, end)
    else match ParseIso(startValue)
      case Some(d) => d
      case None => end
  }

  /** `start > end` lowers the start to the end. */
  function StartOf(usePreset: bool, g: Grain, startValue: string, end: Date): (r: Date)
    requires Supported(end)
    ensures Valid(r) && r.year < 10000 && Ordinal(r) <= Ordinal(end)
  {
    var s := RawStart(usePreset, g, startValue, end);
    if Ordinal(s) > Ordinal(end) then end else s
  }

  /**
   * What the start input shows afterwards: the start when a preset wrote it or the lowering
   * did, else what was typed.
   */
  function StartText(usePreset: bool, g: Grain, startValue: string, end: Date): (r: string)
    requires Supported(end)
    ensures usePreset ==> r == IsoDate(StartOf(usePreset, g, startValue, end))
    ensures !usePreset && ParseIso(startValue).Some? ==> r == IsoDate(StartOf(usePreset, g, startValue, end))
  {
    var start := StartOf(usePreset, g, startValue, end);
    if usePreset || start != RawStart(usePreset, g, startValue, end) then IsoDate(start) else startValue
  }

  /** The record `emitRangeChange` publishes. */
  function PublishedRange(usePreset: bool, g: Grain, startValue: string, endValue: string, yesterday: Date): (r: AppRange)
    requires Supported(yesterday)
    ensures Valid(r.start) && r.start.year < 10000 && Supported(r.end)
  {
    var end := EndOf(endValue, yesterday);
    var start := StartOf(usePreset, g, startValue, end);
    AppRange(g, start, end, CalcPrevSameLength(start, end))
  }

  /**
   * The published range is ordered and ends no later than yesterday; a preset start is the
   * tab's start; a typed start is kept when it does not lie after the end, lowered to the end
   * otherwise; a start that does not parse becomes the end.
   */
  lemma PublishedRangeProperties(usePreset: bool, g: Grain, startValue: string, endValue: string, yesterday: Date)
    requires Supported(yesterday)
    ensures var r := PublishedRange(usePreset, g, startValue, endValue, yesterday);
      NotAfter(r.start, r.end) && NotAfter(r.end, yesterday)
    ensures var r := PublishedRange(usePreset, g, startValue, endValue, yesterday);
      usePreset ==> r.start == CalcStartByGrain(g, r.end)
    ensures var r := PublishedRange(usePreset, g, startValue, endValue, yesterday);
      !usePreset && ParseIso(startValue).Some? ==>
        r.start == (if Before(r.end, ParseIso(startValue).value) then r.end else ParseIso(startValue).value)
    ensures var r := PublishedRange(usePreset, g, startValue, endValue, yesterday);
      !usePreset && ParseIso(startValue).None? ==> r.start == r.end
  {
    var r := PublishedRange(usePreset, g, startValue, endValue, yesterday);
    var s := RawStart(usePreset, g, startValue, r.end);
    NotAfterOrdinal(r.end, s);
    NotAfterOrdinal(r.start, r.end);
    if usePreset {
      CalcStartNotAfterEnd(g, r.end);
    }
  }

  /** The previous period of a published range, when there is one, ends the day before it. */
  lemma PublishedPrevBefore(usePreset: bool, g: Grain, startValue: string, endValue: string, yesterday: Date)
    requires Supported(yesterday)
    requires PublishedRange(usePreset, g, startValue, endValue, yesterday).prev.Some?
    ensures var r := PublishedRange(usePreset, g, startValue, endValue, yesterday);
      NotAfter(r.prev.value.prevStart, r.prev.value.prevEnd) && Before(r.prev.value.prevEnd, r.start)
  {
    var r := PublishedRange(usePreset, g, startValue, endValue, yesterday);
    PrevRangeBefore(r.start, r.end);
  }

  /**
   * The two date inputs and the published range. `rangeLocked` is main_b.js's
   * `userRangeLocked`; `mode` is main_c.js's `getActiveMode()` at the last emit.
   */
  class RangeControl {
    var startValue: string
    var endValue: string
    var startMax: string
    var endMin: string
    var endMax: string
    var appRange: Option<AppRange>
    var mode: Grain
    var rangeLocked: bool

    /** Before the first emit: nothing published and the range not locked. */
    constructor(startValue: string, endValue: string)
      ensures this.startValue == startValue && this.endValue == endValue
      ensures appRange == None && !rangeLocked
      ensures startMax == "" && endMin == "" && endMax == "" && mode == Range
    {
      this.startValue := startValue;
      this.endValue := endValue;
      startMax, endMin, endMax := "", "", "";
      appRange := None;
      mode := Range;
      rangeLocked := false;
    }

    /** The end input and its bounds, as an emit writes them. */
    method ShowEnd(typedEnd: string, yesterday: Date, start: Date, end: Date)
      requires Supported(yesterday) && Supported(end) && Valid(start) && start.year < 10000
      modifies this
      ensures endValue == ClampEndToYesterday(typedEnd, IsoDate(yesterday)) && endMax == IsoDate(yesterday)
      ensures endMin == IsoDate(start) && startMax == IsoDate(end)
      ensures startValue == old(startValue) && appRange == old(appRange)
      ensures mode == old(mode) && rangeLocked == old(rangeLocked)
    {
      var yesterdayIso := IsoDate(yesterday);
      endMax := yesterdayIso;
      endValue := ClampEndToYesterday(typedEnd, yesterdayIso);
      endMin := IsoDate(start);
      startMax := IsoDate(end);
    }

    /** The inputs and the record after an emit with the given start rule. */
    method Publish(usePreset: bool, g: Grain, yesterday: Date)
      requires Supported(yesterday)
      modifies this
      ensures appRange == Some(PublishedRange(usePreset, g, old(startValue), old(endValue), yesterday))
      ensures endValue == ClampEndToYesterday(old(endValue), IsoDate(yesterday)) && endMax == IsoDate(yesterday)
      ensures startValue == StartText(usePreset, g, old(startValue), appRange.value.end)
      ensures startMax == IsoDate(appRange.value.end) && endMin == IsoDate(appRange.value.start)
      ensures mode == old(mode) && rangeLocked == old(rangeLocked)
    {
      var typedStart, typedEnd := startValue, endValue;
      var r := PublishedRange(usePreset, g, typedStart, typedEnd, yesterday);
      ShowEnd(typedEnd, yesterday, r.start, r.end);
      ShowStart(StartText(usePreset, g, typedStart, r.end), r);
    }

    /** The start input and the published record. */
    method ShowStart(text: string, r: AppRange)
      modifies this
      ensures startValue == text && appRange == Some(r)
      ensures endValue == old(endValue) && endMax == old(endMax) && endMin == old(endMin) && startMax == old(startMax)
      ensures mode == old(mode) && rangeLocked == old(rangeLocked)
    {
      startValue := text;
      appRange := Some(r);
    }

    /** main.js / main_b.js `emitRangeChange({ preset })`. */
    method EmitRangeChange(preset: bool, g: Grain, yesterday: Date)
      requires Supported(yesterday)
      modifies this
      ensures appRange == Some(PublishedRange(preset, g, old(startValue), old(endValue), yesterday))
      ensures endValue == ClampEndToYesterday(old(endValue), IsoDate(yesterday))
      ensures startMax == IsoDate(appRange.value.end)
      ensures endMin == IsoDate(appRange.value.start)
      ensures preset ==> startValue == IsoDate(appRange.value.start)
      ensures rangeLocked == old(rangeLocked)
    {
      Publish(preset, g, yesterday);
    }

    /** main_c.js `emitRangeChange`: the tab's preset applies only when a tab is active. */
    method EmitRangeChangeByMode(preset: bool, activeMode: Grain, yesterday: Date)
      requires Supported(yesterday)
      modifies this
      ensures appRange == Some(PublishedRange(preset && activeMode != Range, activeMode, old(startValue), old(endValue), yesterday))
      ensures mode == activeMode
      ensures endValue == ClampEndToYesterday(old(endValue), IsoDate(yesterday))
      ensures endMin == IsoDate(appRange.value.start)
      ensures rangeLocked == old(rangeLocked)
    {
      mode := activeMode;
      Publish(preset && activeMode != Range, activeMode, yesterday);
    }

    /** main_c.js `getActiveGrainForChart`: the active tab, or "day" when none is. */
    function ChartGrain(): (g: Grain)
      reads this
      ensures g != Range
      ensures mode != Range ==> g == mode
    {
      if mode == Range then Day else mode
    }

    /** main_b.js: typing into either date input locks the range, then emits without a preset. */
    method DateTyped(g: Grain, yesterday: Date)
      requires Supported(yesterday)
      modifies this
      ensures rangeLocked
      ensures appRange == Some(PublishedRange(false, g, old(startValue), old(endValue), yesterday))
    {
      rangeLocked := true;
      Publish(false, g, yesterday);
    }

    /** main_b.js tab click: the preset applies only while the user has not locked the range. */
    method TabClicked(g: Grain, yesterday: Date)
      requires Supported(yesterday)
      modifies this
      ensures rangeLocked == old(rangeLocked)
      ensures appRange == Some(PublishedRange(!old(rangeLocked), g, old(startValue), old(endValue), yesterday))
      ensures !old(rangeLocked) ==> startValue == IsoDate(appRange.value.start)
    {
      Publish(!rangeLocked, g, yesterday);
    }
  }
}
