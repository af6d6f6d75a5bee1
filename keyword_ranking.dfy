/**
 * The keyword-ranking service: the base and comparison windows of each ranking mode, the
 * change rate, rank change and badge of each ranked keyword, and the ranked item list. The
 * two Top-N lists come from the search index and are parameters here.
 */
module KeywordRanking {
  import opened Calendar

  // ---------------------------------------------------------------------------------------
  // Windows

  datatype Window = Window(start: Date, end: Date)

  /** `_month_start_end`: the first and the last day of the month of `d`. */
  function MonthStartEnd(d: Date): (w: Window)
    requires Valid(d)
    ensures Valid(w.start) && Valid(w.end)
    ensures w.start == Date(d.year, d.month, 1) && w.end.year == d.year && w.end.month == d.month
    ensures NextDay(w.end).day == 1 && NextDay(w.end).month != d.month
  {
    Window(Date(d.year, d.month, 1), Date(d.year, d.month, DaysInMonth(d.year, d.month)))
  }

  /** `_prev_month_anchor`: the first day of the previous month; January goes to December of the year before. */
  function PrevMonthAnchor(d: Date): (r: Date)
    requires Valid(d) && MonthIndex(d.year, d.month) > 12
    ensures Valid(r) && r.day == 1
    ensures MonthIndex(r.year, r.month) + 1 == MonthIndex(d.year, d.month)
  {
    if d.month == 1 then Date(d.year - 1, 12, 1) else Date(d.year, d.month - 1, 1)
  }

  /** `_year_start_end`: 1 January to 31 December of the year of `d`. */
  function YearStartEnd(d: Date): (w: Window)
    requires Valid(d)
    ensures Valid(w.start) && Valid(w.end) && w.start == Date(d.year, 1, 1) && w.end == Date(d.year, 12, 31)
  {
    Window(Date(d.year, 1, 1), Date(d.year, 12, 31))
  }

  /** The inclusive number of days from `start` to `end` (`(end - start).days + 1`). */
  function Span(start: Date, end: Date): int
    requires Valid(start) && Valid(end)
  {
    Ordinal(end) - Ordinal(start) + 1
  }

  /** `_prev_same_length_range`: the window of the same length that ends the day before `start`. */
  function PrevSameLengthRange(start: Date, end: Date): (w: Window)
    requires Valid(start) && Valid(end) && Ordinal(start) - Span(start, end) >= 1
    ensures Valid(w.start) && Valid(w.end)
    ensures NextDay(w.end) == start
    ensures Span(w.start, w.end) == Span(start, end)
  {
    var prevEnd := AddDays(start, -1);
    var prevStart := AddDays(prevEnd, -(Span(start, end) - 1));
    OrdinalInjective(NextDay(prevEnd), start);
    Window(prevStart, prevEnd)
  }

  /** The month before the month of `d` ends on the day before that month starts. */
  lemma MonthWindowsAdjacent(d: Date)
    requires Valid(d) && MonthIndex(d.year, d.month) > 12
    ensures NextDay(MonthStartEnd(PrevMonthAnchor(d)).end) == MonthStartEnd(d).start
  {
    var a := PrevMonthAnchor(d);
    var last := Date(a.year, a.month, DaysInMonth(a.year, a.month));
    assert MonthStartEnd(a).end == last;
    if d.month == 1 {
      assert last == Date(d.year - 1, 12, 31);
    } else {
      assert last.month == d.month - 1 < 12;
    }
    assert NextDay(last) == Date(d.year, d.month, 1);
  }

  /** Likewise the previous year ends the day before the year of `d` starts. */
  lemma YearWindowsAdjacent(d: Date)
    requires Valid(d) && d.year > 1
    ensures NextDay(YearStartEnd(Date(d.year - 1, 1, 1)).end) == YearStartEnd(d).start
  {
  }

  // ---------------------------------------------------------------------------------------
  // Change rate, rank change, badge

  /**
   * Python's `round` of the exact quotient `n / d` (`d != 0`): the nearest integer, ties to
   * the even one.
   */
  /** The products of the divisor with the quotient and with the quotient plus one. */
  lemma QuotientTimes(a: int, b: int)
    requires b > 0
    ensures (a / b) * b == a - a % b && (a / b + 1) * b == a - a % b + b && 0 <= a % b < b
  {
  }

  function RoundHalfEven(n: int, d: int): (r: int)
    requires d != 0
    ensures var (a, b) := if d > 0 then (n, d) else (-n, -d); 2 * (r * b - a) <= b && 2 * (a - r * b) <= b
    ensures var (a, b) := if d > 0 then (n, d) else (-n, -d); 2 * (r * b - a) == b || 2 * (a - r * b) == b ==> r % 2 == 0
  {
    var (a, b) := if d > 0 then (n, d) else (-n, -d);
    var q, rem := a / b, a % b;
    QuotientTimes(a, b);
    if 2 * rem < b then q
    else if 2 * rem > b then q + 1
    else if q % 2 == 0 then q else q + 1
  }

  /** `calc_change_rate`: the percentage change, or None when there is no previous count. */
  function CalcChangeRate(current: int, prev: int): (r: Option<int>)
  {
    if prev == 0 then None else Some(RoundHalfEven((current - prev) * 100, prev))
  }

  lemma ChangeRateProperties(current: int, prev: int)
    ensures CalcChangeRate(current, prev).None? <==> prev == 0
    ensures prev != 0 && current == prev ==> CalcChangeRate(current, prev) == Some(0)
    ensures prev > 0 && current > prev ==> CalcChangeRate(current, prev).value >= 0
    ensures prev > 0 && current < prev ==> CalcChangeRate(current, prev).value <= 0
  {
  }

  datatype Option<T> = None | Some(value: T)

  /** `calc_rank_change`: positive when the keyword climbed. */
  function CalcRankChange(currentRank: int, prevRank: Option<int>): (r: Option<int>)
    ensures r.None? <==> prevRank.None?
    ensures r.Some? ==> r.value == prevRank.value - currentRank
  {
    if prevRank.None? then None else Some(prevRank.value - currentRank)
  }

  datatype Badge = New | Up | Down | Same

  /** `_get_badge` */
  function GetBadge(rankChange: Option<int>, changeRate: Option<int>): (b: Badge)
    ensures b == New <==> rankChange.None? || changeRate.None?
    ensures b == Up <==> rankChange.Some? && changeRate.Some? && rankChange.value > 0
    ensures b == Down <==> rankChange.Some? && changeRate.Some? && rankChange.value < 0
    ensures b == Same <==> rankChange == Some(0) && changeRate.Some?
  {
    if rankChange.None? || changeRate.None? then New
    else if rankChange.value > 0 then Up
    else if rankChange.value < 0 then Down
    else Same
  }

  // ---------------------------------------------------------------------------------------
  // The ranking

  datatype Mode = Day | Week | Month | Year | Range | Unknown

  datatype KeywordCount = KeywordCount(keyword: string, count: int)

  datatype Item = Item(rank: int, keyword: string, count: int,
                       changeRate: Option<int>, rankChange: Option<int>, badge: Option<Badge>)

  datatype Plan = Plan(base: Window, prev: Option<Window>)

  /**
   * The error answers, and `OutOfDateRange` for the exception raised when a comparison window
   * would start before 0001-01-01 (`OverflowError` from a `timedelta` step, `ValueError` from
   * `date(0, ..)`).
   */
  datatype Error = StartAfterEnd | DayNeedsOneDate | BadMode | OutOfDateRange

  datatype Planned = Planned(plan: Plan) | Failed(error: Error)

  /** The comparison window of the mode would reach before the first day of year 1. */
  predicate PrevBeforeYearOne(mode: Mode, s: Date, e: Date)
    requires Valid(s) && Valid(e)
  {
    match mode
    case Day => Ordinal(s) == 1
    case Week => Ordinal(s) - Span(s, e) < 1
    case Month => MonthIndex(e.year, e.month) <= 12
    case Year => e.year == 1
    case Range => false
    case Unknown => false
  }

  /**
   * The first step of `get_keyword_ranking`: reject a start after the end, then fix the base
   * and comparison windows of the mode. Day needs start == end and compares with the day
   * before; week compares with the same-length window before; month and year take the
   * whole month or year of the end date and compare with the one before; range has none.
   * A comparison window before year 1 raises.
   */
  function PlanWindows(mode: Mode, s: Date, e: Date): (r: Planned)
    requires Valid(s) && Valid(e)
    ensures Before(e, s) ==> r == Failed(StartAfterEnd)
    ensures !Before(e, s) && mode == Day && s != e ==> r == Failed(DayNeedsOneDate)
    ensures !Before(e, s) && mode == Unknown ==> r == Failed(BadMode)
    ensures r == Failed(OutOfDateRange) <==> !Before(e, s) && !(mode == Day && s != e) && PrevBeforeYearOne(mode, s, e)
    ensures r.Planned? ==> Valid(r.plan.base.start) && Valid(r.plan.base.end) && (mode == Range <==> r.plan.prev.None?)
    ensures r.Planned? && r.plan.prev.Some? ==>
      Valid(r.plan.prev.value.end) && NextDay(r.plan.prev.value.end) == r.plan.base.start
  {
    if Before(e, s) then Failed(StartAfterEnd)
    else
      match mode
      case Day => if s != e then Failed(DayNeedsOneDate) else DayPlan(s)
      case Week => WeekPlan(s, e)
      case Range => Planned(Plan(Window(s, e), None))
      case Month => MonthPlan(e)
      case Year => YearPlan(e)
      case Unknown => Failed(BadMode)
  }

  /** A plan whose comparison window ends the day before its base window starts. */
  predicate Adjacent(r: Planned) {
    r.Planned? && Valid(r.plan.base.start) && Valid(r.plan.base.end) && r.plan.prev.Some?
    && Valid(r.plan.prev.value.end) && NextDay(r.plan.prev.value.end) == r.plan.base.start
  }

  /** Day mode: the day and the day before, which year 1's first day lacks. */
  function DayPlan(s: Date): (r: Planned)
    requires Valid(s)
    ensures r == Failed(OutOfDateRange) <==> Ordinal(s) == 1
    ensures r.Failed? || Adjacent(r)
  {
    OrdinalPositive(s);
    if Ordinal(s) == 1 then Failed(OutOfDateRange)
    else
      var p := PrevDay(s);
      OrdinalInjective(NextDay(p), s);
      Planned(Plan(Window(s, s), Some(Window(p, p))))
  }

  /** Week mode: the range and the window of the same length before it. */
  function WeekPlan(s: Date, e: Date): (r: Planned)
    requires Valid(s) && Valid(e)
    ensures r == Failed(OutOfDateRange) <==> Ordinal(s) - Span(s, e) < 1
    ensures r.Failed? || Adjacent(r)
  {
    if Ordinal(s) - Span(s, e) < 1 then Failed(OutOfDateRange)
    else Planned(Plan(Window(s, e), Some(PrevSameLengthRange(s, e))))
  }

  /** Month mode: the month of the end date and the month before. */
  function MonthPlan(e: Date): (r: Planned)
    requires Valid(e)
    ensures r == Failed(OutOfDateRange) <==> MonthIndex(e.year, e.month) <= 12
    ensures r.Failed? || Adjacent(r)
  {
    if MonthIndex(e.year, e.month) <= 12 then Failed(OutOfDateRange)
    else
      MonthWindowsAdjacent(e);
      Planned(Plan(MonthStartEnd(e), Some(MonthStartEnd(PrevMonthAnchor(e)))))
  }

  /** Year mode: the year of the end date and the year before. */
  function YearPlan(e: Date): (r: Planned)
    requires Valid(e)
    ensures r == Failed(OutOfDateRange) <==> e.year == 1
    ensures r.Failed? || Adjacent(r)
  {
    if e.year == 1 then Failed(OutOfDateRange)
    else
      YearWindowsAdjacent(e);
      Planned(Plan(YearStartEnd(e), Some(YearStartEnd(Date(e.year - 1, 1, 1)))))
  }

  /** The previous rank of a keyword: its 1-based position in `prev`, the last one when repeated. */
  function PrevRank(prev: seq<KeywordCount>, kw: string): (r: Option<int>)
    ensures r.Some? ==> 1 <= r.value <= |prev| && prev[r.value - 1].keyword == kw
    ensures r.Some? ==> forall j :: r.value <= j < |prev| ==> prev[j].keyword != kw
    ensures r.None? ==> forall j :: 0 <= j < |prev| ==> prev[j].keyword != kw
  {
    if prev == [] then None
    else if prev[|prev| - 1].keyword == kw then Some(|prev|)
    else PrevRank(prev[..|prev| - 1], kw)
  }

  /** The previous count of a keyword, from its last entry in `prev`, or 0. */
  function PrevCount(prev: seq<KeywordCount>, kw: string): int
  {
    var r := PrevRank(prev, kw);
    if r.Some? then prev[r.value - 1].count else 0
  }

  /** The item for the keyword ranked `i + 1` in the base list. */
  function RankedItem(mode: Mode, base: seq<KeywordCount>, prev: seq<KeywordCount>, i: nat): Item
    requires i < |base|
  {
    var cur := base[i];
    if mode == Range then Item(i + 1, cur.keyword, cur.count, None, None, None)
    else
      var chg := CalcChangeRate(cur.count, PrevCount(prev, cur.keyword));
      var mov := CalcRankChange(i + 1, PrevRank(prev, cur.keyword));
      Item(i + 1, cur.keyword, cur.count, chg, mov, Some(GetBadge(mov, chg)))
  }

  /** The item loop of `get_keyword_ranking`: one item per base entry, in base order. */
  method RankItems(mode: Mode, base: seq<KeywordCount>, prev: seq<KeywordCount>) returns (items: seq<Item>)
    ensures |items| == |base|
    ensures forall i :: 0 <= i < |base| ==> items[i] == RankedItem(mode, base, prev, i)
  {
    items := [];
    for i := 0 to |base|
      invariant |items| == i
      invariant forall k :: 0 <= k < i ==> items[k] == RankedItem(mode, base, prev, k)
    {
      var cur := base[i];
      var chg: Option<int>, mov: Option<int>, badge: Option<Badge>;
      if mode == Range {
        chg, mov, badge := None, None, None;
      } else {
        var prevRank := PrevRank(prev, cur.keyword);
        var prevCount := if prevRank.Some? then prev[prevRank.value - 1].count else 0;
        chg := CalcChangeRate(cur.count, prevCount);
        mov := CalcRankChange(i + 1, prevRank);
        badge := Some(GetBadge(mov, chg));
      }
      items := items + [Item(i + 1, cur.keyword, cur.count, chg, mov, badge)];
    }
  }

  /**
   * Outside range mode, a ranked keyword is NEW exactly when it is missing from the previous
   * list or its previous count is 0, and otherwise UP exactly when it climbed.
   */
  lemma RankedItemBadge(mode: Mode, base: seq<KeywordCount>, prev: seq<KeywordCount>, i: nat)
    requires i < |base| && mode != Range
    ensures var it := RankedItem(mode, base, prev, i);
      it.rank == i + 1 && it.keyword == base[i].keyword
      && (it.badge == Some(New) <==>
            (forall j :: 0 <= j < |prev| ==> prev[j].keyword != base[i].keyword)
            || PrevCount(prev, base[i].keyword) == 0)
      && (it.badge == Some(Up) <==>
            PrevRank(prev, base[i].keyword).Some? && PrevCount(prev, base[i].keyword) != 0
            && PrevRank(prev, base[i].keyword).value > i + 1)
  {
    var kw := base[i].keyword;
    var r := PrevRank(prev, kw);
    var pc := PrevCount(prev, kw);
    var chg := CalcChangeRate(base[i].count, pc);
    var mov := CalcRankChange(i + 1, r);
    RankedItemParts(mode, base, prev, i);
    assert chg.None? <==> pc == 0;
    var b := GetBadge(mov, chg);
    assert b == New <==> r.None? || pc == 0;
    assert b == Up <==> r.Some? && pc != 0 && r.value > i + 1;
    if r.None? {
      assert forall j :: 0 <= j < |prev| ==> prev[j].keyword != kw;
    } else {
      assert prev[r.value - 1].keyword == kw;
    }
  }

  /** Outside range mode an item carries the change rate, the rank change and their badge. */
  lemma RankedItemParts(mode: Mode, base: seq<KeywordCount>, prev: seq<KeywordCount>, i: nat)
    requires i < |base| && mode != Range
    ensures var kw := base[i].keyword;
      var chg := CalcChangeRate(base[i].count, PrevCount(prev, kw));
      var mov := CalcRankChange(i + 1, PrevRank(prev, kw));
      RankedItem(mode, base, prev, i) == Item(i + 1, kw, base[i].count, chg, mov, Some(GetBadge(mov, chg)))
  {
  }

  datatype Hit = Hit(keyword: Option<string>, count: Option<int>)

  datatype RawItem = RawItem(keyword: Option<string>, count: int)

  /** `_hits_to_items`: the keyword and count of each hit, a missing or null count read as 0. */
  method HitsToItems(hits: seq<Hit>) returns (out: seq<RawItem>)
    ensures |out| == |hits|
    ensures forall i :: 0 <= i < |hits| ==>
      out[i].keyword == hits[i].keyword && out[i].count == (if hits[i].count.Some? then hits[i].count.value else 0)
  {
    out := [];
    for i := 0 to |hits|
      invariant |out| == i
      invariant forall k :: 0 <= k < i ==>
        out[k].keyword == hits[k].keyword && out[k].count == (if hits[k].count.Some? then hits[k].count.value else 0)
    {
      var c := if hits[i].count.Some? then hits[i].count.value else 0;
      out := out + [RawItem(hits[i].keyword, c)];
    }
  }
}
