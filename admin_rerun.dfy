/**
 * The re-analysis console (apps/service/static/admin_rerun.js): the date inputs and their
 * parsing, the list of articles with a missing model result, the row and model selections,
 * the run button and header checkbox that follow them, and the simulated run that fills the
 * missing results of the selected rows.
 */
module AdminRerun {
  import opened Text
  import Calendar
  import Sorting
  import AdminRuns
  import Arith

  // ---------------------------------------------------------------------------------------
  // Dates

  /** Milliseconds in a day: local midnights are taken as whole multiples of it. */
  const DayMs: int := 1000 * 60 * 60 * 24

  /** `new Date(y, ...)` reads a year from 0 to 99 as 1900 to 1999. */
  function JsYear(y: nat): (r: nat)
    ensures y <= 99 ==> r == 1900 + y
    ensures y > 99 ==> r == y
  {
    if y <= 99 then 1900 + y else y
  }

  /**
   * The day number of `new Date(y, m - 1, d)`: a month beyond 12 rolls into later years and a
   * day beyond the month's length into later months, as the Date constructor does.
   */
  function DayNumber(y: nat, m: nat, d: nat): int
    requires y >= 1 && m >= 1
  {
    var year := JsYear(y) + (m - 1) / 12;
    var month := (m - 1) % 12 + 1;
    Calendar.DaysBeforeYear(year) + Calendar.DaysBeforeMonth(year, month) + d
  }

  /** On a valid date from year 100 on the day number is the date's ordinal. */
  lemma DayNumberOfValid(y: nat, m: nat, d: nat)
    requires 100 <= y && 1 <= m && Calendar.Valid(Calendar.Date(y, m, d))
    ensures DayNumber(y, m, d) == Calendar.Ordinal(Calendar.Date(y, m, d))
  {
  }

  /**
   * parseInputDate: the text split at `-`, each of the first three pieces read as a number;
   * a missing piece, NaN or 0 gives null, otherwise the day of `new Date(y, m - 1, d)`.
   */
  function ParseInputDate(v: string): (r: Option<int>)
    ensures v == "" ==> r == None
  {
    var p := SplitOn(v, '-');
    if |p| < 3 then None
    else
      var y, m, d := AdminRuns.NumberOf(p[0]), AdminRuns.NumberOf(p[1]), AdminRuns.NumberOf(p[2]);
      if y.NaN? || m.NaN? || d.NaN? || y.v == 0 || m.v == 0 || d.v == 0 then None
      else Some(DayNumber(y.v, m.v, d.v))
  }

  /** A date input's value (`YYYY-MM-DD`) parses to that date's day. */
  lemma ParseInputDateOfIso(d: Calendar.Date)
    requires Calendar.Valid(d) && 100 <= d.year < 10000
    ensures ParseInputDate(Calendar.IsoDate(d)) == Some(Calendar.Ordinal(d))
  {
    var y, m, day := Calendar.Pad(d.year, 4), Calendar.Pad(d.month, 2), Calendar.Pad(d.day, 2);
    IsoPieces(y, m, day);
    assert Calendar.IsoDate(d) == y + "-" + m + "-" + day;
    Calendar.PadValue(d.year, 4);
    Calendar.PadValue(d.month, 2);
    Calendar.PadValue(d.day, 2);
    DayNumberOfValid(d.year, d.month, d.day);
  }

  /** Splitting `y-m-d` made of digit runs at the dashes gives the three runs back. */
  lemma IsoPieces(y: string, m: string, day: string)
    requires Calendar.AllDigits(y) && Calendar.AllDigits(m) && Calendar.AllDigits(day)
    ensures SplitOn(y + "-" + m + "-" + day, '-') == [y, m, day]
  {
    NoDash(y); NoDash(m); NoDash(day);
    var pieces := [y, m, day];
    assert Join(pieces[2..], "-") == day;
    assert Join(pieces[1..], "-") == m + "-" + day;
    assert Join(pieces, "-") == y + "-" + (m + "-" + day);
    assert y + "-" + m + "-" + day == y + "-" + (m + "-" + day);
    SplitOnJoin(pieces, '-');
  }

  lemma NoDash(s: string)
    requires Calendar.AllDigits(s)
    ensures '-' !in s
  {
    forall i | 0 <= i < |s|
      ensures s[i] != '-'
    {
    }
  }

  /** Parsed input days order valid dates as the calendar does. */
  lemma ParsedDaysOrder(a: Calendar.Date, b: Calendar.Date)
    requires Calendar.Valid(a) && 100 <= a.year < 10000
    requires Calendar.Valid(b) && 100 <= b.year < 10000
    ensures ParseInputDate(Calendar.IsoDate(a)).Some? && ParseInputDate(Calendar.IsoDate(b)).Some?
    ensures ParseInputDate(Calendar.IsoDate(a)).value <= ParseInputDate(Calendar.IsoDate(b)).value
      <==> Calendar.NotAfter(a, b)
  {
    ParseInputDateOfIso(a);
    ParseInputDateOfIso(b);
    Calendar.OrdinalMonotone(a, b);
    Calendar.OrdinalMonotone(b, a);
    if Calendar.Ordinal(a) == Calendar.Ordinal(b) {
      Calendar.OrdinalInjective(a, b);
    }
  }

  /**
   * clampStartEnd: with both inputs parsed and the start after the end, the end input takes
   * the start's text; otherwise nothing changes.
   */
  function ClampStartEnd(startText: string, endText: string): (r: string)
    ensures var s, e := ParseInputDate(startText), ParseInputDate(endText);
      (s.Some? && e.Some? ==> ParseInputDate(r).Some? && s.value <= ParseInputDate(r).value)
    ensures r == endText || r == startText
  {
    var s, e := ParseInputDate(startText), ParseInputDate(endText);
    if s.None? || e.None? then endText
    else if s.value > e.value then startText
    else endText
  }

  /** The midnight that starts a day, in milliseconds. */
  function Midnight(day: int): int { day * DayMs }

  /**
   * inRange as written: a time between the start day's midnight and the END day's midnight,
   * both inclusive, so the end day itself counts only at 00:00:00.000.
   */
  predicate InRangeAsWritten(t: int, s: int, e: int) {
    Midnight(s) <= t <= Midnight(e)
  }

  /** The inclusive range of whole days the date inputs describe. */
  predicate InRange(t: int, s: int, e: int) {
    Midnight(s) <= t < Midnight(e + 1)
  }

  /** A time is in the corrected range exactly when the day it falls on is within [s, e]. */
  lemma InRangeIsByDay(t: int, s: int, e: int)
    ensures InRange(t, s, e) <==> s <= t / DayMs <= e
  {
    var q, r := t / DayMs, t % DayMs;
    assert t == q * DayMs + r && 0 <= r < DayMs;
    if s <= q {
      assert s * DayMs <= q * DayMs;
    } else {
      assert (q + 1) * DayMs <= s * DayMs;
    }
    if q <= e {
      assert q * DayMs <= e * DayMs;
    } else {
      assert (e + 1) * DayMs <= q * DayMs;
    }
  }

  /** Any moment of the end day after midnight is outside the range as written, yet in the end day. */
  lemma EndDayDroppedAsWritten(s: int, e: int, t: int)
    requires s <= e && Midnight(e) < t < Midnight(e + 1)
    ensures !InRangeAsWritten(t, s, e) && InRange(t, s, e)
  {
    assert Midnight(s) <= Midnight(e);
  }

  // ---------------------------------------------------------------------------------------
  // Articles and the list

  /** The four analysis models whose results the console checks. */
  datatype Model = Keyword | Sentiment | Trust | Summary

  const AllModels: set<Model> := {Keyword, Sentiment, Trust, Summary}

  /** An article: its id, its publication time and the models whose result is null. */
  datatype Article = Article(id: string, published: int, nulls: set<Model>)

  /** isAnySelectedModelNull: some selected model's result is null (never, with none selected). */
  predicate AnySelectedNull(a: Article, models: set<Model>) {
    a.nulls * models != {}
  }

  /** A row is listed when its publication is within the days and a selected result is null. */
  predicate Listed(a: Article, s: int, e: int, models: set<Model>) {
    InRange(a.published, s, e) && AnySelectedNull(a, models)
  }

  function PublishedKey(articles: seq<Article>): nat -> real {
    (k: nat) => if k < |articles| then articles[k].published as real else 0.0
  }

  /**
   * filterList: nothing for an unparsable input or no selected model; otherwise the rows within
   * the days with a selected result missing, latest publication first. Rows are referred to by
   * their position among the articles, as the list holds the article objects themselves.
   */
  function FilterList(articles: seq<Article>, startText: string, endText: string, models: set<Model>): seq<nat> {
    var s, e := ParseInputDate(startText), ParseInputDate(endText);
    if s.None? || e.None? || models == {} then []
    else Sorting.SortDesc(Hits(articles, s.value, e.value, models, 0), PublishedKey(articles))
  }

  /**
   * The list holds exactly the rows published within the parsed days that have a selected
   * result missing, latest publication first.
   */
  lemma FilterListMembers(articles: seq<Article>, startText: string, endText: string, models: set<Model>)
    ensures var r, s, e := FilterList(articles, startText, endText, models), ParseInputDate(startText), ParseInputDate(endText);
      forall k: nat :: k in r <==>
        (s.Some? && e.Some? && k < |articles| && Listed(articles[k], s.value, e.value, models))
    ensures Sorting.SortedDesc(FilterList(articles, startText, endText, models), PublishedKey(articles))
  {
    var s, e := ParseInputDate(startText), ParseInputDate(endText);
    if s.Some? && e.Some? && models != {} {
      var hits := Hits(articles, s.value, e.value, models, 0);
      HitsMembers(articles, s.value, e.value, models, 0);
      SameMembers(hits, Sorting.SortDesc(hits, PublishedKey(articles)));
    }
  }

  /** The listed rows in article order, from position `from` on. */
  function Hits(articles: seq<Article>, s: int, e: int, models: set<Model>, from: nat): seq<nat>
    decreases |articles| - from
  {
    if from >= |articles| then []
    else (if Listed(articles[from], s, e, models) then [from] else []) + Hits(articles, s, e, models, from + 1)
  }

  /** The hits from `from` on are exactly the positions from there of the listed rows. */
  lemma {:induction false} HitsMembers(articles: seq<Article>, s: int, e: int, models: set<Model>, from: nat)
    ensures forall k: nat :: k in Hits(articles, s, e, models, from) <==>
      from <= k < |articles| && Listed(articles[k], s, e, models)
    decreases |articles| - from
  {
    if from < |articles| {
      HitsMembers(articles, s, e, models, from + 1);
    }
  }

  lemma SameMembers(xs: seq<nat>, ys: seq<nat>)
    requires multiset(xs) == multiset(ys)
    ensures forall k :: k in xs <==> k in ys
  {
    forall k
      ensures k in xs <==> k in ys
    {
      assert k in xs <==> k in multiset(xs);
      assert k in ys <==> k in multiset(ys);
    }
  }

  /** The ids of the listed rows. */
  function IdsOf(articles: seq<Article>, list: seq<nat>): set<string> {
    set k | k in list && k < |articles| :: articles[k].id
  }

  /** Some row of the list exists and has its id selected. */
  predicate SomeSelected(articles: seq<Article>, list: seq<nat>, sel: set<string>) {
    exists k :: k in list && k < |articles| && articles[k].id in sel
  }

  /** Every row of the list that exists has its id selected. */
  predicate AllSelected(articles: seq<Article>, list: seq<nat>, sel: set<string>) {
    forall k :: k in list && k < |articles| ==> articles[k].id in sel
  }

  /**
   * syncRunButton and syncHeaderCheck: whether the run button is enabled, the header box
   * checked and the header box indeterminate.
   */
  function SyncFlags(articles: seq<Article>, list: seq<nat>, sel: set<string>, models: set<Model>, locked: bool): (r: (bool, bool, bool))
    ensures r.0 <==> !locked && models != {} && list != [] && SomeSelected(articles, list, sel)
    ensures r.1 <==> list != [] && AllSelected(articles, list, sel)
    ensures r.2 <==> !r.1 && SomeSelected(articles, list, sel)
  {
    var any := SomeSelected(articles, list, sel);
    var checked := |list| > 0 && AllSelected(articles, list, sel);
    (!locked && |models| > 0 && |list| > 0 && any, checked, !checked && any)
  }

  /**
   * Selecting the ids of a freshly computed list selects every listed row, every listed row
   * exists, and a non-empty list has a listed row selected and a model selected.
   */
  lemma ListedAllSelected(articles: seq<Article>, startText: string, endText: string, models: set<Model>)
    ensures var l := FilterList(articles, startText, endText, models);
      (forall k :: k in l ==> k < |articles|)
      && AllSelected(articles, l, IdsOf(articles, l))
      && (l != [] ==> models != {} && SomeSelected(articles, l, IdsOf(articles, l)))
  {
    FilterListMembers(articles, startText, endText, models);
    var l := FilterList(articles, startText, endText, models);
    if l != [] {
      assert l[0] in l;
    }
  }

  /** The selected listed rows: listed positions of existing articles whose id is selected. */
  function ChosenOf(articles: seq<Article>, list: seq<nat>, sel: set<string>): set<nat> {
    set k | k in list && k < |articles| && articles[k].id in sel
  }

  /** The selected listed rows in list order, the rows a run goes through. */
  function TargetsOf(articles: seq<Article>, list: seq<nat>, sel: set<string>): (r: seq<nat>)
    ensures forall k: nat :: k in r <==> k in ChosenOf(articles, list, sel)
  {
    var p := (k: nat) => k < |articles| && articles[k].id in sel;
    var r := Filter(list, p);
    forall k: nat | k in r
      ensures k in list && p(k)
    {
      var i :| 0 <= i < |r| && r[i] == k;
    }
    r
  }

  /** Without targets no row is chosen. */
  lemma NoTargetsNoneChosen(articles: seq<Article>, list: seq<nat>, sel: set<string>)
    requires TargetsOf(articles, list, sel) == []
    ensures ChosenOf(articles, list, sel) == {}
  {
  }

  /** Rows with no selected null result are not listed, whatever the days. */
  lemma FilledNotListed(articles: seq<Article>, startText: string, endText: string, models: set<Model>, rows: set<nat>)
    requires forall k :: k in rows ==> k < |articles| && !AnySelectedNull(articles[k], models)
    ensures forall k :: k in rows ==> k !in FilterList(articles, startText, endText, models)
  {
    FilterListMembers(articles, startText, endText, models);
  }

  /** The result of the run on one row: every selected model's null result becomes "OK". */
  function Filled(a: Article, models: set<Model>): (r: Article)
    ensures r.id == a.id && r.published == a.published
    ensures !AnySelectedNull(r, models)
    ensures r.nulls <= a.nulls && (forall m :: m in a.nulls && m !in models ==> m in r.nulls)
  {
    a.(nulls := a.nulls - models)
  }

  /** setProgress's `Math.max(0, Math.min(100, Math.round(percent)))` for a rounded percent. */
  function ClampPct(p: int): (r: int)
    ensures 0 <= r <= 100
    ensures 0 <= p <= 100 ==> r == p
  {
    if p < 0 then 0 else if p > 100 then 100 else p
  }

  /** `Math.round(done / total * 100)` in exact arithmetic: halves round up. */
  function RoundPct(done: nat, total: nat): (r: int)
    requires total > 0
    ensures 2 * total * r <= 200 * done + total < 2 * total * (r + 1)
  {
    (200 * done + total) / (2 * total)
  }

  /** The progress of a run lies in [0, 100], grows with the rows done and is 100 at the end. */
  lemma RoundPctBounds(done: nat, total: nat)
    requires 0 < total && done <= total
    ensures 0 <= RoundPct(done, total) <= 100
    ensures done == total ==> RoundPct(done, total) == 100
    ensures done < total ==> RoundPct(done, total) <= RoundPct(done + 1, total)
  {
    Arith.DivMono(200 * done + total, 201 * total, 2 * total);
    Arith.DivExact(201 * total, 2 * total, 100);
    if done < total {
      Arith.DivMono(200 * done + total, 200 * (done + 1) + total, 2 * total);
    }
  }

  // ---------------------------------------------------------------------------------------
  // The page

  class RerunPage {
    /** The mock articles; the run fills their results in place. */
    var articles: seq<Article>
    var startText: string
    var endText: string
    var models: set<Model>
    /** currentList: positions of the listed articles. */
    var currentList: seq<nat>
    var selectedRowIds: set<string>
    var locked: bool
    var running: bool
    var pct: int
    var runEnabled: bool
    var headerChecked: bool
    var headerIndeterminate: bool

    /**
     * The list refers to articles that exist; the run button and the header box show what
     * syncRunButton and syncHeaderCheck compute from the list, the selection, the models and
     * the lock; the progress is a percentage.
     */
    predicate Valid()
      reads this
    {
      (forall k :: k in currentList ==> k < |articles|)
      && (runEnabled, headerChecked, headerIndeterminate) == SyncFlags(articles, currentList, selectedRowIds, models, locked)
      && 0 <= pct <= 100
    }

    /** syncRunButton and syncHeaderCheck. */
    method Sync()
      requires forall k :: k in currentList ==> k < |articles|
      requires 0 <= pct <= 100
      modifies this`runEnabled, this`headerChecked, this`headerIndeterminate
      ensures Valid()
    {
      var flags := SyncFlags(articles, currentList, selectedRowIds, models, locked);
      runEnabled, headerChecked, headerIndeterminate := flags.0, flags.1, flags.2;
    }

    /** filterList into the list, and every listed row selected. */
    method Recompute()
      modifies this`currentList, this`selectedRowIds
      ensures currentList == FilterList(articles, startText, endText, models)
      ensures selectedRowIds == IdsOf(articles, currentList)
      ensures forall k :: k in currentList ==> k < |articles|
      ensures AllSelected(articles, currentList, selectedRowIds)
      ensures currentList != [] ==> models != {} && SomeSelected(articles, currentList, selectedRowIds)
    {
      ListedAllSelected(articles, startText, endText, models);
      currentList := FilterList(articles, startText, endText, models);
      selectedRowIds := IdsOf(articles, currentList);
    }

    /**
     * refresh: the list is recomputed and every listed row becomes selected, so the run button
     * is enabled exactly when unlocked with a non-empty list, and the header box is checked
     * exactly when the list is non-empty.
     */
    method Refresh()
      requires 0 <= pct <= 100
      modifies this`currentList, this`selectedRowIds, this`runEnabled, this`headerChecked, this`headerIndeterminate
      ensures Valid()
      ensures currentList == FilterList(articles, startText, endText, models)
      ensures selectedRowIds == IdsOf(articles, currentList)
      ensures runEnabled <==> !locked && currentList != []
      ensures !headerIndeterminate && (headerChecked <==> currentList != [])
    {
      Recompute();
      Sync();
    }

    /**
     * The page opens with every model selected, the range from yesterday to today, the list
     * refreshed and the progress hidden.
     */
    constructor(articles: seq<Article>, today: Calendar.Date)
      requires Calendar.Valid(today) && today.year < 10000 && Calendar.Ordinal(today) > 1
      ensures Valid() && this.articles == articles && models == AllModels
      ensures startText == Calendar.IsoDate(Calendar.PrevDay(today)) && endText == Calendar.IsoDate(today)
      ensures currentList == FilterList(articles, startText, endText, AllModels)
      ensures selectedRowIds == IdsOf(articles, currentList)
      ensures !locked && !running && pct == 0
    {
      this.articles := articles;
      startText := Calendar.IsoDate(Calendar.PrevDay(today));
      endText := Calendar.IsoDate(today);
      models := AllModels;
      currentList, selectedRowIds := [], {};
      locked, running, pct := false, false, 0;
      runEnabled, headerChecked, headerIndeterminate := false, false, false;
      new;
      Refresh();
    }

    /** A model chip: ignored while locked; otherwise the model is toggled and the list refreshed. */
    method ToggleModel(m: Model)
      requires Valid()
      modifies this`models, this`currentList, this`selectedRowIds, this`runEnabled, this`headerChecked, this`headerIndeterminate
      ensures Valid()
      ensures old(locked) ==> models == old(models) && currentList == old(currentList) && selectedRowIds == old(selectedRowIds)
      ensures !old(locked) ==> (models == if m in old(models) then old(models) - {m} else old(models) + {m})
      ensures !old(locked) ==> currentList == FilterList(articles, startText, endText, models)
      ensures !old(locked) ==> selectedRowIds == IdsOf(articles, currentList)
    {
      if locked {
        return;
      }
      if m in models {
        models := models - {m};
      } else {
        models := models + {m};
      }
      Refresh();
    }

    /** The all and clear chips: ignored while locked; otherwise every model or none, refreshed. */
    method SetAllModels(on: bool)
      requires Valid()
      modifies this`models, this`currentList, this`selectedRowIds, this`runEnabled, this`headerChecked, this`headerIndeterminate
      ensures Valid()
      ensures old(locked) ==> models == old(models) && currentList == old(currentList)
      ensures !old(locked) ==> models == (if on then AllModels else {})
      ensures !old(locked) ==> currentList == FilterList(articles, startText, endText, models)
      ensures !old(locked) && !on ==> currentList == [] && !runEnabled
    {
      if locked {
        return;
      }
      models := if on then AllModels else {};
      Refresh();
    }

    /** The search button: ignored while locked; otherwise the end is clamped and the list refreshed. */
    method Search()
      requires Valid()
      modifies this`endText, this`currentList, this`selectedRowIds, this`runEnabled, this`headerChecked, this`headerIndeterminate
      ensures Valid()
      ensures old(locked) ==> currentList == old(currentList) && endText == old(endText)
      ensures !old(locked) ==> endText == ClampStartEnd(old(startText), old(endText))
      ensures !old(locked) ==> currentList == FilterList(articles, startText, endText, models)
      ensures !old(locked) ==> selectedRowIds == IdsOf(articles, currentList)
    {
      if locked {
        return;
      }
      endText := ClampStartEnd(startText, endText);
      Refresh();
    }

    /**
     * A row's checkbox: while locked the box is reverted and nothing changes; a row without an
     * id is ignored; otherwise the id is added or removed and the button and header follow.
     */
    method ToggleRow(id: string, checked: bool)
      requires Valid()
      modifies this`selectedRowIds, this`runEnabled, this`headerChecked, this`headerIndeterminate
      ensures Valid()
      ensures (old(locked) || id == "") ==> selectedRowIds == old(selectedRowIds)
      ensures !old(locked) && id != "" ==>
        selectedRowIds == (if checked then old(selectedRowIds) + {id} else old(selectedRowIds) - {id})
    {
      if locked || id == "" {
        return;
      }
      if checked {
        selectedRowIds := selectedRowIds + {id};
      } else {
        selectedRowIds := selectedRowIds - {id};
      }
      Sync();
    }

    /** The header checkbox: ignored while locked; otherwise every listed row is selected or cleared. */
    method SelectAllRows(on: bool)
      requires Valid()
      modifies this`selectedRowIds, this`runEnabled, this`headerChecked, this`headerIndeterminate
      ensures Valid()
      ensures old(locked) ==> selectedRowIds == old(selectedRowIds)
      ensures !old(locked) ==> (selectedRowIds ==
        if on then old(selectedRowIds) + IdsOf(articles, currentList) else old(selectedRowIds) - IdsOf(articles, currentList))
      ensures !old(locked) && on && currentList != [] ==> headerChecked && !headerIndeterminate
      ensures !old(locked) && !on ==> !headerChecked && !headerIndeterminate && !runEnabled
    {
      if locked {
        return;
      }
      var ids := IdsOf(articles, currentList);
      if on {
        selectedRowIds := selectedRowIds + ids;
      } else {
        selectedRowIds := selectedRowIds - ids;
        forall k | k in currentList && k < |articles|
          ensures articles[k].id !in selectedRowIds
        {
          assert articles[k].id in ids;
        }
        if currentList != [] {
          assert currentList[0] in currentList && articles[currentList[0]].id !in selectedRowIds;
        }
      }
      Sync();
    }

    /** setProgress: the pill shows a clamped percentage while running. */
    method SetProgress(on: bool, percent: int)
      modifies this`running, this`pct
      ensures running == on && pct == ClampPct(percent)
    {
      running := on;
      pct := ClampPct(percent);
    }

    /** The selected listed rows a run works on. */
    function Chosen(): set<nat>
      reads this`articles, this`currentList, this`selectedRowIds
    {
      ChosenOf(articles, currentList, selectedRowIds)
    }

    /**
     * The state after a run over the rows `chosen`: the same articles, with exactly the chosen
     * ones filled; the lock released and the progress hidden; the list refreshed with every
     * listed row selected, and none of the filled rows listed.
     */
    twostate predicate Ran(chosen: set<nat>)
      reads this
    {
      |articles| == |old(articles)|
      && (forall k :: 0 <= k < |articles| ==>
            articles[k] == (if k in chosen then Filled(old(articles)[k], models) else old(articles)[k]))
      && !locked && !running && pct == 0
      && currentList == FilterList(articles, startText, endText, models)
      && selectedRowIds == IdsOf(articles, currentList)
      && (forall k :: k in chosen ==> k !in currentList)
    }

    /**
     * simulateRun: without a selected listed row nothing happens. Otherwise the page locks,
     * each selected listed row has its selected models' null results filled, one row at a
     * time with the progress following, and at the end the lock is released, the progress
     * hidden and the list refreshed. No filled row is listed any more, and every other
     * article is untouched.
     */
    method SimulateRun() returns (started: bool)
      requires Valid()
      modifies this`articles, this`locked, this`running, this`pct, this`currentList, this`selectedRowIds, this`runEnabled, this`headerChecked, this`headerIndeterminate
      ensures Valid()
      ensures started <==> old(Chosen()) != {}
      ensures !started ==> articles == old(articles) && currentList == old(currentList) && selectedRowIds == old(selectedRowIds)
      ensures !started ==> locked == old(locked) && pct == old(pct)
      ensures started ==> Ran(old(Chosen()))
    {
      var targets := TargetsOf(articles, currentList, selectedRowIds);
      if |targets| == 0 {
        NoTargetsNoneChosen(articles, currentList, selectedRowIds);
        return false;
      }
      assert targets[0] in Chosen();
      started := true;
      RunAll(targets, Chosen());
    }

    /** The started run: lock, fill the targets, unlock and refresh. */
    method RunAll(targets: seq<nat>, chosen: set<nat>)
      requires Valid() && |targets| > 0 && forall k: nat :: k in targets <==> k in chosen
      requires forall k :: k in chosen ==> k < |articles|
      modifies this`articles, this`locked, this`running, this`pct, this`currentList, this`selectedRowIds, this`runEnabled, this`headerChecked, this`headerIndeterminate
      ensures Valid() && Ran(chosen)
    {
      RunLocked(targets, chosen);
      FilledNotListed(articles, startText, endText, models, chosen);
      Refresh();
    }

    /** The page locked while the targets are filled; unlocked, with the progress hidden, after. */
    method RunLocked(targets: seq<nat>, chosen: set<nat>)
      requires |targets| > 0 && forall k: nat :: k in targets <==> k in chosen
      requires forall k :: k in chosen ==> k < |articles|
      modifies this`articles, this`locked, this`running, this`pct, this`runEnabled
      ensures |articles| == |old(articles)|
      ensures forall k :: 0 <= k < |articles| ==>
        articles[k] == (if k in chosen then Filled(old(articles)[k], models) else old(articles)[k])
      ensures forall k :: k in chosen ==> !AnySelectedNull(articles[k], models)
      ensures !locked && !running && pct == 0
    {
      locked := true;
      runEnabled := false;
      SetProgress(true, 0);
      RunTargets(targets, chosen);
      SetProgress(false, 0);
      locked := false;
    }

    /** The loop of simulateRun: each target row is filled, and the progress follows the count. */
    method RunTargets(targets: seq<nat>, chosen: set<nat>)
      requires |targets| > 0 && forall k: nat :: k in targets <==> k in chosen
      requires forall k :: k in chosen ==> k < |articles|
      modifies this`articles, this`running, this`pct
      ensures |articles| == |old(articles)|
      ensures forall k :: 0 <= k < |articles| ==>
        articles[k] == (if k in chosen then Filled(old(articles)[k], models) else old(articles)[k])
      ensures running && pct == 100
    {
      var total := |targets|;
      var done := 0;
      pct := 0;
      while done < total
        invariant 0 <= done <= total && |articles| == |old(articles)|
        invariant forall k :: 0 <= k < |articles| ==>
          articles[k] == (if k in targets[..done] then Filled(old(articles)[k], models) else old(articles)[k])
        invariant done == 0 || (running && pct == RoundPct(done, total))
      {
        var k := targets[done];
        assert k in targets && k in chosen;
        articles := articles[k := Filled(articles[k], models)];
        assert targets[..done + 1] == targets[..done] + [k];
        done := done + 1;
        RoundPctBounds(done, total);
        SetProgress(true, RoundPct(done, total));
      }
      assert targets[..done] == targets;
      RoundPctBounds(total, total);
    }
  }
}
