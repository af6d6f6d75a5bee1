/**
 * The batch-run error console (test_html/apps/service/static/admin.js): date numbers, the
 * status-code badge, HTML escaping, the date filter, the search that normalises its range,
 * the infinite-scroll pagination and the single re-run progress pill.
 */
module AdminRuns {
  import opened Text
  import Calendar
  import Sorting

  // ---------------------------------------------------------------------------------------
  // Pure helpers

  /** A JavaScript number as these handlers see it: an integer, or NaN. */
  datatype Num = Num(v: int) | NaN

  /**
   * `Number(text)` for the texts a date input or a `start_at` slice yields: the empty text is
   * 0, a run of ASCII digits its decimal value, anything else NaN.
   */
  function NumberOf(s: string): (r: Num)
    ensures s == "" ==> r == Num(0)
    ensures r.Num? ==> r.v >= 0
  {
    if Calendar.AllDigits(s) then Num(Calendar.DigitsValue(s)) else NaN
  }

  /** The text with every `c` removed: `replaceAll(c, "")`. */
  function Without(s: string, c: char): (r: string)
    ensures c !in r && |r| <= |s|
  {
    if s == [] then []
    else if s[0] == c then Without(s[1..], c)
    else [s[0]] + Without(s[1..], c)
  }

  /** toDateNum: 0 for an empty text, else the number the text denotes without its dashes. */
  function ToDateNum(iso: string): (r: Num)
    ensures iso == "" ==> r == Num(0)
  {
    if iso == "" then Num(0) else NumberOf(Without(iso, '-'))
  }

  /** An ISO date reads as its `YYYYMMDD` number. */
  lemma ToDateNumOfIso(d: Calendar.Date)
    requires Calendar.Valid(d) && d.year < 10000
    ensures ToDateNum(Calendar.IsoDate(d)) == Num(Calendar.Ymd(d))
  {
    var y, m, day := Calendar.Pad(d.year, 4), Calendar.Pad(d.month, 2), Calendar.Pad(d.day, 2);
    DashesDropped(y, m, day);
    assert Calendar.Pow10(2) == 100 && Calendar.Pow10(4) == 10000;
    Calendar.PadValue(d.year, 4);
    Calendar.PadValue(d.month, 2);
    Calendar.PadValue(d.day, 2);
    ThreeFields(y, m, day);
  }

  /** `YYYY`, `MM` and `DD` digits read together as one `YYYYMMDD` number. */
  lemma ThreeFields(y: string, m: string, day: string)
    requires Calendar.AllDigits(y) && Calendar.AllDigits(m) && Calendar.AllDigits(day)
    requires |m| == 2 && |day| == 2
    ensures Calendar.AllDigits(y + m + day)
    ensures Calendar.DigitsValue(y + m + day)
      == Calendar.DigitsValue(y) * 10000 + Calendar.DigitsValue(m) * 100 + Calendar.DigitsValue(day)
  {
    assert Calendar.Pow10(2) == 100;
    DigitsValueAppend(y, m);
    DigitsValueAppend(y + m, day);
  }

  lemma DashesDropped(y: string, m: string, day: string)
    requires Calendar.AllDigits(y) && Calendar.AllDigits(m) && Calendar.AllDigits(day)
    ensures Without(y + "-" + m + "-" + day, '-') == y + m + day
  {
    assert y + "-" + m + "-" + day == y + ("-" + (m + ("-" + day)));
    DigitsThenDash(y, m + ("-" + day));
    DigitsThenDash(m, day);
    WithoutNoDash(day);
    assert y + m + day == y + (m + day);
  }

  /** Removing dashes from digits, a dash and a rest keeps the digits and strips the rest. */
  lemma DigitsThenDash(x: string, rest: string)
    requires Calendar.AllDigits(x)
    ensures Without(x + ("-" + rest), '-') == x + Without(rest, '-')
  {
    WithoutNoDash(x);
    WithoutAppend(x, "-" + rest, '-');
    assert ("-" + rest)[0] == '-' && ("-" + rest)[1..] == rest;
  }

  lemma WithoutNoDash(s: string)
    requires Calendar.AllDigits(s)
    ensures Without(s, '-') == s
  {
  }

  lemma {:induction false} WithoutAppend(a: string, b: string, c: char)
    ensures Without(a + b, c) == Without(a, c) + Without(b, c)
  {
    if a != [] {
      assert (a + b)[0] == a[0] && (a + b)[1..] == a[1..] + b;
      WithoutAppend(a[1..], b, c);
    } else {
      assert a + b == b;
    }
  }

  lemma {:induction false} DigitsValueAppend(a: string, b: string)
    requires Calendar.AllDigits(a) && Calendar.AllDigits(b)
    ensures Calendar.AllDigits(a + b)
    ensures Calendar.DigitsValue(a + b) == Calendar.DigitsValue(a) * Calendar.Pow10(|b|) + Calendar.DigitsValue(b)
  {
    if b != [] {
      var n := |b| - 1;
      DigitsValueAppend(a, b[..n]);
      DigitsValueLast(a, b);
      ScaleStep(Calendar.DigitsValue(a), Calendar.DigitsValue(b[..n]), Calendar.Pow10(n), Calendar.DigitValue(b[n]));
    } else {
      assert a + b == a;
    }
  }

  /** Peeling the last digit off `a + b` peels it off `b`. */
  lemma DigitsValueLast(a: string, b: string)
    requires Calendar.AllDigits(a) && Calendar.AllDigits(b) && b != []
    ensures Calendar.AllDigits(a + b[..|b| - 1])
    ensures Calendar.DigitsValue(a + b) == 10 * Calendar.DigitsValue(a + b[..|b| - 1]) + Calendar.DigitValue(b[|b| - 1])
    ensures Calendar.DigitsValue(b) == 10 * Calendar.DigitsValue(b[..|b| - 1]) + Calendar.DigitValue(b[|b| - 1])
    ensures Calendar.Pow10(|b|) == 10 * Calendar.Pow10(|b| - 1)
  {
    assert (a + b)[..|a + b| - 1] == a + b[..|b| - 1];
    assert (a + b)[|a + b| - 1] == b[|b| - 1];
  }

  lemma ScaleStep(va: int, vb: int, p: int, d: int)
    ensures 10 * (va * p + vb) + d == va * (10 * p) + (10 * vb + d)
  {
  }

  /** codeClass: the badge class of an HTTP status code (section 15 of RFC 9110). */
  function CodeClass(code: int): (r: string)
    ensures r == "is-3xx" <==> 300 <= code < 400
    ensures r == "is-4xx" <==> 400 <= code < 500
    ensures r == "is-5xx" <==> code >= 500
    ensures r == "" <==> code < 300
  {
    if 300 <= code < 400 then "is-3xx"
    else if 400 <= code < 500 then "is-4xx"
    else if code >= 500 then "is-5xx"
    else ""
  }

  /** `replaceAll(c, rep)` for a one-character pattern. */
  function ReplaceChar(s: string, c: char, rep: string): (r: string)
    ensures c !in rep ==> c !in r
  {
    if s == [] then []
    else (if s[0] == c then rep else [s[0]]) + ReplaceChar(s[1..], c, rep)
  }

  /** escapeHtml: the five replacements, ampersand first. */
  function EscapeHtml(s: string): string {
    ReplaceChar(ReplaceChar(ReplaceChar(ReplaceChar(ReplaceChar(s, '&', "&amp;"), '<', "&lt;"), '>', "&gt;"), '"', "&quot;"), '\'', "&#039;")
  }

  /** The entity each character becomes, or the character itself. */
  function EscapeChar(c: char): (r: string)
    ensures '<' !in r && '>' !in r && '"' !in r && '\'' !in r
  {
    if c == '&' then "&amp;" else if c == '<' then "&lt;" else if c == '>' then "&gt;"
    else if c == '"' then "&quot;" else if c == '\'' then "&#039;" else [c]
  }

  function EscapeEach(s: string): (r: string)
    ensures '<' !in r && '>' !in r && '"' !in r && '\'' !in r
  {
    if s == [] then [] else EscapeChar(s[0]) + EscapeEach(s[1..])
  }

  lemma {:induction false} ReplaceCharAppend(a: string, b: string, c: char, rep: string)
    ensures ReplaceChar(a + b, c, rep) == ReplaceChar(a, c, rep) + ReplaceChar(b, c, rep)
  {
    if a != [] {
      assert (a + b)[0] == a[0] && (a + b)[1..] == a[1..] + b;
      ReplaceCharAppend(a[1..], b, c, rep);
      assert ReplaceChar(a + b, c, rep) == (if a[0] == c then rep else [a[0]]) + ReplaceChar(a[1..] + b, c, rep);
    } else {
      assert a + b == b;
    }
  }

  /** Replacing a character that does not occur changes nothing. */
  lemma {:induction false} ReplaceCharAbsent(s: string, c: char, rep: string)
    requires c !in s
    ensures ReplaceChar(s, c, rep) == s
  {
    if s != [] {
      ReplaceCharAbsent(s[1..], c, rep);
    }
  }

  /**
   * Because the ampersand is replaced first and no later entity contains a character replaced
   * after it, the chain escapes every character once: no entity is escaped again.
   */
  lemma {:induction false} EscapeHtmlPerChar(s: string)
    ensures EscapeHtml(s) == EscapeEach(s)
  {
    if s != [] {
      EscapeHtmlPerChar(s[1..]);
      var c := s[0];
      assert s == [c] + s[1..];
      ReplaceCharAppend([c], s[1..], '&', "&amp;");
      var a1 := ReplaceChar([c], '&', "&amp;");
      var b1 := ReplaceChar(s[1..], '&', "&amp;");
      ReplaceCharAppend(a1, b1, '<', "&lt;");
      var a2 := ReplaceChar(a1, '<', "&lt;");
      var b2 := ReplaceChar(b1, '<', "&lt;");
      ReplaceCharAppend(a2, b2, '>', "&gt;");
      var a3 := ReplaceChar(a2, '>', "&gt;");
      var b3 := ReplaceChar(b2, '>', "&gt;");
      ReplaceCharAppend(a3, b3, '"', "&quot;");
      var a4 := ReplaceChar(a3, '"', "&quot;");
      var b4 := ReplaceChar(b3, '"', "&quot;");
      ReplaceCharAppend(a4, b4, '\'', "&#039;");
      EscapeCharChain(c);
      assert EscapeHtml([c]) == ReplaceChar(a4, '\'', "&#039;");
    }
  }

  lemma ReplaceSingle(c: char, x: char, rep: string)
    ensures ReplaceChar([c], x, rep) == if c == x then rep else [c]
  {
    assert [c][1..] == [];
  }

  /** On one character the chain gives that character's entity, or the character itself. */
  lemma EscapeCharChain(c: char)
    ensures EscapeHtml([c]) == EscapeChar(c)
  {
    if c == '&' { EscapeAmp(); }
    else if c == '<' { EscapeLt(); }
    else if c == '>' { EscapeGt(); }
    else if c == '"' { EscapeQuot(); }
    else if c == '\'' { EscapeApos(); }
    else { EscapePlain(c); }
  }

  lemma EscapeAmp()
    ensures EscapeHtml("&") == "&amp;"
  {
    var amp := "&amp;";
    ReplaceSingle('&', '&', amp);
    assert amp == ['&', 'a', 'm', 'p', ';'];
    AmpUntouched('<', "&lt;");
    AmpUntouched('>', "&gt;");
    AmpUntouched('"', "&quot;");
    AmpUntouched('\'', "&#039;");
  }

  lemma AmpUntouched(c: char, rep: string)
    requires c != '&' && c != 'a' && c != 'm' && c != 'p' && c != ';'
    ensures ReplaceChar("&amp;", c, rep) == "&amp;"
  {
    assert "&amp;" == ['&', 'a', 'm', 'p', ';'];
    ReplaceCharAbsent("&amp;", c, rep);
  }

  lemma EscapeLt()
    ensures EscapeHtml("<") == "&lt;"
  {
    ReplaceSingle('<', '&', "&amp;");
    ReplaceSingle('<', '<', "&lt;");
    var lt := ReplaceChar(ReplaceChar("<", '&', "&amp;"), '<', "&lt;");
    assert lt == "&lt;";
    LaterUntouched(lt);
  }

  /** The last three replacements leave a text without `>`, `"` and `'` as it is. */
  lemma LaterUntouched(s: string)
    requires '>' !in s && '"' !in s && '\'' !in s
    ensures ReplaceChar(ReplaceChar(ReplaceChar(s, '>', "&gt;"), '"', "&quot;"), '\'', "&#039;") == s
  {
    ReplaceCharAbsent(s, '>', "&gt;");
    ReplaceCharAbsent(s, '"', "&quot;");
    ReplaceCharAbsent(s, '\'', "&#039;");
  }

  lemma EscapeGt()
    ensures EscapeHtml(">") == "&gt;"
  {
    ReplaceSingle('>', '&', "&amp;");
    ReplaceSingle('>', '<', "&lt;");
    ReplaceSingle('>', '>', "&gt;");
    ReplaceCharAbsent("&gt;", '"', "&quot;");
    ReplaceCharAbsent("&gt;", '\'', "&#039;");
  }

  lemma EscapeQuot()
    ensures EscapeHtml("\"") == "&quot;"
  {
    ReplaceSingle('"', '&', "&amp;");
    ReplaceSingle('"', '<', "&lt;");
    ReplaceSingle('"', '>', "&gt;");
    ReplaceSingle('"', '"', "&quot;");
    ReplaceCharAbsent("&quot;", '\'', "&#039;");
  }

  lemma EscapeApos()
    ensures EscapeHtml("'") == "&#039;"
  {
    ReplaceSingle('\'', '&', "&amp;");
    ReplaceSingle('\'', '<', "&lt;");
    ReplaceSingle('\'', '>', "&gt;");
    ReplaceSingle('\'', '"', "&quot;");
    ReplaceSingle('\'', '\'', "&#039;");
  }

  lemma EscapePlain(c: char)
    requires c != '&' && c != '<' && c != '>' && c != '"' && c != '\''
    ensures EscapeHtml([c]) == [c]
  {
    ReplaceSingle(c, '&', "&amp;");
    ReplaceSingle(c, '<', "&lt;");
    ReplaceSingle(c, '>', "&gt;");
    ReplaceSingle(c, '"', "&quot;");
    ReplaceSingle(c, '\'', "&#039;");
  }

  /** Escaped text has no raw markup characters left. */
  lemma EscapedHasNoMarkup(s: string)
    ensures '<' !in EscapeHtml(s) && '>' !in EscapeHtml(s) && '"' !in EscapeHtml(s) && '\'' !in EscapeHtml(s)
  {
    EscapeHtmlPerChar(s);
  }

  // ---------------------------------------------------------------------------------------
  // Filtering and searching

  /** A batch run as the list reads it (`start_at` may be missing). */
  datatype Run = Run(runId: int, startAt: Option<string>, stateCode: int)

  /** `r.start_at?.slice(0, 10) || ""`. */
  function DatePart(r: Run): string {
    if r.startAt.None? then "" else r.startAt.value[..if |r.startAt.value| < 10 then |r.startAt.value| else 10]
  }

  /** `dn >= s && dn <= e` on JavaScript numbers: false whenever a NaN takes part. */
  predicate Within(x: Num, lo: Num, hi: Num) {
    x.Num? && lo.Num? && hi.Num? && lo.v <= x.v <= hi.v
  }

  predicate Is2xx(code: int) { 200 <= code < 300 }

  predicate Listed(r: Run, s: Num, e: Num) {
    Within(ToDateNum(DatePart(r)), s, e) && !Is2xx(r.stateCode)
  }

  /**
   * filterByDate: the runs whose start date lies in [start, end] inclusive and whose state code
   * is not 2xx, in their original order.
   */
  function FilterByDate(runs: seq<Run>, startIso: string, endIso: string): (r: seq<Run>)
    ensures forall x :: x in r <==> x in runs && Listed(x, ToDateNum(startIso), ToDateNum(endIso))
    ensures |r| <= |runs|
  {
    var s, e := ToDateNum(startIso), ToDateNum(endIso);
    Filter(runs, x => Listed(x, s, e))
  }

  function RunIdKey(r: Run): real { r.runId as real }

  const PageSize: nat := 20

  function Min(a: int, b: int): int { if a < b then a else b }

  /** Start and stop of the re-run progress; `pct` is below 100 while it runs. */
  function ShownPct(pct: int): (r: int)
    ensures 0 <= r <= 100
    ensures 0 <= pct <= 100 ==> r == pct
  {
    if pct < 0 then 0 else if pct > 100 then 100 else pct
  }

  /** One five-second tick of the progress: the next percentage, or None when it finished. */
  function NextPct(pct: int, inc: int): (r: Option<int>)
    ensures r.Some? ==> r.value == pct + inc && r.value < 100
    ensures r.None? <==> pct + inc >= 100
  {
    if pct + inc >= 100 then None else Some(pct + inc)
  }

  /** The progress after a sequence of ticks, None once finished. */
  function AfterTicks(pct: int, incs: seq<int>): Option<int>
    decreases |incs|
  {
    if incs == [] then Some(pct)
    else
      var n := NextPct(pct, incs[0]);
      if n.None? then None else AfterTicks(n.value, incs[1..])
  }

  /** Every tick adds 8 to 20 percent, so a re-run started at 0 finishes within 13 ticks. */
  lemma FinishesWithinThirteenTicks(incs: seq<int>)
    requires |incs| == 13 && forall k :: 0 <= k < |incs| ==> 8 <= incs[k] <= 20
    ensures AfterTicks(0, incs) == None
  {
    TicksAdvance(0, incs);
  }

  lemma {:induction false} TicksAdvance(pct: int, incs: seq<int>)
    requires forall k :: 0 <= k < |incs| ==> 8 <= incs[k] <= 20
    ensures AfterTicks(pct, incs).Some? ==> AfterTicks(pct, incs).value >= pct + 8 * |incs|
    ensures incs != [] && AfterTicks(pct, incs).Some? ==> AfterTicks(pct, incs).value < 100
    decreases |incs|
  {
    if incs != [] {
      var n := NextPct(pct, incs[0]);
      if n.Some? {
        TicksAdvance(n.value, incs[1..]);
      }
    }
  }

  /**
   * The range doSearch uses: an empty input becomes today, and reversed dates are swapped so
   * that the start is not after the end.
   */
  function SearchRange(startInput: string, endInput: string, today: string): (r: (string, string))
    ensures {r.0, r.1} == {if startInput != "" then startInput else today, if endInput != "" then endInput else today}
    ensures (ToDateNum(r.0).Num? && ToDateNum(r.1).Num?) ==> ToDateNum(r.0).v <= ToDateNum(r.1).v
  {
    var s := if startInput != "" then startInput else today;
    var e := if endInput != "" then endInput else today;
    var sn, en := ToDateNum(s), ToDateNum(e);
    if sn.Num? && en.Num? && sn.v > en.v then (e, s) else (s, e)
  }

  /** What pressing the confirmation of a re-run did. */
  datatype RerunStart = NoRunSelected | AlreadyRunning | Started(runId: int)

  class RunsPage {
    var startInput: string
    var endInput: string
    var filtered: seq<Run>
    var page: nat
    var loading: bool
    var done: bool
    /** The rows appended to the table, in order. */
    var rows: seq<Run>
    var emptyShown: bool
    var selected: Option<Run>
    var running: bool
    var pct: int
    var activeRunId: Option<int>
    /** The mock runs the page lists. */
    const allRuns: seq<Run>

    /**
     * The table holds exactly the first `page` windows of the filtered runs, each once and
     * in order; once done it holds all of them. A re-run in progress has a run id and a
     * percentage below 100; otherwise the percentage is 0.
     */
    predicate Valid()
      reads this
    {
      rows == filtered[..Min(page * PageSize, |filtered|)]
      && (done ==> rows == filtered)
      && (running ==> 0 <= pct < 100 && activeRunId.Some?)
      && (!running ==> pct == 0 && activeRunId.None?)
    }

    constructor(allRuns: seq<Run>, today: string)
      ensures Valid() && this.allRuns == allRuns && startInput == today && endInput == today
      ensures rows == [] && !running && !loading && !done && selected == None
    {
      this.allRuns := allRuns;
      startInput, endInput := today, today;
      filtered, page, loading, done, rows := [], 0, false, false, [];
      emptyShown, selected := false, None;
      running, pct, activeRunId := false, 0, None;
    }

    /**
     * doSearch: an empty date input becomes today; reversed dates are swapped so that the
     * start is not after the end; the list restarts from the filtered runs, newest id first;
     * the first page is requested unless the list is empty.
     */
    method DoSearch(today: string)
      requires Valid()
      modifies this
      ensures Valid()
      ensures (startInput, endInput) == SearchRange(old(startInput), old(endInput), today)
      ensures filtered == Sorting.SortDesc(FilterByDate(allRuns, startInput, endInput), RunIdKey)
      ensures page == 0 && rows == [] && !done && selected == None
      ensures loading <==> filtered != []
      ensures emptyShown <==> filtered == []
      ensures running == old(running) && pct == old(pct) && activeRunId == old(activeRunId)
    {
      var range := SearchRange(startInput, endInput, today);
      var sorted := Sorting.SortDesc(FilterByDate(allRuns, range.0, range.1), RunIdKey);
      startInput, endInput := range.0, range.1;
      ResetList(sorted);
      if sorted == [] {
        emptyShown := true;
        return;
      }
      BeginLoad();
    }

    /** resetList: the list restarts empty over the given runs. */
    method ResetList(runs: seq<Run>)
      requires Valid()
      modifies this
      ensures Valid()
      ensures filtered == runs && page == 0 && rows == [] && !loading && !done && !emptyShown && selected == None
      ensures startInput == old(startInput) && endInput == old(endInput)
      ensures running == old(running) && pct == old(pct) && activeRunId == old(activeRunId)
    {
      filtered := runs;
      page, loading, done, rows, emptyShown, selected := 0, false, false, [], false, None;
    }

    /** loadNextPage: nothing while a page is loading or all are loaded; otherwise a load starts. */
    method BeginLoad()
      requires Valid()
      modifies this
      ensures Valid()
      ensures loading == (old(loading) || !old(done))
      ensures filtered == old(filtered) && rows == old(rows) && page == old(page) && done == old(done)
      ensures emptyShown == old(emptyShown) && selected == old(selected) && startInput == old(startInput) && endInput == old(endInput)
      ensures running == old(running) && pct == old(pct) && activeRunId == old(activeRunId)
    {
      if loading || done {
        return;
      }
      loading := true;
    }

    /**
     * The delayed half of loadNextPage: the next window of PAGE_SIZE filtered runs is appended;
     * an empty window, or one that reaches the end, marks the list done.
     */
    method FinishLoad()
      requires Valid() && loading
      modifies this
      ensures Valid() && !loading
      ensures filtered == old(filtered)
      ensures rows == filtered[..Min(old(page) * PageSize + PageSize, |filtered|)]
      ensures |rows| > |old(rows)| ==> page == old(page) + 1
      ensures done <==> (old(done) || old(page) * PageSize + PageSize >= |filtered|)
      ensures emptyShown == (old(emptyShown) || filtered == [])
      ensures selected == old(selected) && running == old(running) && pct == old(pct) && activeRunId == old(activeRunId)
      ensures startInput == old(startInput) && endInput == old(endInput)
    {
      var start := Min(page * PageSize, |filtered|);
      var end := Min(page * PageSize + PageSize, |filtered|);
      var slice := filtered[start..end];
      if |slice| == 0 {
        done := true;
        loading := false;
        if |filtered| == 0 {
          emptyShown := true;
        }
        return;
      }
      assert filtered[..end] == rows + slice;
      rows := rows + slice;
      page := page + 1;
      if page * PageSize >= |filtered| {
        done := true;
      }
      loading := false;
    }

    /** A row click opens the detail and selects that run. */
    method SelectRow(k: nat)
      requires Valid() && k < |rows|
      modifies this
      ensures rows == old(rows) && Valid() && selected == Some(rows[k])
      ensures filtered == old(filtered) && page == old(page) && done == old(done) && loading == old(loading)
      ensures running == old(running) && pct == old(pct) && activeRunId == old(activeRunId)
      ensures startInput == old(startInput) && endInput == old(endInput) && emptyShown == old(emptyShown)
    {
      selected := Some(rows[k]);
    }

    /**
     * startRerun: refused without a selected run or while one is running; otherwise the
     * selected run starts at 0%.
     */
    method StartRerun() returns (r: RerunStart)
      requires Valid()
      modifies this
      ensures Valid()
      ensures old(selected).None? ==> r == NoRunSelected && running == old(running) && pct == old(pct)
      ensures old(selected).Some? && old(running) ==> r == AlreadyRunning && running && pct == old(pct)
      ensures old(selected).Some? && !old(running) ==> r == Started(old(selected).value.runId) && running && pct == 0 && activeRunId == Some(r.runId)
      ensures !r.Started? ==> activeRunId == old(activeRunId)
      ensures rows == old(rows) && filtered == old(filtered) && selected == old(selected)
      ensures page == old(page) && done == old(done) && loading == old(loading) && emptyShown == old(emptyShown)
      ensures startInput == old(startInput) && endInput == old(endInput)
    {
      if selected.None? {
        return NoRunSelected;
      }
      if running {
        return AlreadyRunning;
      }
      running := true;
      activeRunId := Some(selected.value.runId);
      pct := 0;
      r := Started(selected.value.runId);
    }

    /**
     * One tick of the progress timer, which adds `inc` (8 to 20) percent. Reaching 100 stops
     * the run and resets the progress.
     */
    method Tick(inc: int)
      requires Valid() && running && 8 <= inc <= 20
      modifies this
      ensures Valid()
      ensures NextPct(old(pct), inc).None? ==> !running && pct == 0 && activeRunId == None
      ensures NextPct(old(pct), inc).Some? ==> running && pct == NextPct(old(pct), inc).value && activeRunId == old(activeRunId)
      ensures rows == old(rows) && filtered == old(filtered) && selected == old(selected)
      ensures page == old(page) && done == old(done) && loading == old(loading) && emptyShown == old(emptyShown)
      ensures startInput == old(startInput) && endInput == old(endInput)
    {
      pct := pct + inc;
      if pct >= 100 {
        running := false;
        pct := 0;
        activeRunId := None;
        return;
      }
    }

    /** updateRunRatePill: hidden when idle, otherwise the rounded percentage clamped to [0, 100]. */
    function PillPct(): (r: Option<int>)
      reads this
      requires Valid()
      ensures r.None? <==> !running
      ensures r.Some? ==> 0 <= r.value < 100 && r.value == pct
    {
      if !running then None else Some(ShownPct(pct))
    }
  }
}
