/**
 * The dashboard endpoints of the image module: the word-cloud lookup of one day's issue keyword
 * and the date x keyword pivot behind the keyword-trend chart. The search index is replaced by
 * the lookup result and the list of hits it returns.
 */
module Dashboard {
  import opened Text
  import opened Sorting

  // ---------------------------------------------------------------------------------------
  // issue_wordcloud

  datatype Lookup<T> = LookupFailed | Found(subKeywords: seq<T>, docId: Option<string>)

  datatype WordcloudResponse<T> = WordcloudResponse(status: int, success: bool, docId: Option<string>, subKeywords: seq<T>)

  /** `issue_wordcloud`: 404 when the lookup raises or finds no sub-keywords, else the sub-keywords. */
  function IssueWordcloud<T>(lookup: Lookup<T>): (r: WordcloudResponse<T>)
    ensures r.success <==> lookup.Found? && lookup.subKeywords != []
    ensures r.status == (if r.success then 200 else 404)
    ensures r.success ==> r.subKeywords == lookup.subKeywords && r.docId == lookup.docId
    ensures !r.success ==> r.subKeywords == []
    ensures lookup.LookupFailed? ==> r.docId.None?
    ensures lookup.Found? ==> r.docId == lookup.docId
  {
    match lookup
    case LookupFailed => WordcloudResponse(404, false, None, [])
    case Found(subs, docId) =>
      if subs == [] then WordcloudResponse(404, false, docId, [])
      else WordcloudResponse(200, true, docId, subs)
  }

  // ---------------------------------------------------------------------------------------
  // keyword_trend

  datatype TrendHit = TrendHit(date: string, keyword: string, count: int)

  /** `data_by_date` after the hits in order: a later hit for the same (date, keyword) overwrites. */
  function Pivot(hits: seq<TrendHit>): map<string, map<string, int>> {
    if hits == [] then map[]
    else
      var p := Pivot(hits[..|hits| - 1]);
      var h := hits[|hits| - 1];
      var row := if h.date in p then p[h.date] else map[];
      p[h.date := row[h.keyword := h.count]]
  }

  /** The count of the last hit for (date, keyword), if there is one. */
  function LastCount(hits: seq<TrendHit>, d: string, k: string): Option<int> {
    if hits == [] then None
    else if hits[|hits| - 1].date == d && hits[|hits| - 1].keyword == k then Some(hits[|hits| - 1].count)
    else LastCount(hits[..|hits| - 1], d, k)
  }

  function HitDates(hits: seq<TrendHit>): seq<string> {
    seq(|hits|, i requires 0 <= i < |hits| => hits[i].date)
  }

  function HitKeywords(hits: seq<TrendHit>): seq<string> {
    seq(|hits|, i requires 0 <= i < |hits| => hits[i].keyword)
  }

  /** The pivot has a row per hit date, and each cell holds the count of the last hit for it. */
  lemma {:induction false} PivotCells(hits: seq<TrendHit>)
    ensures forall d :: d in Pivot(hits) <==> d in HitDates(hits)
    ensures forall d, k :: (d in Pivot(hits) && k in Pivot(hits)[d]) <==> LastCount(hits, d, k).Some?
    ensures forall d, k :: d in Pivot(hits) && k in Pivot(hits)[d] ==> Pivot(hits)[d][k] == LastCount(hits, d, k).value
  {
    if hits != [] {
      var init := hits[..|hits| - 1];
      PivotCells(init);
      assert HitDates(hits) == HitDates(init) + [hits[|hits| - 1].date];
    }
  }

  /** A (date, keyword) cell has a count exactly when some hit is for it. */
  lemma {:induction false} LastCountHit(hits: seq<TrendHit>, d: string, k: string)
    ensures LastCount(hits, d, k).Some? <==> exists i :: 0 <= i < |hits| && hits[i].date == d && hits[i].keyword == k
  {
    if hits != [] {
      var init := hits[..|hits| - 1];
      LastCountHit(init, d, k);
      if exists i :: 0 <= i < |hits| && hits[i].date == d && hits[i].keyword == k {
        var i :| 0 <= i < |hits| && hits[i].date == d && hits[i].keyword == k;
        if i < |init| { assert init[i] == hits[i]; }
      }
    }
  }

  /**
   * The keywords of the pivot's rows are the hits' keywords: every hit's keyword is in its
   * date's row, and every keyword of a row comes from a hit.
   */
  lemma PivotKeywords(hits: seq<TrendHit>)
    ensures forall i :: 0 <= i < |hits| ==> hits[i].date in Pivot(hits) && hits[i].keyword in Pivot(hits)[hits[i].date]
    ensures forall d, k :: d in Pivot(hits) && k in Pivot(hits)[d] ==> k in HitKeywords(hits)
  {
    PivotCells(hits);
    forall i | 0 <= i < |hits| ensures hits[i].date in Pivot(hits) && hits[i].keyword in Pivot(hits)[hits[i].date] {
      LastCountHit(hits, hits[i].date, hits[i].keyword);
    }
    forall d, k | d in Pivot(hits) && k in Pivot(hits)[d] ensures k in HitKeywords(hits) {
      LastCountHit(hits, d, k);
      var i :| 0 <= i < |hits| && hits[i].date == d && hits[i].keyword == k;
      assert HitKeywords(hits)[i] == k;
    }
  }

  /** The loop that fills `data_by_date`. */
  method BuildPivot(hits: seq<TrendHit>) returns (data: map<string, map<string, int>>)
    ensures data == Pivot(hits)
  {
    data := map[];
    for i := 0 to |hits|
      invariant data == Pivot(hits[..i])
    {
      var h := hits[i];
      var row := if h.date in data then data[h.date] else map[];
      data := data[h.date := row[h.keyword := h.count]];
      assert hits[..i + 1][..i] == hits[..i];
    }
    assert hits[..|hits|] == hits;
  }

  /** A pivot cell, 0 when the date has no hit for the keyword. */
  function Cell(data: map<string, map<string, int>>, d: string, k: string): int {
    if d in data && k in data[d] then data[d][k] else 0
  }

  datatype TrendResponse =
    | QueryFailed                 // 500: the search raised
    | NoData                      // no hit in the range
    | Trend(dates: seq<string>, keywords: seq<string>, series: seq<seq<int>>)

  /**
   * `keyword_trend`: dates and keywords are the distinct ones of the hits in increasing order,
   * and the series of keyword `keywords[j]` holds one cell per date. `result` is None when the
   * search raised.
   */
  method KeywordTrend(result: Option<seq<TrendHit>>) returns (r: TrendResponse)
    ensures result.None? ==> r == QueryFailed
    ensures result == Some([]) ==> r == NoData
    ensures result.Some? && result.value != [] ==>
      r.Trend? && r.dates == SortedDistinct(HitDates(result.value))
      && r.keywords == SortedDistinct(HitKeywords(result.value))
      && |r.series| == |r.keywords|
      && forall j :: 0 <= j < |r.series| ==>
           |r.series[j]| == |r.dates|
           && forall i :: 0 <= i < |r.dates| ==> r.series[j][i] == Cell(Pivot(result.value), r.dates[i], r.keywords[j])
  {
    if result.None? {
      return QueryFailed;
    }
    var hits := result.value;
    if hits == [] {
      return NoData;
    }
    var data := BuildPivot(hits);
    var dates := SortedDistinct(HitDates(hits));
    var keywords := SortedDistinct(HitKeywords(hits));
    var series: seq<seq<int>> := [];
    for j := 0 to |keywords|
      invariant |series| == j
      invariant forall t :: 0 <= t < j ==>
        |series[t]| == |dates| && forall i :: 0 <= i < |dates| ==> series[t][i] == Cell(data, dates[i], keywords[t])
    {
      var row := seq(|dates|, i requires 0 <= i < |dates| => Cell(data, dates[i], keywords[j]));
      series := series + [row];
    }
    r := Trend(dates, keywords, series);
  }

  /**
   * What the chart receives: strictly increasing dates and keywords, exactly those of the hits;
   * a cell is the count of the last hit for its (date, keyword), or 0 when there is none.
   */
  lemma TrendProperties(hits: seq<TrendHit>)
    ensures var dates, keywords := SortedDistinct(HitDates(hits)), SortedDistinct(HitKeywords(hits));
      StrictlySorted(dates) && StrictlySorted(keywords)
      && (forall d :: d in dates <==> d in HitDates(hits))
      && (forall k :: k in keywords <==> k in HitKeywords(hits))
    ensures forall d, k :: Cell(Pivot(hits), d, k) == (if LastCount(hits, d, k).Some? then LastCount(hits, d, k).value else 0)
  {
    SortedDistinctProperties(HitDates(hits));
    SortedDistinctProperties(HitKeywords(hits));
    PivotCells(hits);
  }

  /** Two hits for the same cell: the later count is the one shown. */
  lemma LaterHitWins(d: string, k: string, a: int, b: int)
    ensures Cell(Pivot([TrendHit(d, k, a), TrendHit(d, k, b)]), d, k) == b
  {
    var hits := [TrendHit(d, k, a), TrendHit(d, k, b)];
    assert hits[..1] == [TrendHit(d, k, a)];
    assert [TrendHit(d, k, a)][..0] == [];
  }
}
