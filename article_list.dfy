/**
 * The three sentiment article lists of the trend section (TS2 in apps/service/static/main.js
 * and main_b.js): an optional client-side keyword filter, and one page number per sentiment
 * that `loadOne` clamps into the pages the server reports. The fetch itself is a parameter:
 * the items and total it returned, or nothing when every endpoint failed.
 */
module ArticleList {
  import opened Text

  const UiPageSize: nat := 10
  const DefaultKeyword: string := "주식"

  datatype Sent = Pos | Neu | Neg

  /** An article as `normalizeArticle` returns it; a missing field is "". */
  datatype Article = Article(press: string, title: string, summary: string)

  // ---------------------------------------------------------------------------------------
  // The keyword filter

  /** Press, title and summary joined by spaces. */
  function Raw(a: Article): string {
    a.press + " " + a.title + " " + a.summary
  }

  /** The text searched: the joined fields, each lower-cased. */
  function Haystack(a: Article): string {
    LowerAscii(a.press) + " " + LowerAscii(a.title) + " " + LowerAscii(a.summary)
  }

  /** Lower-casing the fields one by one is lower-casing the joined text. */
  lemma HaystackIsLowered(a: Article)
    ensures Haystack(a) == LowerAscii(Raw(a))
  {
    var h, r := Haystack(a), LowerAscii(Raw(a));
    var i, j := |a.press| + 1, |a.press| + 1 + |a.title| + 1;
    forall k | 0 <= k < |h| ensures h[k] == r[k] {
      if k < |a.press| {
        assert h[k] == LowerAscii(a.press)[k] && Raw(a)[k] == a.press[k];
      } else if k == |a.press| {
        assert h[k] == ' ' == Raw(a)[k];
      } else if k < i + |a.title| {
        assert h[k] == LowerAscii(a.title)[k - i] && Raw(a)[k] == a.title[k - i];
      } else if k == i + |a.title| {
        assert h[k] == ' ' == Raw(a)[k];
      } else {
        assert h[k] == LowerAscii(a.summary)[k - j] && Raw(a)[k] == a.summary[k - j];
      }
    }
  }

  /** The keyword as searched: `String(keyword || "").trim()`. */
  function Needle(keyword: Option<string>): string {
    if keyword.Some? then JsTrim(keyword.value) else ""
  }

  /**
   * `matchesKeyword`: everything matches when the filter is off or the keyword is blank;
   * otherwise the lower-cased keyword must occur in the lower-cased haystack.
   */
  function MatchesKeyword(enabled: bool, a: Article, keyword: Option<string>): (r: bool)
    ensures !enabled ==> r
    ensures keyword.None? || AllChars(keyword.value, JsSpace) ==> r
  {
    var kw := Needle(keyword);
    if !enabled || kw == "" then true
    else Contains(Haystack(a), LowerAscii(kw))
  }

  /** The haystack split around each field. */
  lemma HaystackParts(a: Article)
    ensures var lp, lt, ls := LowerAscii(a.press), LowerAscii(a.title), LowerAscii(a.summary);
      Haystack(a) == [] + lp + (" " + lt + " " + ls)
      && Haystack(a) == (lp + " ") + lt + (" " + ls)
      && Haystack(a) == (lp + " " + lt + " ") + ls + []
  {
    Regroup(LowerAscii(a.press), " ", LowerAscii(a.title), LowerAscii(a.summary));
  }

  lemma Regroup(x: string, sp: string, y: string, z: string)
    ensures x + sp + y + sp + z == [] + x + (sp + y + sp + z)
    ensures x + sp + y + sp + z == (x + sp) + y + (sp + z)
    ensures x + sp + y + sp + z == (x + sp + y + sp) + z + []
  {
  }

  /** Text found in a middle part is found in the whole. */
  lemma ContainsInJoin(before: string, x: string, after: string, t: string)
    requires Contains(x, t)
    ensures Contains(before + x + after, t)
  {
    var h := before + x + after;
    var k :| 0 <= k <= |x| - |t| && ContainsAt(x, t, k);
    forall m | 0 <= m < |t| ensures h[|before| + k + m] == t[m] {
      assert h[|before| + k + m] == x[k + m];
      assert x[k..k + |t|][m] == t[m];
    }
    assert h[|before| + k..|before| + k + |t|] == t;
    assert ContainsAt(h, t, |before| + k);
  }

  /** Text found in the middle part of the haystack makes the article match. */
  lemma MatchesAt(a: Article, keyword: string, before: string, x: string, after: string)
    requires Haystack(a) == before + x + after
    requires Contains(x, LowerAscii(JsTrim(keyword)))
    ensures MatchesKeyword(true, a, Some(keyword))
  {
    ContainsInJoin(before, x, after, LowerAscii(JsTrim(keyword)));
  }

  lemma PressMatches(a: Article, keyword: string)
    requires Contains(LowerAscii(a.press), LowerAscii(JsTrim(keyword)))
    ensures MatchesKeyword(true, a, Some(keyword))
  {
    HaystackParts(a);
    MatchesAt(a, keyword, [], LowerAscii(a.press), " " + LowerAscii(a.title) + " " + LowerAscii(a.summary));
  }

  lemma TitleMatches(a: Article, keyword: string)
    requires Contains(LowerAscii(a.title), LowerAscii(JsTrim(keyword)))
    ensures MatchesKeyword(true, a, Some(keyword))
  {
    HaystackParts(a);
    MatchesAt(a, keyword, LowerAscii(a.press) + " ", LowerAscii(a.title), " " + LowerAscii(a.summary));
  }

  lemma SummaryMatches(a: Article, keyword: string)
    requires Contains(LowerAscii(a.summary), LowerAscii(JsTrim(keyword)))
    ensures MatchesKeyword(true, a, Some(keyword))
  {
    HaystackParts(a);
    MatchesAt(a, keyword, LowerAscii(a.press) + " " + LowerAscii(a.title) + " ", LowerAscii(a.summary), []);
  }

  /**
   * The filter ignores ASCII case: an article whose press, title or summary contains the
   * trimmed keyword, both lower-cased, matches.
   */
  lemma FieldMatches(a: Article, keyword: string)
    requires Contains(LowerAscii(a.press), LowerAscii(JsTrim(keyword)))
      || Contains(LowerAscii(a.title), LowerAscii(JsTrim(keyword)))
      || Contains(LowerAscii(a.summary), LowerAscii(JsTrim(keyword)))
    ensures MatchesKeyword(true, a, Some(keyword))
  {
    var t := LowerAscii(JsTrim(keyword));
    if Contains(LowerAscii(a.press), t) {
      PressMatches(a, keyword);
    } else if Contains(LowerAscii(a.title), t) {
      TitleMatches(a, keyword);
    } else {
      SummaryMatches(a, keyword);
    }
  }

  // ---------------------------------------------------------------------------------------
  // One list's page

  /**
   * The articles shown: the filtered ones when the filter is on and keeps at least one,
   * otherwise all of them.
   */
  function Shown(enabled: bool, items: seq<Article>, keyword: Option<string>): seq<Article> {
    var filtered := Filter(items, a => MatchesKeyword(enabled, a, keyword));
    if enabled && |filtered| > 0 then filtered else items
  }

  /**
   * The list is never emptied by the filter: it is empty only when nothing was fetched. When
   * the filter is on and some article matches, exactly the matching articles are shown;
   * otherwise every fetched article is.
   */
  lemma ShownProperties(enabled: bool, items: seq<Article>, keyword: Option<string>)
    ensures var r := Shown(enabled, items, keyword);
      (r == [] <==> items == [])
      && |r| <= |items|
      && (enabled && (exists a :: a in items && MatchesKeyword(enabled, a, keyword)) ==>
            forall a :: a in r <==> a in items && MatchesKeyword(enabled, a, keyword))
      && (!(enabled && exists a :: a in items && MatchesKeyword(enabled, a, keyword)) ==> r == items)
  {
    var p := a => MatchesKeyword(enabled, a, keyword);
    var filtered := Filter(items, p);
    if |filtered| > 0 {
      assert p(filtered[0]) && filtered[0] in items;
    }
    if exists a :: a in items && MatchesKeyword(enabled, a, keyword) {
      var a :| a in items && MatchesKeyword(enabled, a, keyword);
      assert p(a);
      assert a in filtered;
    }
  }

  /** `Math.ceil(t / size)` for a positive size. */
  function CeilDiv(t: int, size: int): (q: int)
    requires size > 0
    ensures (q - 1) * size < t <= q * size
  {
    var f := (-t) / size;
    assert f * size <= -t < f * size + size;
    -f
  }

  /**
   * `totalPages`: the server's total, or the shown count when the total is 0, in pages of
   * ten, and at least one page.
   */
  function TotalPages(total: int, shownCount: nat): (n: int)
    ensures n >= 1
  {
    var t := if total != 0 then total else shownCount;
    var q := CeilDiv(t, UiPageSize);
    if q < 1 then 1 else q
  }

  /** Exactly as many pages as the count needs: the last page is neither missing nor empty. */
  lemma TotalPagesFit(total: int, shownCount: nat)
    ensures var t := if total != 0 then total else shownCount;
      var n := TotalPages(total, shownCount);
      (t <= 0 ==> n == 1) && (t > 0 ==> (n - 1) * UiPageSize < t <= n * UiPageSize)
  {
  }

  /** `Math.min(Math.max(1, page), totalPages)`. */
  function ClampPage(page: int, totalPages: int): (r: int)
    requires totalPages >= 1
    ensures 1 <= r <= totalPages
    ensures 1 <= page <= totalPages ==> r == page
    ensures page > totalPages ==> r == totalPages
    ensures page < 1 ==> r == 1
  {
    var p := if page < 1 then 1 else page;
    if p < totalPages then p else totalPages
  }

  /** What a load shows: the articles, the page and the page count, or the failure message. */
  datatype PageView = Page(show: seq<Article>, page: int, totalPages: int) | LoadFailed

  /** What `fetchSentiment` returned. */
  datatype Fetched = Fetched(items: seq<Article>, total: int)

  /** The page `loadOne` renders for a successful fetch of the requested page. */
  function PageOf(enabled: bool, keyword: Option<string>, requested: int, res: Fetched): (v: PageView)
    ensures v.Page? && 1 <= v.page <= v.totalPages
    ensures v.show == Shown(enabled, res.items, keyword)
  {
    var show := Shown(enabled, res.items, keyword);
    var totalPages := TotalPages(res.total, |show|);
    Page(show, ClampPage(requested, totalPages), totalPages)
  }

  // ---------------------------------------------------------------------------------------
  // The section's state

  /** Every sentiment has a page, and it is at least 1. */
  predicate PagesValid(pages: map<Sent, int>) {
    forall s: Sent :: s in pages && pages[s] >= 1
  }

  function FirstPages(): (m: map<Sent, int>)
    ensures PagesValid(m)
  {
    var m := map[Pos := 1, Neu := 1, Neg := 1];
    forall s: Sent ensures s in m && m[s] >= 1 {
      if s.Pos? {} else if s.Neu? {} else {}
    }
    m
  }

  /** `state.keyword` and `state.uiPage` of TS2; `enabled` is `ENABLE_KEYWORD_FILTER`. */
  class ArticleLists {
    const enabled: bool
    var keyword: Option<string>
    var uiPage: map<Sent, int>

    predicate Valid()
      reads this
    {
      PagesValid(uiPage)
    }

    /** The page asked for: `state.uiPage[sent] || 1`. */
    function Requested(sent: Sent): (p: int)
      reads this
      ensures Valid() ==> p == uiPage[sent]
    {
      if sent in uiPage && uiPage[sent] != 0 then uiPage[sent] else 1
    }

    constructor (enabled: bool)
      ensures Valid() && this.enabled == enabled
      ensures keyword == Some(DefaultKeyword) && uiPage == FirstPages()
    {
      this.enabled := enabled;
      keyword := Some(DefaultKeyword);
      uiPage := FirstPages();
    }

    /**
     * `loadOne`: after a successful fetch the page is clamped into the page count and
     * stored; after a failed one nothing changes and the pager shows 1 / 1.
     */
    method LoadOne(sent: Sent, response: Option<Fetched>) returns (view: PageView)
      requires Valid()
      modifies this
      ensures Valid() && keyword == old(keyword)
      ensures response.None? ==> view == LoadFailed && uiPage == old(uiPage)
      ensures response.Some? ==>
        view == PageOf(enabled, keyword, old(Requested(sent)), response.value)
        && uiPage == old(uiPage)[sent := view.page]
    {
      if response.None? {
        return LoadFailed;
      }
      view := PageOf(enabled, keyword, Requested(sent), response.value);
      uiPage := uiPage[sent := view.page];
    }

    /** The previous-page button: one page back, not below 1. */
    method PrevPage(sent: Sent)
      requires Valid()
      modifies this
      ensures Valid() && keyword == old(keyword)
      ensures uiPage == old(uiPage)[sent := if old(Requested(sent)) > 1 then old(Requested(sent)) - 1 else 1]
    {
      var p := Requested(sent) - 1;
      uiPage := uiPage[sent := if p > 1 then p else 1];
    }

    /** The next-page button: one page on; the next load clamps it. */
    method NextPage(sent: Sent)
      requires Valid()
      modifies this
      ensures Valid() && keyword == old(keyword)
      ensures uiPage == old(uiPage)[sent := old(Requested(sent)) + 1]
    {
      uiPage := uiPage[sent := Requested(sent) + 1];
    }

    /** `ts2Api.setKeyword`: a new keyword sends every list back to its first page. */
    method SetKeyword(kw: Option<string>)
      modifies this
      ensures Valid() && keyword == kw && uiPage == FirstPages()
    {
      keyword := kw;
      uiPage := FirstPages();
    }

    /** A range change sends every list back to its first page. */
    method RangeChanged()
      modifies this
      ensures Valid() && keyword == old(keyword) && uiPage == FirstPages()
    {
      uiPage := FirstPages();
    }
  }
}
