/**
 * The Naver news crawler: list pages of one day are read page by page into a de-duplicated
 * list of article links; each link already in the index is skipped, the others are parsed,
 * dropped when published on another day, and buffered into bulk writes of 200. The browser,
 * the index and the parser are inputs: `pages` are the `href`s each list page shows, `join`
 * is `urljoin` against the page URL, `existing` says whether a link's article id is already
 * indexed and `parse` gives the parsed document of a link, or None when parsing raises.
 */
module NaverCrawler {
  import opened Text
  import opened Calendar

  // ---------------------------------------------------------------------------------------
  // normalize_published_at

  /** Every space becomes `T`. */
  function SpacesToT(s: string): (r: string)
    ensures |r| == |s| && forall i :: 0 <= i < |s| ==> r[i] == (if s[i] == ' ' then 'T' else s[i])
  {
    seq(|s|, i requires 0 <= i < |s| => if s[i] == ' ' then 'T' else s[i])
  }

  /**
   * `normalize_published_at`: None, "" and blank text give None; a stripped value with a `T`
   * is kept; otherwise its spaces become `T` (`2025-12-17 09:31:00` to `2025-12-17T09:31:00`).
   */
  function NormalizePublishedAt(dt: Option<string>): Option<string> {
    if dt.None? || dt.value == "" then None
    else
      var t := PyStrip(dt.value);
      if t == "" then None
      else if 'T' in t then Some(t)
      else Some(SpacesToT(t))
  }

  /**
   * The result is None exactly for a missing or blank value. A value with a `T` comes back
   * stripped; one without has each space, and only each space, turned into `T`. Normalising
   * twice is normalising once.
   */
  lemma NormalizePublishedAtProperties(dt: Option<string>)
    ensures NormalizePublishedAt(dt).None? <==> dt.None? || AllChars(dt.value, PySpace)
    ensures dt.Some? && 'T' in PyStrip(dt.value) ==> NormalizePublishedAt(dt) == Some(PyStrip(dt.value))
    ensures dt.Some? && 'T' !in PyStrip(dt.value) && NormalizePublishedAt(dt).Some? ==>
      var t, r := PyStrip(dt.value), NormalizePublishedAt(dt).value;
      |r| == |t| && ' ' !in r && forall i :: 0 <= i < |r| ==> (r[i] == 'T' <==> t[i] == ' ')
    ensures NormalizePublishedAt(NormalizePublishedAt(dt)) == NormalizePublishedAt(dt)
  {
    if dt.Some? && PyStrip(dt.value) != "" {
      var t := PyStrip(dt.value);
      var r := NormalizePublishedAt(dt).value;
      assert r[0] != ' ' && r[|r| - 1] != ' ';
      assert !PySpace(r[0]) && !PySpace(r[|r| - 1]) by {
        assert r[0] == t[0] && r[|r| - 1] == t[|t| - 1];
      }
      StripTrimmed(r, PySpace);
      if 'T' !in t {
        if ' ' in t {
          var i :| 0 <= i < |t| && t[i] == ' ';
          assert r[i] == 'T';
        } else {
          assert SpacesToT(r) == r;
        }
      }
    }
  }

  // ---------------------------------------------------------------------------------------
  // clean_doc_for_es

  /** A document as parsed: each field a string or None. */
  type RawDoc = map<string, Option<string>>

  /** A document as written: no None and no empty field. */
  type Doc = map<string, string>

  /** `clean_doc_for_es`: drop the fields whose value is None or "". */
  function CleanDocForEs(doc: RawDoc): (r: Doc)
  {
    map k | k in doc && doc[k].Some? && doc[k].value != "" :: doc[k].value
  }

  function AsRaw(doc: Doc): RawDoc {
    map k | k in doc :: Some(doc[k])
  }

  /**
   * Exactly the None and "" fields go; every other field keeps its value, so the result has
   * no empty field and cleaning it again changes nothing.
   */
  lemma CleanDocForEsProperties(doc: RawDoc)
    ensures forall k :: k in CleanDocForEs(doc) <==> k in doc && doc[k] != None && doc[k] != Some("")
    ensures forall k :: k in CleanDocForEs(doc) ==> doc[k] == Some(CleanDocForEs(doc)[k]) && CleanDocForEs(doc)[k] != ""
    ensures CleanDocForEs(AsRaw(CleanDocForEs(doc))) == CleanDocForEs(doc)
  {
    var r := CleanDocForEs(doc);
    assert CleanDocForEs(AsRaw(r)) == r by {
      assert forall k :: k in CleanDocForEs(AsRaw(r)) <==> k in r;
    }
  }

  // ---------------------------------------------------------------------------------------
  // collect_article_links

  /** The three article URL shapes, old desktop, new desktop and mobile. */
  const ArticlePatterns: seq<string> :=
    ["news.naver.com/main/read.naver", "n.news.naver.com/article/", "n.news.naver.com/mnews/article/"]

  predicate IsArticleUrl(url: string) {
    Contains(url, ArticlePatterns[0]) || Contains(url, ArticlePatterns[1]) || Contains(url, ArticlePatterns[2])
  }

  /** The absolute article URLs of a page's `href`s, in page order; a missing or empty `href` is passed over. */
  function ArticleUrls(hrefs: seq<Option<string>>, join: string -> string): (r: seq<string>)
  {
    if hrefs == [] then []
    else
      var h := hrefs[|hrefs| - 1];
      ArticleUrls(hrefs[..|hrefs| - 1], join)
        + (if h.Some? && h.value != "" && IsArticleUrl(join(h.value)) then [join(h.value)] else [])
  }

  /** Only article URLs are kept, and every article URL the page links to is kept. */
  lemma {:induction false} ArticleUrlsProperties(hrefs: seq<Option<string>>, join: string -> string)
    ensures forall u :: u in ArticleUrls(hrefs, join) ==> IsArticleUrl(u)
    ensures forall i :: 0 <= i < |hrefs| && hrefs[i].Some? && hrefs[i].value != "" && IsArticleUrl(join(hrefs[i].value))
              ==> join(hrefs[i].value) in ArticleUrls(hrefs, join)
  {
    if hrefs != [] {
      var n := |hrefs| - 1;
      ArticleUrlsProperties(hrefs[..n], join);
      forall i | 0 <= i < n ensures hrefs[i] == hrefs[..n][i] { }
    }
  }

  /**
   * `collect_article_links`: a page without any list anchor makes the 15-second wait raise
   * `TimeoutException` (None); otherwise the article URLs of the page, each once, in first-seen order.
   */
  method CollectArticleLinks(hrefs: seq<Option<string>>, join: string -> string) returns (links: Option<seq<string>>)
    ensures links.None? <==> hrefs == []
    ensures links.Some? ==> links.value == Dedup(ArticleUrls(hrefs, join))
  {
    if hrefs == [] {
      return None;
    }
    var found: seq<string> := [];
    for i := 0 to |hrefs|
      invariant found == ArticleUrls(hrefs[..i], join)
    {
      assert hrefs[..i + 1][..i] == hrefs[..i];
      var h := hrefs[i];
      if h.None? || h.value == "" {
        continue;
      }
      var url := join(h.value);
      if IsArticleUrl(url) {
        found := found + [url];
      }
    }
    assert hrefs[..|hrefs|] == hrefs;
    links := Some(Dedup(found));
  }

  // ---------------------------------------------------------------------------------------
  // collect_all_links_for_date

  /** List page `q + 1` shows no list anchor at all; a page past the last one shows none. */
  predicate NoAnchors(pages: seq<seq<Option<string>>>, q: nat) {
    q >= |pages| || pages[q] == []
  }

  /** The links of list page `q + 1`; a page past the last one shows none. */
  function Listing(pages: seq<seq<Option<string>>>, join: string -> string, q: nat): seq<string> {
    if q < |pages| then Dedup(ArticleUrls(pages[q], join)) else []
  }

  /** The listings of the first `n` pages. */
  function Listed(pages: seq<seq<Option<string>>>, join: string -> string, n: nat): (r: seq<seq<string>>)
    ensures |r| == n
  {
    seq(n, q requires 0 <= q < n => Listing(pages, join, q))
  }

  /** Page `q` brings a link that no earlier page had. */
  predicate AddsLink(pages: seq<seq<Option<string>>>, join: string -> string, q: nat) {
    exists u :: u in Listing(pages, join, q) && u !in Flatten(Listed(pages, join, q))
  }

  /** The inner loop over one page's links: the new ones are appended, `added` counts them. */
  method AddNewLinks(all: seq<string>, seen: set<string>, links: seq<string>, ghost before: seq<string>)
    returns (all': seq<string>, seen': set<string>, added: nat)
    requires all == Dedup(before) && forall u :: u in seen <==> u in before
    ensures all' == Dedup(before + links) && forall u :: u in seen' <==> u in before + links
    ensures added == 0 <==> forall u :: u in links ==> u in before
  {
    all', seen', added := all, seen, 0;
    assert before + links[..0] == before;
    for j := 0 to |links|
      invariant AddInv(before, links[..j], all', seen', added)
    {
      var u := links[j];
      assert links[..j + 1] == links[..j] + [u];
      AddInvStep(before, links[..j], u, all', seen', added);
      if u !in seen' {
        seen' := seen' + {u};
        all' := all' + [u];
        added := added + 1;
      }
    }
    assert links[..|links|] == links;
  }

  /** The inner loop's invariant after the links `taken`. */
  ghost predicate AddInv(before: seq<string>, taken: seq<string>, all: seq<string>, seen: set<string>, added: nat) {
    all == Dedup(before + taken) && (forall u :: u in seen <==> u in before + taken)
    && (added == 0 <==> forall u :: u in taken ==> u in before)
  }

  /** Taking link `u`: appended and counted exactly when it was not seen. */
  lemma AddInvStep(before: seq<string>, taken: seq<string>, u: string, all: seq<string>, seen: set<string>, added: nat)
    requires AddInv(before, taken, all, seen, added)
    ensures u !in seen ==> AddInv(before, taken + [u], all + [u], seen + {u}, added + 1)
    ensures u in seen ==> AddInv(before, taken + [u], all, seen, added)
  {
    assert before + (taken + [u]) == (before + taken) + [u];
    DedupStep(before + taken, u);
  }

  /** The loop ends after page `q + 1`: it had no links or added none. */
  predicate StopsAt(pages: seq<seq<Option<string>>>, join: string -> string, q: nat) {
    Listing(pages, join, q) == [] || !AddsLink(pages, join, q)
  }

  /** For each list page that exists, whether the loop ends after it; every later page ends it. */
  function Stops(pages: seq<seq<Option<string>>>, join: string -> string): (r: seq<bool>)
    ensures |r| == |pages|
  {
    seq(|pages|, q requires 0 <= q < |pages| => StopsAt(pages, join, q))
  }

  /** Whether the loop ends after page `q + 1`; a page past the last one has no links. */
  predicate StopAt(stops: seq<bool>, q: nat) {
    q >= |stops| || stops[q]
  }

  /** The number of pages opened from page `q + 1` on, at most up to `max_pages`. */
  function VisitedFrom(stops: seq<bool>, maxPages: int, q: nat): nat
    decreases if maxPages > q then maxPages - q else 0
  {
    if q >= maxPages then q
    else if StopAt(stops, q) then q + 1
    else VisitedFrom(stops, maxPages, q + 1)
  }

  function PagesVisited(pages: seq<seq<Option<string>>>, join: string -> string, maxPages: int): nat {
    VisitedFrom(Stops(pages, join), maxPages, 0)
  }

  /** The last page opened had no list anchor, so the collection raised `TimeoutException` there. */
  predicate CollectionTimesOut(pages: seq<seq<Option<string>>>, join: string -> string, maxPages: int) {
    var v := PagesVisited(pages, join, maxPages);
    v > 0 && NoAnchors(pages, v - 1)
  }

  /** The links `collect_all_links_for_date` returns: those of the visited pages, each once. */
  function CollectedLinks(pages: seq<seq<Option<string>>>, join: string -> string, maxPages: int): seq<string> {
    Dedup(Flatten(Listed(pages, join, PagesVisited(pages, join, maxPages))))
  }

  lemma {:induction false} VisitedFromProperties(stops: seq<bool>, maxPages: int, q: nat)
    ensures var v := VisitedFrom(stops, maxPages, q);
      q <= v && (q < maxPages ==> v <= maxPages)
      && (forall p :: q <= p < v - 1 ==> !StopAt(stops, p))
      && (v < maxPages ==> v > q && StopAt(stops, v - 1))
    decreases if maxPages > q then maxPages - q else 0
  {
    if q < maxPages && !StopAt(stops, q) {
      VisitedFromProperties(stops, maxPages, q + 1);
      if q + 1 >= maxPages {
        assert VisitedFrom(stops, maxPages, q) == q + 1;
      }
    }
  }

  /** A page past the last one has no links, so the loop ends there. */
  lemma StopsAtFacts(pages: seq<seq<Option<string>>>, join: string -> string, q: nat)
    ensures StopsAt(pages, join, q) <==> StopAt(Stops(pages, join), q)
  {
  }

  /**
   * At most `max_pages` pages are opened; every page before the last one opened had links
   * and added a new one; when fewer than `max_pages` were opened, the last one had no links
   * or added none.
   */
  lemma PagesVisitedProperties(pages: seq<seq<Option<string>>>, join: string -> string, maxPages: int)
    ensures var v := PagesVisited(pages, join, maxPages);
      v <= (if maxPages > 0 then maxPages else 0)
      && (forall q :: 0 <= q < v - 1 ==> !StopsAt(pages, join, q))
      && (v < maxPages ==> v > 0 && StopsAt(pages, join, v - 1))
  {
    var stops := Stops(pages, join);
    VisitedFromProperties(stops, maxPages, 0);
    var v := PagesVisited(pages, join, maxPages);
    forall q | 0 <= q < v - 1 ensures !StopsAt(pages, join, q) {
      assert !StopAt(stops, q);
      StopsAtFacts(pages, join, q);
    }
    if v < maxPages {
      StopsAtFacts(pages, join, v - 1);
    }
  }

  /** The links are distinct, exactly those of the opened pages, in the order they were first seen. */
  lemma CollectedLinksProperties(pages: seq<seq<Option<string>>>, join: string -> string, maxPages: int)
    ensures var links, all := CollectedLinks(pages, join, maxPages), Flatten(Listed(pages, join, PagesVisited(pages, join, maxPages)));
      (forall i, j :: 0 <= i < j < |links| ==> links[i] != links[j])
      && (forall u :: u in links <==> u in all)
      && (forall i, j :: 0 <= i < j < |links| ==> FirstIndex(all, links[i]) < FirstIndex(all, links[j]))
  {
    DedupProperties(Flatten(Listed(pages, join, PagesVisited(pages, join, maxPages))));
  }

  /** A page without list anchors has no links, so the loop ends after it. */
  lemma NoAnchorsStops(pages: seq<seq<Option<string>>>, join: string -> string, q: nat)
    requires NoAnchors(pages, q)
    ensures Listing(pages, join, q) == []
  {
    if q < |pages| {
      assert ArticleUrls(pages[q], join) == [];
    }
  }

  /**
   * When the collection times out, every page before the last one opened had list anchors:
   * the timeout is that of the last page alone.
   */
  lemma CollectionTimesOutProperties(pages: seq<seq<Option<string>>>, join: string -> string, maxPages: int)
    ensures var v := PagesVisited(pages, join, maxPages);
      forall q: nat :: q + 1 < v ==> !NoAnchors(pages, q)
    ensures CollectionTimesOut(pages, join, maxPages) ==> maxPages > 0 && PagesVisited(pages, join, maxPages) <= maxPages
  {
    PagesVisitedProperties(pages, join, maxPages);
    var v := PagesVisited(pages, join, maxPages);
    forall q: nat | q + 1 < v ensures !NoAnchors(pages, q) {
      if NoAnchors(pages, q) {
        NoAnchorsStops(pages, join, q);
        assert StopsAt(pages, join, q);
      }
    }
  }

  /**
   * The page loop's invariant: the links and the `seen` set are those of the pages opened; while
   * the loop goes on, the rest of the run opens the pages `PagesVisited` counts; `timedOut` says
   * that the last page opened had no list anchor.
   */
  ghost predicate CollectInv(pages: seq<seq<Option<string>>>, join: string -> string, maxPages: int,
                             all: seq<string>, seen: set<string>, visited: nat, stop: bool, timedOut: bool) {
    LinksSoFar(pages, join, all, seen, visited) && PagesSoFar(pages, join, maxPages, visited, stop, timedOut)
  }

  /** The links and the `seen` set are those of the first `visited` pages. */
  ghost predicate LinksSoFar(pages: seq<seq<Option<string>>>, join: string -> string,
                             all: seq<string>, seen: set<string>, visited: nat) {
    all == Dedup(Flatten(Listed(pages, join, visited)))
    && (forall u :: u in seen <==> u in Flatten(Listed(pages, join, visited)))
  }

  /** Where the page loop stands against the number of pages the run opens. */
  predicate PagesSoFar(pages: seq<seq<Option<string>>>, join: string -> string, maxPages: int,
                       visited: nat, stop: bool, timedOut: bool) {
    (!stop ==> VisitedFrom(Stops(pages, join), maxPages, visited) == PagesVisited(pages, join, maxPages))
    && (stop ==> visited == PagesVisited(pages, join, maxPages))
    && (timedOut ==> stop && visited > 0 && NoAnchors(pages, visited - 1))
    && (!timedOut && visited > 0 ==> !NoAnchors(pages, visited - 1))
  }

  /** Page `q + 1`, opened while the loop goes on, either ends the loop there or hands it on. */
  lemma VisitedStep(pages: seq<seq<Option<string>>>, join: string -> string, maxPages: int, q: nat)
    requires q < maxPages
    ensures StopsAt(pages, join, q) ==> VisitedFrom(Stops(pages, join), maxPages, q) == q + 1
    ensures !StopsAt(pages, join, q) ==> VisitedFrom(Stops(pages, join), maxPages, q) == VisitedFrom(Stops(pages, join), maxPages, q + 1)
  {
    StopsAtFacts(pages, join, q);
  }

  /** A page without list anchors ends the loop, timed out, with the links unchanged. */
  lemma TimedOutStep(pages: seq<seq<Option<string>>>, join: string -> string, maxPages: int,
                     all: seq<string>, seen: set<string>, visited: nat)
    requires visited < maxPages && CollectInv(pages, join, maxPages, all, seen, visited, false, false)
    requires NoAnchors(pages, visited)
    ensures CollectInv(pages, join, maxPages, all, seen, visited + 1, true, true)
  {
    NoAnchorsStops(pages, join, visited);
    VisitedStep(pages, join, maxPages, visited);
    FlattenAppend(Listed(pages, join, visited), []);
    assert Listed(pages, join, visited + 1) == Listed(pages, join, visited) + [[]];
    assert Flatten(Listed(pages, join, visited)) + [] == Flatten(Listed(pages, join, visited));
  }

  /** The links of pages 1 to `q + 1` are those of pages 1 to `q` followed by page `q + 1`'s. */
  lemma ListedStep(pages: seq<seq<Option<string>>>, join: string -> string, q: nat)
    ensures Flatten(Listed(pages, join, q + 1)) == Flatten(Listed(pages, join, q)) + Listing(pages, join, q)
  {
    assert Listed(pages, join, q + 1) == Listed(pages, join, q) + [Listing(pages, join, q)];
    FlattenAppend(Listed(pages, join, q), Listing(pages, join, q));
  }

  /** The loop's stop test, no links or no link added, is the stop of `StopsAt`. */
  lemma AddedStops(pages: seq<seq<Option<string>>>, join: string -> string, q: nat, added: nat)
    requires added == 0 <==> forall u :: u in Listing(pages, join, q) ==> u in Flatten(Listed(pages, join, q))
    ensures (Listing(pages, join, q) == [] || added == 0) <==> StopsAt(pages, join, q)
  {
  }

  /** A page with list anchors ends the loop when it has no links or adds none, and the new links are taken. */
  lemma LinksStep(pages: seq<seq<Option<string>>>, join: string -> string, maxPages: int,
                  all: seq<string>, seen: set<string>, visited: nat, all': seq<string>, seen': set<string>, added: nat)
    requires visited < maxPages && CollectInv(pages, join, maxPages, all, seen, visited, false, false)
    requires !NoAnchors(pages, visited)
    requires var links, before := Listing(pages, join, visited), Flatten(Listed(pages, join, visited));
      all' == Dedup(before + links) && (forall u :: u in seen' <==> u in before + links)
      && (added == 0 <==> forall u :: u in links ==> u in before)
    ensures CollectInv(pages, join, maxPages, all', seen', visited + 1, Listing(pages, join, visited) == [] || added == 0, false)
  {
    ListedStep(pages, join, visited);
    AddedStops(pages, join, visited, added);
    PagesStep(pages, join, maxPages, visited, Listing(pages, join, visited) == [] || added == 0);
  }

  /** The page loop's position after page `visited + 1`, which had list anchors, was opened. */
  lemma PagesStep(pages: seq<seq<Option<string>>>, join: string -> string, maxPages: int, visited: nat, stop: bool)
    requires visited < maxPages && PagesSoFar(pages, join, maxPages, visited, false, false)
    requires !NoAnchors(pages, visited) && (stop <==> StopsAt(pages, join, visited))
    ensures PagesSoFar(pages, join, maxPages, visited + 1, stop, false)
  {
    VisitedStep(pages, join, maxPages, visited);
  }

  /** One turn of the page loop: open page `visited + 1` and take its new links. */
  method OpenPage(pages: seq<seq<Option<string>>>, join: string -> string, maxPages: int,
                  all: seq<string>, seen: set<string>, visited: nat)
    returns (all': seq<string>, seen': set<string>, visited': nat, stop: bool, timedOut: bool)
    requires visited < maxPages && CollectInv(pages, join, maxPages, all, seen, visited, false, false)
    ensures visited' == visited + 1 && CollectInv(pages, join, maxPages, all', seen', visited', stop, timedOut)
  {
    visited' := visited + 1;
    var page: seq<Option<string>> := if visited < |pages| then pages[visited] else [];
    var got := CollectArticleLinks(page, join);
    if got.None? {
      TimedOutStep(pages, join, maxPages, all, seen, visited);
      return all, seen, visited', true, true;
    }
    var links := got.value;
    ghost var before := Flatten(Listed(pages, join, visited));
    var added := 0;
    if links == [] {
      assert before + links == before;
      all', seen' := all, seen;
    } else {
      all', seen', added := AddNewLinks(all, seen, links, before);
    }
    stop, timedOut := links == [] || added == 0, false;
    LinksStep(pages, join, maxPages, all, seen, visited, all', seen', added);
  }

  /**
   * `collect_all_links_for_date`: pages 1 to `max_pages` in turn. `visited` is the number of
   * pages opened; the links are None when a page's wait raised `TimeoutException`.
   */
  method CollectAllLinksForDate(pages: seq<seq<Option<string>>>, join: string -> string, maxPages: int)
    returns (allLinks: Option<seq<string>>, visited: nat)
    ensures visited == PagesVisited(pages, join, maxPages)
    ensures allLinks.None? <==> CollectionTimesOut(pages, join, maxPages)
    ensures allLinks.Some? ==> allLinks.value == CollectedLinks(pages, join, maxPages)
  {
    var all: seq<string> := [];
    visited := 0;
    var seen: set<string> := {};
    var stop, timedOut := false, false;
    while visited < maxPages && !stop
      invariant CollectInv(pages, join, maxPages, all, seen, visited, stop, timedOut)
      decreases maxPages - visited, if stop then 0 else 1
    {
      all, seen, visited, stop, timedOut := OpenPage(pages, join, maxPages, all, seen, visited);
    }
    CollectDone(pages, join, maxPages, all, seen, visited, stop, timedOut);
    allLinks := if timedOut then None else Some(all);
  }

  /** When the page loop ends, its variables hold the result `collect_all_links_for_date` returns. */
  lemma CollectDone(pages: seq<seq<Option<string>>>, join: string -> string, maxPages: int,
                    all: seq<string>, seen: set<string>, visited: nat, stop: bool, timedOut: bool)
    requires CollectInv(pages, join, maxPages, all, seen, visited, stop, timedOut)
    requires stop || visited >= maxPages
    ensures visited == PagesVisited(pages, join, maxPages)
    ensures timedOut <==> CollectionTimesOut(pages, join, maxPages)
    ensures all == CollectedLinks(pages, join, maxPages)
  {
    if !stop {
      assert VisitedFrom(Stops(pages, join), maxPages, visited) == visited;
    }
  }

  // ---------------------------------------------------------------------------------------
  // crawl_one_date / crawl_naver_news

  /** Python's `s[i:j]` for `0 <= i <= j`: clipped to the text. */
  function Slice(s: string, i: nat, j: nat): (r: string)
    requires i <= j
    ensures |s| >= j ==> r == s[i..j]
  {
    if |s| <= i then "" else if |s| <= j then s[i..] else s[i..j]
  }

  /** `target_prefix`: `YYYY-MM-DD` from the `YYYYMMDD` request date. */
  function TargetPrefix(date: string): string {
    Slice(date, 0, 4) + "-" + Slice(date, 4, 6) + "-" + Slice(date, 6, 8)
  }

  /** The `YYYYMMDD` text of a date. */
  function CompactDate(d: Date): (s: string)
    requires Valid(d) && d.year < 10000
  {
    Pad(d.year, 4) + Pad(d.month, 2) + Pad(d.day, 2)
  }

  /** For the compact text of a date the prefix is that date's `YYYY-MM-DD`. */
  lemma TargetPrefixIsIsoDate(d: Date)
    requires Valid(d) && d.year < 10000
    ensures TargetPrefix(CompactDate(d)) == IsoDate(d)
  {
    var c := CompactDate(d);
    assert c[0..4] == Pad(d.year, 4) && c[4..6] == Pad(d.month, 2) && c[6..8] == Pad(d.day, 2);
  }

  /** A document is kept unless it has a `published_at` that does not start with the prefix. */
  predicate OnDate(doc: Doc, prefix: string) {
    !("published_at" in doc && doc["published_at"] != "" && !StartsWith(doc["published_at"], prefix))
  }

  /** What happens to one link: `es_exists` raises, or the link is skipped, fails, is dropped or kept. */
  datatype Outcome = LookupRaises | Skip | Fail | Drop | Keep(doc: Doc)

  /**
   * What the loop does with one link. `existing` is `es_exists` on the link's article id:
   * whether it is indexed, or None when the lookup raises.
   */
  function LinkOutcome(url: string, existing: string -> Option<bool>, parse: string -> Option<RawDoc>, prefix: string): Outcome {
    var found := existing(url);
    if found.None? then LookupRaises
    else if found.value then Skip
    else
      var parsed := parse(url);
      if parsed.None? then Fail
      else
        var doc := CleanDocForEs(parsed.value);
        if OnDate(doc, prefix) then Keep(doc) else Drop
  }

  datatype Tally = Tally(skipped: nat, failed: nat, dropped: nat, kept: seq<Doc>)

  /**
   * The outcomes of the links in order: counts of skipped, failed and dropped links, and the
   * kept documents; a link whose lookup raises is counted nowhere.
   */
  function TallyOf(links: seq<string>, existing: string -> Option<bool>, parse: string -> Option<RawDoc>, prefix: string): Tally {
    if links == [] then Tally(0, 0, 0, [])
    else TallyStep(TallyOf(links[..|links| - 1], existing, parse, prefix), LinkOutcome(links[|links| - 1], existing, parse, prefix))
  }

  function TallyStep(t: Tally, o: Outcome): Tally {
    match o
    case LookupRaises => t
    case Skip => t.(skipped := t.skipped + 1)
    case Fail => t.(failed := t.failed + 1)
    case Drop => t.(dropped := t.dropped + 1)
    case Keep(doc) => t.(kept := t.kept + [doc])
  }

  /**
   * When every lookup answers, every link ends in exactly one of the four outcomes; every kept
   * document has no empty field and is on the requested date.
   */
  lemma {:induction false} TallyTotal(links: seq<string>, existing: string -> Option<bool>, parse: string -> Option<RawDoc>, prefix: string)
    ensures var t := TallyOf(links, existing, parse, prefix);
      (forall u :: u in links ==> existing(u).Some?) ==> t.skipped + t.failed + t.dropped + |t.kept| == |links|
    ensures forall d :: d in TallyOf(links, existing, parse, prefix).kept ==> OnDate(d, prefix) && "" !in d.Values
  {
    if links != [] {
      var n := |links| - 1;
      assert forall u :: u in links[..n] ==> u in links;
      TallyTotal(links[..n], existing, parse, prefix);
      var t0 := TallyOf(links[..n], existing, parse, prefix);
      var o := LinkOutcome(links[n], existing, parse, prefix);
      assert TallyOf(links, existing, parse, prefix) == TallyStep(t0, o);
      var t := TallyStep(t0, o);
      if o.Keep? {
        CleanDocForEsProperties(parse(links[n]).value);
        assert o.doc == CleanDocForEs(parse(links[n]).value) && OnDate(o.doc, prefix);
        NoEmptyValue(o.doc);
        assert t.kept == t0.kept + [o.doc];
      } else {
        assert t.kept == t0.kept;
      }
    }
  }

  /** A document none of whose fields is empty has no empty value. */
  lemma NoEmptyValue(d: Doc)
    requires forall k :: k in d ==> d[k] != ""
    ensures "" !in d.Values
  {
    forall v | v in d.Values ensures v != "" {
      var k :| k in d && d[k] == v;
    }
  }

  /**
   * A link already in the index, or whose lookup raised, is never parsed: two parsers that
   * agree on the links the index does not hold give the same tally.
   */
  lemma {:induction false} ExistingNeverParsed(links: seq<string>, existing: string -> Option<bool>,
                                               parse1: string -> Option<RawDoc>, parse2: string -> Option<RawDoc>, prefix: string)
    requires forall u :: u in links && existing(u) == Some(false) ==> parse1(u) == parse2(u)
    ensures TallyOf(links, existing, parse1, prefix) == TallyOf(links, existing, parse2, prefix)
  {
    if links != [] {
      var n := |links| - 1;
      assert forall u :: u in links[..n] ==> u in links;
      ExistingNeverParsed(links[..n], existing, parse1, parse2, prefix);
    }
  }

  /** Documents per bulk write. */
  const BufferSize := 200

  datatype Counts = Counts(crawledOk: nat, skipped: nat, failed: nat)

  /**
   * The article loop's variables: the counters, the buffer, the bulk writes that went through
   * (in order) and whether an exception left the loop.
   */
  datatype Loop = Loop(counts: Counts, buf: seq<Doc>, written: seq<seq<Doc>>, raised: bool)

  /** `bulk_index_news` never raises (it raises on a connection failure; item errors are only logged). */
  ghost predicate BulkNeverRaises(bulkRaises: seq<Doc> -> bool) {
    forall b :: !bulkRaises(b)
  }

  /**
   * One kept document: buffered and counted; when the buffer holds 200 it is written. A write
   * that raises is caught by the link's `except`: it counts one failure and keeps the buffer.
   */
  function Absorb(st: Loop, doc: Doc, bulkRaises: seq<Doc> -> bool): Loop {
    var buf := st.buf + [doc];
    var counts := st.counts.(crawledOk := st.counts.crawledOk + 1);
    if |buf| < BufferSize then st.(counts := counts, buf := buf)
    else if bulkRaises(buf) then st.(counts := counts.(failed := counts.failed + 1), buf := buf)
    else st.(counts := counts, buf := [], written := st.written + [buf])
  }

  /** The article loop over the links; after an `es_exists` that raises nothing more happens. */
  function ArticleLoop(links: seq<string>, existing: string -> Option<bool>, parse: string -> Option<RawDoc>,
                       prefix: string, bulkRaises: seq<Doc> -> bool): Loop
  {
    if links == [] then Loop(Counts(0, 0, 0), [], [], false)
    else LoopStep(ArticleLoop(links[..|links| - 1], existing, parse, prefix, bulkRaises),
                  LinkOutcome(links[|links| - 1], existing, parse, prefix), bulkRaises)
  }

  /** One link's outcome applied to the loop's variables. */
  function LoopStep(st: Loop, o: Outcome, bulkRaises: seq<Doc> -> bool): Loop {
    if st.raised then st
    else
      match o
      case LookupRaises => st.(raised := true)
      case Skip => st.(counts := st.counts.(skipped := st.counts.skipped + 1))
      case Fail => st.(counts := st.counts.(failed := st.counts.failed + 1))
      case Drop => st
      case Keep(doc) => Absorb(st, doc, bulkRaises)
  }

  /** What the loop's variables say about the tally of the links read so far. */
  ghost predicate LoopAgrees(st: Loop, t: Tally, bulkRaises: seq<Doc> -> bool) {
    BatchesFull(st.written)
    && (!st.raised ==> Counted(st, t))
    && (!st.raised && BulkNeverRaises(bulkRaises) ==> Exact(st, t))
  }

  /** Every bulk write holds at least 200 documents. */
  predicate BatchesFull(written: seq<seq<Doc>>) {
    forall k :: 0 <= k < |written| ==> |written[k]| >= BufferSize
  }

  /** The counters and the written and buffered documents match the tally. */
  predicate Counted(st: Loop, t: Tally) {
    st.counts.crawledOk == |t.kept| && st.counts.skipped == t.skipped && st.counts.failed >= t.failed
    && Flatten(st.written) + st.buf == t.kept
  }

  /** No failure beyond the tally's, and every write holds exactly 200 documents. */
  predicate Exact(st: Loop, t: Tally) {
    st.counts.failed == t.failed && |st.buf| < BufferSize
    && forall k :: 0 <= k < |st.written| ==> |st.written[k]| == BufferSize
  }

  lemma LoopAgreesStep(st: Loop, t: Tally, o: Outcome, bulkRaises: seq<Doc> -> bool)
    requires LoopAgrees(st, t, bulkRaises)
    ensures LoopAgrees(LoopStep(st, o, bulkRaises), TallyStep(t, o), bulkRaises)
  {
    if !st.raised && o.Keep? {
      AbsorbAgrees(st, t, o.doc, bulkRaises);
    }
  }

  /** A kept document keeps the loop in step with the tally. */
  lemma AbsorbAgrees(st: Loop, t: Tally, doc: Doc, bulkRaises: seq<Doc> -> bool)
    requires !st.raised && LoopAgrees(st, t, bulkRaises)
    ensures LoopAgrees(Absorb(st, doc, bulkRaises), t.(kept := t.kept + [doc]), bulkRaises)
  {
    var buf := st.buf + [doc];
    assert Flatten(st.written) + buf == t.kept + [doc];
    if |buf| < BufferSize {
      AbsorbBuffered(st, t, doc, bulkRaises);
    } else if bulkRaises(buf) {
      AbsorbWriteRaises(st, t, doc, bulkRaises);
    } else {
      AbsorbWritten(st, t, doc, bulkRaises);
    }
  }

  /** Below 200 documents the kept one is only buffered. */
  lemma AbsorbBuffered(st: Loop, t: Tally, doc: Doc, bulkRaises: seq<Doc> -> bool)
    requires !st.raised && LoopAgrees(st, t, bulkRaises)
    requires |st.buf| + 1 < BufferSize && Flatten(st.written) + (st.buf + [doc]) == t.kept + [doc]
    ensures LoopAgrees(Absorb(st, doc, bulkRaises), t.(kept := t.kept + [doc]), bulkRaises)
  {
  }

  /** A write that raises keeps the buffer and counts a failure the tally does not have. */
  lemma AbsorbWriteRaises(st: Loop, t: Tally, doc: Doc, bulkRaises: seq<Doc> -> bool)
    requires !st.raised && LoopAgrees(st, t, bulkRaises)
    requires |st.buf| + 1 >= BufferSize && bulkRaises(st.buf + [doc])
    requires Flatten(st.written) + (st.buf + [doc]) == t.kept + [doc]
    ensures LoopAgrees(Absorb(st, doc, bulkRaises), t.(kept := t.kept + [doc]), bulkRaises)
  {
    assert !BulkNeverRaises(bulkRaises);
  }

  /** A write that goes through moves the full buffer to the written batches. */
  lemma AbsorbWritten(st: Loop, t: Tally, doc: Doc, bulkRaises: seq<Doc> -> bool)
    requires !st.raised && LoopAgrees(st, t, bulkRaises)
    requires |st.buf| + 1 >= BufferSize && !bulkRaises(st.buf + [doc])
    requires Flatten(st.written) + (st.buf + [doc]) == t.kept + [doc]
    ensures LoopAgrees(Absorb(st, doc, bulkRaises), t.(kept := t.kept + [doc]), bulkRaises)
  {
    var buf := st.buf + [doc];
    var counts := st.counts.(crawledOk := st.counts.crawledOk + 1);
    var st' := Loop(counts, [], st.written + [buf], false);
    assert Absorb(st, doc, bulkRaises) == st';
    var t' := t.(kept := t.kept + [doc]);
    FlattenAppend(st.written, buf);
    assert Counted(st', t');
    BatchAppended(st.written, buf);
    if BulkNeverRaises(bulkRaises) {
      assert |buf| == BufferSize;
      assert Exact(st', t');
    }
  }

  /** A batch of at least 200 documents appended to full batches leaves them full. */
  lemma BatchAppended(written: seq<seq<Doc>>, buf: seq<Doc>)
    requires BatchesFull(written) && |buf| >= BufferSize
    ensures BatchesFull(written + [buf])
    ensures (forall k :: 0 <= k < |written| ==> |written[k]| == BufferSize) && |buf| == BufferSize ==>
              forall k :: 0 <= k < |written + [buf]| ==> |(written + [buf])[k]| == BufferSize
  {
  }

  /**
   * The loop raises exactly when some lookup raises. Otherwise `crawled_ok` and `skipped` are
   * the tally's, `failed` is at least the tally's (a bulk write that raises adds one), and every
   * kept document is written exactly once, in order, or still buffered; every write holds at
   * least 200 documents. When no bulk write raises, `failed` is the tally's and every write
   * holds exactly 200 documents with fewer than 200 left in the buffer.
   */
  lemma {:induction false} ArticleLoopTally(links: seq<string>, existing: string -> Option<bool>, parse: string -> Option<RawDoc>,
                                            prefix: string, bulkRaises: seq<Doc> -> bool)
    ensures var st := ArticleLoop(links, existing, parse, prefix, bulkRaises);
      (st.raised <==> exists i :: 0 <= i < |links| && existing(links[i]).None?)
      && LoopAgrees(st, TallyOf(links, existing, parse, prefix), bulkRaises)
  {
    if links != [] {
      var n := |links| - 1;
      ArticleLoopTally(links[..n], existing, parse, prefix, bulkRaises);
      var st := ArticleLoop(links[..n], existing, parse, prefix, bulkRaises);
      LoopAgreesStep(st, TallyOf(links[..n], existing, parse, prefix), LinkOutcome(links[n], existing, parse, prefix), bulkRaises);
      assert forall i :: 0 <= i < n ==> links[..n][i] == links[i];
    }
  }

  /** Once the loop has raised, later links change nothing. */
  lemma {:induction false} RaisedSticks(links: seq<string>, i: nat, existing: string -> Option<bool>, parse: string -> Option<RawDoc>,
                                        prefix: string, bulkRaises: seq<Doc> -> bool)
    requires i <= |links| && ArticleLoop(links[..i], existing, parse, prefix, bulkRaises).raised
    ensures ArticleLoop(links, existing, parse, prefix, bulkRaises) == ArticleLoop(links[..i], existing, parse, prefix, bulkRaises)
    decreases |links| - i
  {
    if i < |links| {
      assert links[..i + 1][..i] == links[..i];
      RaisedSticks(links, i + 1, existing, parse, prefix, bulkRaises);
    } else {
      assert links[..i] == links;
    }
  }

  /** The loop over the links, with the counters, the buffer and the bulk writes it leaves. */
  method CrawlLinks(links: seq<string>, existing: string -> Option<bool>, parse: string -> Option<RawDoc>,
                    prefix: string, bulkRaises: seq<Doc> -> bool)
    returns (st: Loop)
    ensures st == ArticleLoop(links, existing, parse, prefix, bulkRaises)
  {
    var crawledOk, skipped, failed := 0, 0, 0;
    var buf: seq<Doc> := [];
    var written: seq<seq<Doc>> := [];
    for i := 0 to |links|
      invariant ArticleLoop(links[..i], existing, parse, prefix, bulkRaises) == Loop(Counts(crawledOk, skipped, failed), buf, written, false)
    {
      assert links[..i + 1][..i] == links[..i];
      var url := links[i];
      var found := existing(url);
      if found.None? {
        st := Loop(Counts(crawledOk, skipped, failed), buf, written, true);
        RaisedSticks(links, i + 1, existing, parse, prefix, bulkRaises);
        return;
      }
      if found.value {
        skipped := skipped + 1;
        continue;
      }
      var parsed := parse(url);
      if parsed.None? {
        failed := failed + 1;
        continue;
      }
      var doc := CleanDocForEs(parsed.value);
      if !OnDate(doc, prefix) {
        continue;
      }
      buf := buf + [doc];
      crawledOk := crawledOk + 1;
      if |buf| >= BufferSize {
        if bulkRaises(buf) {
          failed := failed + 1;
        } else {
          written := written + [buf];
          buf := [];
        }
      }
    }
    assert links[..|links|] == links;
    st := Loop(Counts(crawledOk, skipped, failed), buf, written, false);
  }

  /**
   * The answer of a crawl: `EsUnavailable` when the ping fails, before any browser starts;
   * `CrawlRaised` when an exception left the crawl, with the bulk writes made before it.
   */
  datatype CrawlResponse =
    | EsUnavailable
    | Crawled(date: string, totalLinks: nat, counts: Counts, batches: seq<seq<Doc>>)
    | CrawlRaised(written: seq<seq<Doc>>)

  const MaxPages := 1000

  /**
   * The crawl after a successful ping: the link collection times out, or the article loop
   * raises, or the last partial buffer's write raises; otherwise the counters and the writes.
   */
  function CrawlOutcome(date: string, pages: seq<seq<Option<string>>>, join: string -> string,
                        existing: string -> Option<bool>, parse: string -> Option<RawDoc>, bulkRaises: seq<Doc> -> bool): CrawlResponse
  {
    if CollectionTimesOut(pages, join, MaxPages) then CrawlRaised([])
    else
      var links := CollectedLinks(pages, join, MaxPages);
      var st := ArticleLoop(links, existing, parse, TargetPrefix(date), bulkRaises);
      if st.raised then CrawlRaised(st.written)
      else if st.buf == [] then Crawled(date, |links|, st.counts, st.written)
      else if bulkRaises(st.buf) then CrawlRaised(st.written)
      else Crawled(date, |links|, st.counts, st.written + [st.buf])
  }

  /**
   * A crawl raises when the collection times out (having written nothing) or some lookup of a
   * collected link raises; with every lookup answering and no bulk write raising it finishes.
   * A finished crawl reports every collected link, counts the tally's kept and skipped links
   * and at least its failures, and has written every kept document exactly once, in order; when
   * no bulk write raises its counters are the tally's and its writes are the kept documents in
   * batches of 200 with one shorter final batch.
   */
  lemma CrawlOutcomeProperties(date: string, pages: seq<seq<Option<string>>>, join: string -> string,
                               existing: string -> Option<bool>, parse: string -> Option<RawDoc>, bulkRaises: seq<Doc> -> bool)
    ensures var r, links := CrawlOutcome(date, pages, join, existing, parse, bulkRaises), CollectedLinks(pages, join, MaxPages);
      var t := TallyOf(links, existing, parse, TargetPrefix(date));
      (CollectionTimesOut(pages, join, MaxPages) ==> r == CrawlRaised([]))
      && (!CollectionTimesOut(pages, join, MaxPages) && (exists i :: 0 <= i < |links| && existing(links[i]).None?) ==> r.CrawlRaised?)
      && (!CollectionTimesOut(pages, join, MaxPages) && (forall u :: u in links ==> existing(u).Some?) && BulkNeverRaises(bulkRaises) ==> r.Crawled?)
      && (r.Crawled? ==>
            r.date == date && r.totalLinks == |links|
            && r.counts.crawledOk == |t.kept| && r.counts.skipped == t.skipped && r.counts.failed >= t.failed
            && Flatten(r.batches) == t.kept)
      && (r.Crawled? && BulkNeverRaises(bulkRaises) ==>
            r.counts == Counts(|t.kept|, t.skipped, t.failed) && r.batches == Chunks(t.kept, BufferSize))
  {
    if !CollectionTimesOut(pages, join, MaxPages) {
      var links := CollectedLinks(pages, join, MaxPages);
      var prefix := TargetPrefix(date);
      ArticleLoopTally(links, existing, parse, prefix, bulkRaises);
      var st := ArticleLoop(links, existing, parse, prefix, bulkRaises);
      if (forall u :: u in links ==> existing(u).Some?) {
        assert !st.raised;
      }
      if !st.raised {
        if st.buf == [] {
          assert Flatten(st.written) + st.buf == Flatten(st.written);
        } else {
          FlattenAppend(st.written, st.buf);
        }
        if BulkNeverRaises(bulkRaises) {
          ChunksOfBatches(st.written, st.buf, BufferSize);
        }
      }
    }
  }

  /** Every written document is on the requested date or has no publication date. */
  lemma CrawledOnDate(date: string, pages: seq<seq<Option<string>>>, join: string -> string,
                      existing: string -> Option<bool>, parse: string -> Option<RawDoc>, bulkRaises: seq<Doc> -> bool)
    ensures var r := CrawlOutcome(date, pages, join, existing, parse, bulkRaises);
      r.Crawled? ==> forall d :: d in Flatten(r.batches) ==> OnDate(d, TargetPrefix(date)) && "" !in d.Values
  {
    var r := CrawlOutcome(date, pages, join, existing, parse, bulkRaises);
    var links := CollectedLinks(pages, join, MaxPages);
    CrawlOutcomeProperties(date, pages, join, existing, parse, bulkRaises);
    TallyTotal(links, existing, parse, TargetPrefix(date));
  }

  /**
   * `crawl_naver_news`: ping, collect the day's links from at most 1000 list pages, crawl them
   * keeping the documents published on that date; any exception leaves the request.
   */
  method CrawlNaverNews(date: string, esUp: bool, pages: seq<seq<Option<string>>>, join: string -> string,
                        existing: string -> Option<bool>, parse: string -> Option<RawDoc>, bulkRaises: seq<Doc> -> bool)
    returns (r: CrawlResponse)
    ensures !esUp <==> r.EsUnavailable?
    ensures esUp ==> r == CrawlOutcome(date, pages, join, existing, parse, bulkRaises)
  {
    if !esUp {
      return EsUnavailable;
    }
    var links, visited := CollectAllLinksForDate(pages, join, MaxPages);
    if links.None? {
      return CrawlRaised([]);
    }
    var st := CrawlLinks(links.value, existing, parse, TargetPrefix(date), bulkRaises);
    if st.raised {
      return CrawlRaised(st.written);
    }
    var batches := st.written;
    if st.buf != [] {
      if bulkRaises(st.buf) {
        return CrawlRaised(st.written);
      }
      batches := batches + [st.buf];
    }
    r := Crawled(date, |links.value|, st.counts, batches);
  }

  /** How a scheduled run ends: the loop finished with some failures, or the main block raised. */
  datatype RunOutcome = Finished(failed: nat) | Raised

  /** `state_code`: 200 without failures, 300 with some, 400 when the run raised. */
  function RunStateCode(o: RunOutcome): (code: int)
    ensures code == 200 <==> o == Finished(0)
    ensures code == 300 <==> o.Finished? && o.failed > 0
    ensures code == 400 <==> o.Raised?
  {
    match o
    case Finished(failed) => if failed == 0 then 200 else 300
    case Raised => 400
  }

  /**
   * `crawl_one_date`: the crawl of `day` (requested as `YYYYMMDD`). A crawl that finishes
   * writes the state code of its failure count, one that raises writes 400 before re-raising;
   * `stateCode` is 0 when the ping fails and no run is written. The run's end is one day after
   * its start, and every document written is published on `day` or has no publication date.
   */
  method CrawlOneDate(day: Date, esUp: bool, pages: seq<seq<Option<string>>>, join: string -> string,
                      existing: string -> Option<bool>, parse: string -> Option<RawDoc>, bulkRaises: seq<Doc> -> bool)
    returns (r: CrawlResponse, stateCode: int, endAt: Date)
    requires Valid(day) && day.year < 10000
    ensures !esUp <==> r.EsUnavailable?
    ensures esUp ==> r == CrawlOutcome(CompactDate(day), pages, join, existing, parse, bulkRaises)
    ensures r.Crawled? ==> stateCode == RunStateCode(Finished(r.counts.failed))
    ensures r.CrawlRaised? ==> stateCode == RunStateCode(Raised) == 400
    ensures r.EsUnavailable? ==> stateCode == 0
    ensures endAt == NextDay(day)
    ensures r.Crawled? ==> forall d :: d in Flatten(r.batches) ==> OnDate(d, IsoDate(day))
  {
    endAt := NextDay(day);
    TargetPrefixIsIsoDate(day);
    r := CrawlNaverNews(CompactDate(day), esUp, pages, join, existing, parse, bulkRaises);
    CrawledOnDate(CompactDate(day), pages, join, existing, parse, bulkRaises);
    stateCode := match r
      case Crawled(_, _, counts, _) => RunStateCode(Finished(counts.failed))
      case CrawlRaised(_) => RunStateCode(Raised)
      case EsUnavailable => 0;
  }
}
