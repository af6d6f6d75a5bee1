/**
 * The analyzer's daily issue-ranking script: the query window of the day, the texts read for
 * one issue keyword, and the filter that turns TF-IDF scored terms into sub-keywords. The
 * TF-IDF scores themselves come from a vectoriser and are inputs here.
 */
module SubKeywords {
  import opened Text
  import opened Calendar
  import opened Sorting

  const Stopwords: set<string> := {
    "있다", "있는", "한다", "했다", "말했다", "밝혔다", "강조했다",
    "통해", "위해", "위한", "함께", "대한", "것으로", "이라고",
    "기자", "뉴스1", "연합뉴스",
    "이번", "이날", "지난", "지난해", "올해",
    "5일", "6일", "7일",
    "서울", "국내", "현지시간"
  }

  const TopNSubKeywords := 30

  // ---------------------------------------------------------------------------------------
  // The query window

  /** `START_AT`: midnight of the day in UTC+09:00. */
  function StartAt(day: Date): (s: string)
    requires Valid(day) && day.year < 10000
  {
    IsoDate(day) + "T00:00:00+09:00"
  }

  /** `END_AT`: midnight of the following day in UTC+09:00. */
  function EndAt(day: Date): (s: string)
    requires Valid(day) && day.year < 9999
  {
    IsoDate(NextDay(day)) + "T00:00:00+09:00"
  }

  /** The window `[START_AT, END_AT)` covers exactly one day: END_AT is midnight of the next calendar day. */
  lemma WindowIsOneDay(day: Date)
    requires Valid(day) && day.year < 9999
    ensures IsIsoShape(EndAt(day)[..10]) && ParseIsoDate(EndAt(day)[..10]) == NextDay(day)
    ensures StartAt(day)[10..] == EndAt(day)[10..] == "T00:00:00+09:00"
  {
    var n := NextDay(day);
    var e := IsoDate(n);
    assert EndAt(day)[..10] == e;
    IsoDateRoundTrip(n);
  }

  // ---------------------------------------------------------------------------------------
  // Token filters

  /** `str.isdigit()` on ASCII text: non-empty and every character a digit. */
  predicate IsDigitString(s: string) {
    s != [] && forall i :: 0 <= i < |s| ==> IsDigit(s[i])
  }

  /** `is_valid_token` */
  function IsValidToken(token: string): (ok: bool) {
    if |token| < 2 then false
    else if token in Stopwords then false
    // `token.isdigit()` and then `re.fullmatch(r"[0-9]+", token)`: on ASCII digits, the only
    // digits modelled, the two tests agree, so one branch stands for both
    else if IsDigitString(token) then false
    else true
  }

  /** A token is valid exactly when it has two or more characters, is no stopword and is not all digits. */
  lemma ValidTokenIff(token: string)
    ensures IsValidToken(token) <==> |token| >= 2 && token !in Stopwords && !IsDigitString(token)
  {
  }

  datatype Scored = Scored(word: string, score: real)

  function ScoreKey(p: Scored): real { p.score }

  /** The term test inside `extract_sub_keywords`. */
  predicate KeepTerm(p: Scored) {
    !(|p.word| <= 1) && p.word !in Stopwords && !IsDigitString(p.word)
  }

  /** The extraction loop keeps the same terms `is_valid_token` accepts. */
  lemma KeepTermIsValidToken(p: Scored)
    ensures KeepTerm(p) <==> IsValidToken(p.word)
  {
  }

  /** The terms the filter keeps, in order. */
  function Kept(pairs: seq<Scored>): (r: seq<Scored>)
    ensures |r| <= |pairs|
  {
    if pairs == [] then []
    else
      var p := pairs[|pairs| - 1];
      Kept(pairs[..|pairs| - 1]) + (if KeepTerm(p) then [p] else [])
  }

  /**
   * The loop of `extract_sub_keywords` over the terms sorted by score: skip the rejected
   * ones, append the rest, and stop once `top_n` have been appended. The test follows the
   * append, so at least one term is kept even when `top_n` is 0 or negative.
   */
  method TakeTerms(pairs: seq<Scored>, topN: int) returns (result: seq<Scored>)
    ensures result == Take(Kept(pairs), if topN < 1 then 1 else topN)
  {
    result := [];
    var i := 0;
    while i < |pairs|
      invariant 0 <= i <= |pairs|
      invariant result == Kept(pairs[..i])
      invariant |result| < (if topN < 1 then 1 else topN)
    {
      var p := pairs[i];
      assert pairs[..i + 1][..i] == pairs[..i];
      if KeepTerm(p) {
        result := result + [p];
        if |result| >= topN {
          KeptPrefix(pairs, i + 1);
          return;
        }
      }
      i := i + 1;
    }
    assert pairs[..i] == pairs;
  }

  /** The terms kept from a prefix are a prefix of the terms kept. */
  lemma {:induction false} KeptPrefix(xs: seq<Scored>, n: nat)
    requires n <= |xs|
    ensures Kept(xs[..n]) <= Kept(xs)
    decreases |xs| - n
  {
    if n < |xs| {
      KeptPrefix(xs, n + 1);
      assert xs[..n + 1][..n] == xs[..n];
    } else {
      assert xs[..n] == xs;
    }
  }

  /** Every kept term passes the test and comes from the input, and a descending order survives. */
  lemma {:induction false} KeptProperties(xs: seq<Scored>)
    ensures forall k :: 0 <= k < |Kept(xs)| ==> KeepTerm(Kept(xs)[k]) && Kept(xs)[k] in xs
    ensures SortedDesc(xs, ScoreKey) ==> SortedDesc(Kept(xs), ScoreKey)
  {
    if xs != [] {
      var init := xs[..|xs| - 1];
      KeptProperties(init);
      if SortedDesc(xs, ScoreKey) {
        assert SortedDesc(init, ScoreKey);
        var k := Kept(init);
        forall i | 0 <= i < |k| ensures k[i].score >= xs[|xs| - 1].score {
          var j :| 0 <= j < |init| && init[j] == k[i];
          assert xs[j] == init[j];
        }
      }
    }
  }

  /** `extract_sub_keywords` after the vectoriser: [] for no texts, else the filtered top terms by score. */
  method ExtractSubKeywords(texts: seq<string>, scored: seq<Scored>, topN: int) returns (result: seq<Scored>)
    ensures texts == [] ==> result == []
    ensures texts != [] ==> result == Take(Kept(SortDesc(scored, ScoreKey)), if topN < 1 then 1 else topN)
  {
    if texts == [] {
      return [];
    }
    result := TakeTerms(SortDesc(scored, ScoreKey), topN);
  }

  /**
   * What the extraction promises: at most `top_n` terms (for a positive `top_n`), none of them
   * rejected by `is_valid_token`, in non-increasing score order, each one of the scored terms.
   */
  lemma SubKeywordsProperties(texts: seq<string>, scored: seq<Scored>, topN: int, result: seq<Scored>)
    requires texts != [] && result == Take(Kept(SortDesc(scored, ScoreKey)), if topN < 1 then 1 else topN)
    ensures topN >= 1 ==> |result| <= topN
    ensures forall k :: 0 <= k < |result| ==> IsValidToken(result[k].word) && result[k] in scored
    ensures forall i, j :: 0 <= i < j < |result| ==> result[i].score >= result[j].score
  {
    var sorted := SortDesc(scored, ScoreKey);
    var kept := Kept(sorted);
    KeptProperties(sorted);
    forall k | 0 <= k < |result| ensures IsValidToken(result[k].word) && result[k] in scored {
      assert result[k] == kept[k];
      assert result[k] in multiset(sorted);
    }
  }

  // ---------------------------------------------------------------------------------------
  // Texts of one issue keyword

  /** A `_source` field: absent, JSON null, or a string. */
  datatype Field = Absent | Null | Str(s: string)

  /** How an f-string renders `src.get(name, '')`: absent gives "", null gives "None". */
  function Render(f: Field): string {
    match f
    case Absent => ""
    case Null => "None"
    case Str(s) => s
  }

  datatype Source = Source(title: Field, body: Field)

  /** The text of one hit: title and body joined by a space, stripped. */
  function HitText(src: Source): string {
    PyStrip(Render(src.title) + " " + Render(src.body))
  }

  /** The texts of one page of hits: the non-empty hit texts, in order. */
  function PageTexts(hits: seq<Source>): (r: seq<string>)
    ensures |r| <= |hits|
  {
    if hits == [] then []
    else
      var rest := PageTexts(hits[..|hits| - 1]);
      var t := HitText(hits[|hits| - 1]);
      if t != "" then rest + [t] else rest
  }

  /**
   * `fetch_texts_by_issue`: `pages` are the successive search responses. The `while True`
   * loop leaves after its first pass, so only the first page is read; later pages are never used.
   */
  method FetchTextsByIssue(pages: seq<seq<Source>>) returns (texts: seq<string>)
    requires pages != []
    ensures texts == PageTexts(pages[0])
    ensures forall k :: 0 <= k < |texts| ==> texts[k] != ""
  {
    texts := [];
    var hits := pages[0];
    if hits != [] {
      for j := 0 to |hits|
        invariant texts == PageTexts(hits[..j])
      {
        var text := HitText(hits[j]);
        assert hits[..j + 1][..j] == hits[..j];
        if text != "" {
          texts := texts + [text];
        }
      }
      assert hits[..|hits|] == hits;
    }
    PageTextsNonEmpty(pages[0]);
  }

  lemma {:induction false} PageTextsNonEmpty(hits: seq<Source>)
    ensures forall k :: 0 <= k < |PageTexts(hits)| ==> PageTexts(hits)[k] != ""
  {
    if hits != [] {
      PageTextsNonEmpty(hits[..|hits| - 1]);
    }
  }

  /** A hit whose title is null is read as the text "None", not skipped. */
  lemma NullTitleReadsNone()
    ensures HitText(Source(Null, Absent)) == "None"
  {
    assert "None" + " " + "" == "None ";
    assert PyStrip("None ") == PyStrip("None") by {
      assert "None "[..4] == "None";
    }
    StripTrimmed("None", PySpace);
  }
}
