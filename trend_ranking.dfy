/**
 * The monthly trend ranking of the offline model scripts: articles too short to classify are
 * dropped, each month's predicted issue keywords are ranked by article count, and each
 * (month, keyword) row gets a move against the keyword's previous month: new, up, down or same.
 * The classifier that predicts each article's keyword is a parameter (it is a trained model).
 */
module TrendRanking {
  import opened Text
  import opened Sorting

  // ---------------------------------------------------------------------------------------
  // Preparing the articles

  datatype Article = Article(year: int, month: int, title: Option<string>, body: Option<string>)

  function OrEmpty(s: Option<string>): string {
    if s.Some? then s.value else ""
  }

  /** The text the classifier reads: title and body (missing ones read as ""), joined by a space and stripped. */
  function ArticleText(a: Article): string {
    PyStrip(OrEmpty(a.title) + " " + OrEmpty(a.body))
  }

  predicate LongEnough(a: Article) {
    |ArticleText(a)| > 10
  }

  /** `load_and_prepare_news`: keep the articles whose text is longer than 10 characters, in order. */
  function PrepareNews(articles: seq<Article>): (r: seq<Article>)
    ensures |r| <= |articles|
    ensures forall k :: 0 <= k < |r| ==> r[k] in articles && |ArticleText(r[k])| > 10
    ensures forall a :: a in articles && |ArticleText(a)| > 10 ==> a in r
  {
    Filter(articles, LongEnough)
  }

  /** An article with no title and no body is always dropped. */
  lemma EmptyArticleDropped(articles: seq<Article>, y: int, m: int)
    ensures Article(y, m, None, None) !in PrepareNews(articles)
  {
    assert ArticleText(Article(y, m, None, None)) == "";
  }

  // ---------------------------------------------------------------------------------------
  // Ranking one month

  datatype Counted = Counted(keyword: string, count: int)

  datatype Ranked = Ranked(keyword: string, count: int, rank: int)

  function CountKey(c: Counted): real { c.count as real }

  /** One month's ranking: keywords by count, largest first, ranked from 1. */
  function RankMonth(sub: seq<Counted>): seq<Ranked> {
    var sorted := SortDesc(sub, CountKey);
    seq(|sorted|, i requires 0 <= i < |sorted| => Ranked(sorted[i].keyword, sorted[i].count, i + 1))
  }

  /**
   * The ranks of a month run 1..n in row order, a better rank never has a smaller count, and
   * the ranked rows are exactly the month's (keyword, count) pairs.
   */
  lemma RankMonthProperties(sub: seq<Counted>)
    ensures var r := RankMonth(sub);
      |r| == |sub|
      && (forall i :: 0 <= i < |r| ==> r[i].rank == i + 1)
      && (forall i, j :: 0 <= i < |r| && 0 <= j < |r| && r[i].rank < r[j].rank ==> r[i].count >= r[j].count)
      && multiset(seq(|r|, i requires 0 <= i < |r| => Counted(r[i].keyword, r[i].count))) == multiset(sub)
  {
    var sorted := SortDesc(sub, CountKey);
    var r := RankMonth(sub);
    assert seq(|r|, i requires 0 <= i < |r| => Counted(r[i].keyword, r[i].count)) == sorted;
  }

  // ---------------------------------------------------------------------------------------
  // Moves against the previous month

  datatype RankRow = RankRow(year: int, month: int, rank: int, keyword: string)

  /** The year-month key `year * 100 + month`. */
  function Ym(r: RankRow): int { r.year * 100 + r.month }

  /** The gaps the script treats as "the next month": 1, 87, 88 and 89. */
  predicate ConsecutiveGap(d: int) { d == 1 || d == 87 || d == 88 || d == 89 }

  /**
   * For real months the gap rule means exactly "the next calendar month": 1 within a year,
   * 89 from December to January; 87 and 88 never occur.
   */
  lemma ConsecutiveGapIsNextMonth(a: RankRow, b: RankRow)
    requires 1 <= a.month <= 12 && 1 <= b.month <= 12
    ensures ConsecutiveGap(Ym(b) - Ym(a)) <==> 12 * b.year + b.month == 12 * a.year + a.month + 1
  {
    var dy, dm := b.year - a.year, b.month - a.month;
    assert Ym(b) - Ym(a) == 100 * dy + dm;
    if ConsecutiveGap(Ym(b) - Ym(a)) {
      assert dy == 0 || dy == 1;
    }
  }

  datatype Move = New | Up(steps: int) | Down(steps: int) | Same

  /** The move of `cur` given the keyword's previous row, if any. */
  function MoveFrom(prev: Option<RankRow>, cur: RankRow): Move {
    if prev.None? || !ConsecutiveGap(Ym(cur) - Ym(prev.value)) then New
    else if cur.rank < prev.value.rank then Up(prev.value.rank - cur.rank)
    else if cur.rank > prev.value.rank then Down(cur.rank - prev.value.rank)
    else Same
  }

  /** The move rule: NEW without a previous row in the month before, else the direction and size of the rank change. */
  lemma MoveFromCases(prev: Option<RankRow>, cur: RankRow)
    ensures MoveFrom(prev, cur) == New <==> prev.None? || !ConsecutiveGap(Ym(cur) - Ym(prev.value))
    ensures MoveFrom(prev, cur).Up? <==> MoveFrom(prev, cur) != New && cur.rank < prev.value.rank
    ensures MoveFrom(prev, cur).Down? <==> MoveFrom(prev, cur) != New && cur.rank > prev.value.rank
    ensures MoveFrom(prev, cur) == Same <==> MoveFrom(prev, cur) != New && cur.rank == prev.value.rank
    ensures MoveFrom(prev, cur).Up? || MoveFrom(prev, cur).Down? ==> MoveFrom(prev, cur).steps > 0
  {
  }

  /** The rows of one keyword, in table order (`groupby("issue_keyword")`). */
  function History(rows: seq<RankRow>, kw: string): (h: seq<RankRow>)
    ensures |h| <= |rows|
    ensures forall k :: 0 <= k < |h| ==> h[k].keyword == kw
  {
    if rows == [] then []
    else
      var h := History(rows[..|rows| - 1], kw);
      if rows[|rows| - 1].keyword == kw then h + [rows[|rows| - 1]] else h
  }

  /** The moves along one keyword's history: the first row is new, each later one compares with the row before. */
  function MovesOf(h: seq<RankRow>): (ms: seq<Move>)
    ensures |ms| == |h|
  {
    seq(|h|, i requires 0 <= i < |h| => MoveFrom(if i == 0 then None else Some(h[i - 1]), h[i]))
  }

  lemma MovesOfAppend(h: seq<RankRow>, r: RankRow)
    ensures MovesOf(h + [r]) == MovesOf(h) + [MoveFrom(if h == [] then None else Some(h[|h| - 1]), r)]
  {
    var a, b := MovesOf(h + [r]), MovesOf(h) + [MoveFrom(if h == [] then None else Some(h[|h| - 1]), r)];
    forall i | 0 <= i < |a| ensures a[i] == b[i] {
      if i < |h| {
        assert (h + [r])[i] == h[i];
        if i > 0 { assert (h + [r])[i - 1] == h[i - 1]; }
      }
    }
  }

  /** `rank_df` is sorted by (year, month, rank) and has one row per (month, keyword). */
  predicate RankOrdered(rows: seq<RankRow>) {
    (forall i, j :: 0 <= i < j < |rows| ==>
      Ym(rows[i]) < Ym(rows[j]) || (Ym(rows[i]) == Ym(rows[j]) && rows[i].rank <= rows[j].rank))
    && (forall i, j :: 0 <= i < j < |rows| && rows[i].keyword == rows[j].keyword ==> Ym(rows[i]) != Ym(rows[j]))
  }

  predicate IncreasingYm(h: seq<RankRow>) {
    forall i, j :: 0 <= i < j < |h| ==> Ym(h[i]) < Ym(h[j])
  }

  /** In such a table each keyword's history is already in increasing month order, so `sort_values("ym")` keeps it. */
  lemma {:induction false} HistoryByMonth(rows: seq<RankRow>, kw: string)
    requires RankOrdered(rows)
    ensures IncreasingYm(History(rows, kw))
  {
    if rows != [] {
      var n := |rows| - 1;
      var init, last := rows[..n], rows[n];
      assert RankOrdered(init);
      HistoryByMonth(init, kw);
      HistoryMembers(init, kw);
      var h := History(init, kw);
      assert History(rows, kw) == if last.keyword == kw then h + [last] else h;
      if last.keyword == kw {
        var hh := h + [last];
        assert History(rows, kw) == hh;
        forall i, j | 0 <= i < j < |hh| ensures Ym(hh[i]) < Ym(hh[j]) {
          if j == |h| {
            var p :| 0 <= p < |init| && init[p] == h[i];
            assert rows[p] == h[i] && p < n && hh[i] == h[i] && hh[j] == last;
            assert rows[p].keyword == rows[n].keyword;
          } else {
            assert hh[i] == h[i] && hh[j] == h[j];
          }
        }
      }
    }
  }

  lemma {:induction false} HistoryMembers(rows: seq<RankRow>, kw: string)
    ensures forall k :: 0 <= k < |History(rows, kw)| ==> History(rows, kw)[k] in rows
  {
    if rows != [] {
      HistoryMembers(rows[..|rows| - 1], kw);
    }
  }

  datatype Trend = Trend(year: int, month: int, rank: int, keyword: string, move: Move)

  function Tag(r: RankRow, m: Move): Trend {
    Trend(r.year, r.month, r.rank, r.keyword, m)
  }

  // ---- As written: per-keyword move lists assigned by position ----

  /** The move list as the script builds it: keyword group after keyword group. */
  function AsWrittenMoves(rows: seq<RankRow>, keys: seq<string>): seq<Move> {
    if keys == [] then []
    else AsWrittenMoves(rows, keys[..|keys| - 1]) + MovesOf(History(rows, keys[|keys| - 1]))
  }

  /** `keys` are the table's keywords, each once, in the order the grouping visits them. */
  predicate Partition(rows: seq<RankRow>, keys: seq<string>) {
    (forall i, j :: 0 <= i < j < |keys| ==> keys[i] != keys[j])
    && (forall i :: 0 <= i < |rows| ==> rows[i].keyword in keys)
  }

  function Occurrences(keys: seq<string>, w: string): nat {
    if keys == [] then 0
    else Occurrences(keys[..|keys| - 1], w) + (if keys[|keys| - 1] == w then 1 else 0)
  }

  lemma {:induction false} OccursOnce(keys: seq<string>, w: string)
    requires forall i, j :: 0 <= i < j < |keys| ==> keys[i] != keys[j]
    ensures Occurrences(keys, w) == (if w in keys then 1 else 0)
  {
    if keys != [] {
      var init := keys[..|keys| - 1];
      OccursOnce(init, w);
      assert keys == init + [keys[|keys| - 1]];
    }
  }

  lemma {:induction false} MovesLengthStep(rows: seq<RankRow>, r: RankRow, keys: seq<string>)
    ensures |AsWrittenMoves(rows + [r], keys)| == |AsWrittenMoves(rows, keys)| + Occurrences(keys, r.keyword)
  {
    if keys != [] {
      MovesLengthStep(rows, r, keys[..|keys| - 1]);
      assert (rows + [r])[..|rows|] == rows;
    }
  }

  lemma {:induction false} MovesLengthEmpty(keys: seq<string>)
    ensures |AsWrittenMoves([], keys)| == 0
  {
    if keys != [] {
      MovesLengthEmpty(keys[..|keys| - 1]);
    }
  }

  /** Every row belongs to exactly one group, so the move list is as long as the table. */
  lemma {:induction false} AsWrittenLength(rows: seq<RankRow>, keys: seq<string>)
    requires Partition(rows, keys)
    ensures |AsWrittenMoves(rows, keys)| == |rows|
  {
    if rows == [] {
      MovesLengthEmpty(keys);
    } else {
      var init, last := rows[..|rows| - 1], rows[|rows| - 1];
      assert Partition(init, keys);
      AsWrittenLength(init, keys);
      assert init + [last] == rows;
      MovesLengthStep(init, last, keys);
      OccursOnce(keys, last.keyword);
    }
  }

  /** One keyword group: the rows of `kw` in table order, each compared with the one before. */
  method KeywordMoves(rows: seq<RankRow>, kw: string) returns (moves: seq<Move>)
    ensures moves == MovesOf(History(rows, kw))
  {
    moves := [];
    var prev: Option<RankRow> := None;
    ghost var hist: seq<RankRow> := [];
    for j := 0 to |rows|
      invariant hist == History(rows[..j], kw)
      invariant prev == (if hist == [] then None else Some(hist[|hist| - 1]))
      invariant moves == MovesOf(hist)
    {
      assert rows[..j + 1][..j] == rows[..j];
      if rows[j].keyword == kw {
        MovesOfAppend(hist, rows[j]);
        moves := moves + [MoveFrom(prev, rows[j])];
        prev := Some(rows[j]);
        hist := hist + [rows[j]];
      }
    }
    assert rows[..|rows|] == rows;
  }

  /**
   * `build_monthly_ranking` as written: the moves are computed keyword group by keyword group,
   * then stored in the table's (year, month, rank) row order by position.
   */
  method BuildMonthlyMovesAsWritten(rows: seq<RankRow>, keys: seq<string>) returns (out: seq<Trend>)
    requires Partition(rows, keys)
    ensures |AsWrittenMoves(rows, keys)| == |out| == |rows|
    ensures forall i :: 0 <= i < |rows| ==> out[i] == Tag(rows[i], AsWrittenMoves(rows, keys)[i])
  {
    var moves: seq<Move> := [];
    for k := 0 to |keys|
      invariant moves == AsWrittenMoves(rows, keys[..k])
    {
      var group := KeywordMoves(rows, keys[k]);
      moves := moves + group;
      assert keys[..k + 1][..k] == keys[..k];
    }
    assert keys[..|keys|] == keys;
    AsWrittenLength(rows, keys);
    out := [];
    for i := 0 to |rows|
      invariant |out| == i
      invariant forall t :: 0 <= t < i ==> out[t] == Tag(rows[t], moves[t])
    {
      out := out + [Tag(rows[i], moves[i])];
    }
  }

  // ---- Corrected: each row compared with its own keyword's previous row ----

  /** The index of the last row with keyword `kw`, if any. */
  function LastWith(rows: seq<RankRow>, kw: string): (r: Option<nat>)
    ensures r.Some? ==> r.value < |rows| && rows[r.value].keyword == kw
  {
    if rows == [] then None
    else if rows[|rows| - 1].keyword == kw then Some(|rows| - 1)
    else LastWith(rows[..|rows| - 1], kw)
  }

  /** The last row with `kw` is the last entry of the keyword's history. */
  lemma {:induction false} LastWithHistory(rows: seq<RankRow>, kw: string)
    ensures LastWith(rows, kw).None? <==> History(rows, kw) == []
    ensures LastWith(rows, kw).Some? ==> History(rows, kw)[|History(rows, kw)| - 1] == rows[LastWith(rows, kw).value]
  {
    if rows != [] {
      LastWithHistory(rows[..|rows| - 1], kw);
    }
  }

  lemma LastWithStep(rows: seq<RankRow>, i: nat)
    requires i < |rows|
    ensures LastWith(rows[..i + 1], rows[i].keyword) == Some(i)
    ensures forall kw :: kw != rows[i].keyword ==> LastWith(rows[..i + 1], kw) == LastWith(rows[..i], kw)
  {
    assert rows[..i + 1][..i] == rows[..i] && rows[..i + 1][i] == rows[i];
  }

  /** The move a row should get: from the previous row of the same keyword. */
  function IntendedMove(rows: seq<RankRow>, i: nat): Move
    requires i < |rows|
  {
    var j := LastWith(rows[..i], rows[i].keyword);
    MoveFrom(if j.None? then None else Some(rows[j.value]), rows[i])
  }

  /** `last` maps each keyword seen in the first `i` rows to its latest row. */
  ghost predicate TracksLast(rows: seq<RankRow>, i: nat, last: map<string, RankRow>)
    requires i <= |rows|
  {
    forall kw :: (kw in last <==> LastWith(rows[..i], kw).Some?)
      && (kw in last ==> LastWith(rows[..i], kw).Some? && last[kw] == rows[LastWith(rows[..i], kw).value])
  }

  lemma TracksLastStep(rows: seq<RankRow>, i: nat, last: map<string, RankRow>)
    requires i < |rows| && TracksLast(rows, i, last)
    ensures TracksLast(rows, i + 1, last[rows[i].keyword := rows[i]])
    ensures MoveFrom(if rows[i].keyword in last then Some(last[rows[i].keyword]) else None, rows[i]) == IntendedMove(rows, i)
  {
    LastWithStep(rows, i);
  }

  /** `build_monthly_ranking` with each move stored on its own row. */
  method BuildMonthlyMoves(rows: seq<RankRow>) returns (out: seq<Trend>)
    ensures |out| == |rows|
    ensures forall i :: 0 <= i < |rows| ==> out[i] == Tag(rows[i], IntendedMove(rows, i))
  {
    var last: map<string, RankRow> := map[];
    out := [];
    for i := 0 to |rows|
      invariant |out| == i
      invariant forall t :: 0 <= t < i ==> out[t] == Tag(rows[t], IntendedMove(rows, t))
      invariant TracksLast(rows, i, last)
    {
      var t;
      t, last := NextTrend(rows, i, last);
      out := out + [t];
    }
  }

  /** One row: its move from the keyword's latest row, then the row becomes the latest. */
  method NextTrend(rows: seq<RankRow>, i: nat, last: map<string, RankRow>) returns (t: Trend, last': map<string, RankRow>)
    requires i < |rows| && TracksLast(rows, i, last)
    ensures t == Tag(rows[i], IntendedMove(rows, i)) && TracksLast(rows, i + 1, last')
  {
    var r := rows[i];
    var prev := if r.keyword in last then Some(last[r.keyword]) else None;
    TracksLastStep(rows, i, last);
    t := Tag(r, MoveFrom(prev, r));
    last' := last[r.keyword := r];
  }

  lemma {:induction false} HistoryPrefix(rows: seq<RankRow>, n: nat, kw: string)
    requires n <= |rows|
    ensures History(rows[..n], kw) <= History(rows, kw)
    decreases |rows| - n
  {
    if n < |rows| {
      HistoryPrefix(rows, n + 1, kw);
      assert rows[..n + 1][..n] == rows[..n];
    } else {
      assert rows[..n] == rows;
    }
  }

  /**
   * The intended move of row `i` is the move its keyword's own history gives at that row's
   * place in it: the per-keyword rule, applied to the right row.
   */
  lemma IntendedFollowsHistory(rows: seq<RankRow>, i: nat)
    requires i < |rows|
    ensures var kw := rows[i].keyword; var h := History(rows, kw); var p := |History(rows[..i], kw)|;
      p < |h| && h[p] == rows[i] && MovesOf(h)[p] == IntendedMove(rows, i)
  {
    var kw := rows[i].keyword;
    var h := History(rows, kw);
    var p := |History(rows[..i], kw)|;
    HistoryAt(rows, i);
    MovesOfAt(h, p);
  }

  lemma MovesOfAt(h: seq<RankRow>, p: nat)
    requires p < |h|
    ensures MovesOf(h)[p] == MoveFrom(if p == 0 then None else Some(h[p - 1]), h[p])
  {
  }

  /** Row `i` sits in its keyword's history right after that keyword's previous row. */
  lemma HistoryAt(rows: seq<RankRow>, i: nat)
    requires i < |rows|
    ensures var kw := rows[i].keyword; var h := History(rows, kw); var p := |History(rows[..i], kw)|;
      var j := LastWith(rows[..i], kw);
      p < |h| && h[p] == rows[i] && (p == 0 <==> j.None?) && (p > 0 ==> h[p - 1] == rows[j.value])
  {
    var kw := rows[i].keyword;
    var h := History(rows, kw);
    var before := History(rows[..i], kw);
    var p := |before|;
    assert rows[..i + 1][..i] == rows[..i];
    var upto := History(rows[..i + 1], kw);
    assert upto == before + [rows[i]];
    HistoryPrefix(rows, i + 1, kw);
    assert h[p] == upto[p];
    LastWithHistory(rows[..i], kw);
    if p > 0 {
      assert h[p - 1] == upto[p - 1] == before[p - 1];
    }
  }

  /**
   * The script's positional assignment gives a row another keyword's move: with "b" ranked 1
   * and "a" ranked 2 in January, and "a" ranked 1 in February, January's "a" row is stored as
   * up by one (February's move) although "a" is new in January.
   */
  lemma AsWrittenMisassigns()
    ensures var rows := [RankRow(2024, 1, 1, "b"), RankRow(2024, 1, 2, "a"), RankRow(2024, 2, 1, "a")];
      RankOrdered(rows) && Partition(rows, ["a", "b"])
      && AsWrittenMoves(rows, ["a", "b"])[1] == Up(1) && IntendedMove(rows, 1) == New
  {
    var rows := [RankRow(2024, 1, 1, "b"), RankRow(2024, 1, 2, "a"), RankRow(2024, 2, 1, "a")];
    MisassignTable(rows);
    MisassignAsWritten(rows);
    assert rows[..1] == [rows[0]];
    assert IntendedMove(rows, 1) == New;
  }

  /** The table of AsWrittenMisassigns is ordered as the query returns it, and its keywords are "a" and "b". */
  lemma MisassignTable(rows: seq<RankRow>)
    requires rows == [RankRow(2024, 1, 1, "b"), RankRow(2024, 1, 2, "a"), RankRow(2024, 2, 1, "a")]
    ensures RankOrdered(rows) && Partition(rows, ["a", "b"])
  {
  }

  /** In that table the second move the grouping produces is February's move of "a", up by one. */
  lemma MisassignAsWritten(rows: seq<RankRow>)
    requires rows == [RankRow(2024, 1, 1, "b"), RankRow(2024, 1, 2, "a"), RankRow(2024, 2, 1, "a")]
    ensures |AsWrittenMoves(rows, ["a", "b"])| > 1 && AsWrittenMoves(rows, ["a", "b"])[1] == Up(1)
  {
    assert rows[..2] == [rows[0], rows[1]] && rows[..1] == [rows[0]];
    assert History(rows[..1], "a") == [];
    assert History(rows[..2], "a") == [rows[1]];
    assert History(rows, "a") == [rows[1], rows[2]];
    assert ["a", "b"][..1] == ["a"];
    assert ["a"][..0] == [];
    assert AsWrittenMoves(rows, ["a"]) == MovesOf([rows[1], rows[2]]);
    assert MovesOf([rows[1], rows[2]])[1] == Up(1);
  }
}
