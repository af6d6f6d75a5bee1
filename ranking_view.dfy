/**
 * The ranking panel's text helpers and keyword selection (apps/service/static/main_c.js and
 * main_b.js): the change rate and rank move as shown, the keyword dropdown rebuilt from the
 * ranking, and the keyword kept selected after the ranking is fetched again.
 */
module RankingView {
  import opened Text
  import opened Calendar

  // ---------------------------------------------------------------------------------------
  // Rates

  /** JavaScript's text of an integer: its digits, after "-" when negative. */
  function NumText(n: int): (s: string)
    ensures |s| >= 1
  {
    if n < 0 then "-" + Decimal(-n) else Decimal(n)
  }

  /** `fmtRate`: "-" for a missing rate, else the number with "+" before a positive one, then "%". */
  function FmtRate(n: Option<int>): string {
    match n
    case None => "-"
    case Some(v) => (if v > 0 then "+" else "") + NumText(v) + "%"
  }

  /** `rateClass`: the colour follows the sign; a missing rate is flat. */
  function RateClass(n: Option<int>): string {
    match n
    case None => "is-flat"
    case Some(v) => if v > 0 then "is-up" else if v < 0 then "is-down" else "is-flat"
  }

  /** Reads a rate text back: an optional sign, decimal digits, then "%". */
  function ReadRate(s: string): Option<int> {
    if |s| < 2 || s[|s| - 1] != '%' then None
    else
      var b := s[..|s| - 1];
      if b[0] == '+' || b[0] == '-' then
        if |b| > 1 && AllDigits(b[1..]) then
          var v: int := DigitsValue(b[1..]);
          Some(if b[0] == '-' then -v else v)
        else None
      else if AllDigits(b) then Some(DigitsValue(b))
      else None
  }

  lemma ReadSigned(sign: char, d: string)
    requires sign == '+' || sign == '-'
    requires d != [] && AllDigits(d)
    ensures ReadRate([sign] + d + "%") == Some(if sign == '-' then 0 - DigitsValue(d) as int else DigitsValue(d) as int)
  {
    var s := [sign] + d + "%";
    assert s[..|s| - 1] == [sign] + d;
    assert ([sign] + d)[1..] == d;
  }

  lemma ReadUnsigned(d: string)
    requires d != [] && AllDigits(d)
    ensures ReadRate(d + "%") == Some(DigitsValue(d))
  {
    var s := d + "%";
    assert s[..|s| - 1] == d;
    assert '0' <= d[0] <= '9';
  }

  /** A shown rate reads back as the rate; the dash of a missing rate reads as no rate. */
  lemma RateRoundTrip(n: Option<int>)
    ensures ReadRate(FmtRate(n)) == n
  {
    if n.Some? {
      var v := n.value;
      if v > 0 {
        assert FmtRate(n) == ['+'] + Decimal(v) + "%";
        ReadSigned('+', Decimal(v));
      } else if v < 0 {
        assert FmtRate(n) == ['-'] + Decimal(-v) + "%";
        ReadSigned('-', Decimal(-v));
      } else {
        assert FmtRate(n) == Decimal(0) + "%";
        ReadUnsigned(Decimal(0));
      }
    }
  }

  /** The class and the text agree: "+" exactly for "is-up", "-" before digits exactly for "is-down". */
  lemma RateClassMatchesText(n: Option<int>)
    ensures RateClass(n) == "is-up" <==> FmtRate(n)[0] == '+'
    ensures RateClass(n) == "is-down" <==> FmtRate(n)[0] == '-' && |FmtRate(n)| > 1
  {
    if n.Some? && n.value == 0 {
      assert FmtRate(n)[0] == Decimal(0)[0];
    } else if n.Some? && n.value > 0 {
      assert FmtRate(n)[0] == '+';
    } else if n.Some? {
      assert FmtRate(n)[0] == '-';
    }
  }

  // ---------------------------------------------------------------------------------------
  // Rank moves

  const Up: char := '▲'
  const Down: char := '▼'

  /** A badge counts as absent when it is missing or empty (`!badge`). */
  predicate NoBadge(badge: Option<string>) {
    badge.None? || badge.value == ""
  }

  function Abs(n: int): nat { if n < 0 then -n else n }

  /**
   * `moveText`: no badge is "-", "NEW" is shown as is, "UP" and "DOWN" as an arrow and the
   * size of the rank change (`rankChange || 0`), anything else as "-".
   */
  function MoveText(badge: Option<string>, rankChange: Option<int>): string {
    var n := Abs(if rankChange.Some? then rankChange.value else 0);
    if NoBadge(badge) then "-"
    else if badge.value == "NEW" then "NEW"
    else if badge.value == "UP" then [Up] + Decimal(n)
    else if badge.value == "DOWN" then [Down] + Decimal(n)
    else "-"
  }

  /** `moveClassByBadge` (main_c.js). */
  function MoveClassByBadge(badge: Option<string>): string {
    if NoBadge(badge) then "is-flat"
    else if badge.value == "NEW" then "is-new"
    else if badge.value == "UP" then "is-up"
    else if badge.value == "DOWN" then "is-down"
    else "is-flat"
  }

  /** `moveClass` (main_b.js): decided from the shown text instead of the badge. */
  function MoveClass(move: string): string {
    if move == "NEW" then "is-new"
    else if Up in move then "is-up"
    else if Down in move then "is-down"
    else "is-flat"
  }

  lemma DigitsHaveNoArrow(s: string)
    requires AllDigits(s)
    ensures Up !in s && Down !in s
  {
    forall i | 0 <= i < |s| ensures s[i] != Up && s[i] != Down {
      assert '0' <= s[i] <= '9';
    }
  }

  /** Classing the shown move text gives the class the badge itself gives. */
  lemma MoveClassOfText(badge: Option<string>, rankChange: Option<int>)
    ensures MoveClass(MoveText(badge, rankChange)) == MoveClassByBadge(badge)
  {
    var n := Abs(if rankChange.Some? then rankChange.value else 0);
    DigitsHaveNoArrow(Decimal(n));
    assert Up in [Up] + Decimal(n);
    assert Down in [Down] + Decimal(n);
    assert Up !in "-" && Down !in "-" && Up !in "NEW" && Down !in "NEW";
  }

  /** An arrow is followed by the size of the rank change. */
  lemma MoveTextShowsChange(badge: Option<string>, rankChange: Option<int>)
    requires !NoBadge(badge) && (badge.value == "UP" || badge.value == "DOWN")
    ensures var t := MoveText(badge, rankChange);
      |t| > 1 && AllDigits(t[1..]) && DigitsValue(t[1..]) == Abs(if rankChange.Some? then rankChange.value else 0)
  {
    var n := Abs(if rankChange.Some? then rankChange.value else 0);
    assert MoveText(badge, rankChange)[1..] == Decimal(n);
  }

  // ---------------------------------------------------------------------------------------
  // Keyword dropdown and selection

  const MaxOptions: nat := 10
  const NoKeyword: string := "선택된 키워드 없음"

  /** What rebuilding the dropdown did: its options, and the value it was reset to, if any. */
  datatype Dropdown = Dropdown(options: seq<string>, resetTo: Option<string>)

  /**
   * `rebuildKeywordDropdownFromRanking`: the first ten keywords become the options; the value
   * is set to the first keyword when there is one and the current (trimmed) value is missing,
   * empty or not among the keywords.
   */
  function RebuildDropdown(keywords: seq<string>, current: Option<string>): (r: Dropdown)
    ensures |r.options| == if |keywords| < MaxOptions then |keywords| else MaxOptions
    ensures r.options == keywords[..|r.options|]
    ensures r.resetTo.Some? <==> keywords != [] && keywords[0] != "" && (NoBadge(current) || current.value !in keywords)
    ensures r.resetTo.Some? ==> r.resetTo.value == keywords[0]
  {
    var n := if |keywords| < MaxOptions then |keywords| else MaxOptions;
    var first := if keywords != [] then keywords[0] else "";
    Dropdown(keywords[..n], if first != "" && (NoBadge(current) || current.value !in keywords) then Some(first) else None)
  }

  /** After a rebuild with a non-empty first keyword, the shown value is one of the keywords. */
  lemma DropdownValueListed(keywords: seq<string>, current: Option<string>)
    requires keywords != [] && keywords[0] != ""
    ensures var r := RebuildDropdown(keywords, current);
      (if r.resetTo.Some? then r.resetTo.value else current.value) in keywords
  {
  }

  /**
   * The keyword selected after fetching the ranking: the previously selected one if kept and
   * still listed, else the first keyword, else the "no keyword" text.
   */
  function SelectionAfterFetch(keepSelected: bool, prev: Option<string>, keywords: seq<string>): (r: string)
  {
    var p := if keepSelected then prev else None;
    var fallback := if keywords != [] && keywords[0] != "" then keywords[0] else NoKeyword;
    if !NoBadge(p) && p.value in keywords then p.value else fallback
  }

  /** The selection is a listed keyword unless there is none to show, and a kept one survives. */
  lemma SelectionProperties(keepSelected: bool, prev: Option<string>, keywords: seq<string>)
    ensures var r := SelectionAfterFetch(keepSelected, prev, keywords);
      (r in keywords && r != "") || (r == NoKeyword && (keywords == [] || keywords[0] == ""))
    ensures keepSelected && !NoBadge(prev) && prev.value in keywords ==>
      SelectionAfterFetch(keepSelected, prev, keywords) == prev.value
    ensures !keepSelected && keywords != [] && keywords[0] != "" ==>
      SelectionAfterFetch(keepSelected, prev, keywords) == keywords[0]
  {
  }
}
