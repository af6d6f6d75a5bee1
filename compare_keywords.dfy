/**
 * The trend chart's keyword comparison (apps/service/static/main.js, main_b.js and
 * test_html/apps/service/static/main.js): one base keyword that is always drawn, and a set of
 * keywords toggled on for comparison. A JavaScript `Set` keeps insertion order, so the set is a
 * sequence without repeats here.
 */
module CompareKeywords {
  import opened Text

  const DefaultKeyword: string := "주식"
  const MaxButtons: nat := 10

  predicate Distinct(xs: seq<string>) {
    forall i, j :: 0 <= i < j < |xs| ==> xs[i] != xs[j]
  }

  /** `Set.prototype.delete`: the sequence without `x`, the others in their order. */
  function Remove(xs: seq<string>, x: string): (r: seq<string>)
    ensures forall y :: y in r <==> y in xs && y != x
    ensures Distinct(xs) ==> Distinct(r)
  {
    if xs == [] then []
    else if xs[0] == x then Remove(xs[1..], x)
    else
      var rest := Remove(xs[1..], x);
      assert Distinct(xs) ==> Distinct(xs[1..]) && xs[0] !in xs[1..] by {
        if Distinct(xs) {
          forall i | 0 <= i < |xs| - 1 ensures xs[1..][i] != xs[0] {
            assert xs[1..][i] == xs[i + 1];
          }
        }
      }
      [xs[0]] + rest
  }

  /**
   * `toggleCompareKeyword`: the base keyword is ignored; a keyword in the set is deleted,
   * any other one is added at the end.
   */
  function Toggled(compare: seq<string>, base: string, kw: string): seq<string> {
    if kw == base then compare
    else if kw in compare then Remove(compare, kw)
    else compare + [kw]
  }

  /**
   * A toggle flips the membership of the toggled keyword (unless it is the base keyword) and
   * of no other, keeps the set free of repeats and keeps the base keyword out of it.
   */
  lemma ToggleFlips(compare: seq<string>, base: string, kw: string)
    requires Distinct(compare) && base !in compare
    ensures var r := Toggled(compare, base, kw);
      Distinct(r) && base !in r
      && (kw != base ==> (kw in r <==> kw !in compare))
      && (forall y :: y != kw ==> (y in r <==> y in compare))
  {
  }

  /** Toggling a keyword twice leaves the same keywords in the set. */
  lemma ToggleTwice(compare: seq<string>, base: string, kw: string)
    requires Distinct(compare) && base !in compare
    ensures forall y :: y in Toggled(Toggled(compare, base, kw), base, kw) <==> y in compare
  {
    ToggleFlips(compare, base, kw);
    ToggleFlips(Toggled(compare, base, kw), base, kw);
  }

  /**
   * The keyword the comparison starts from: the dropdown's hidden value, else its shown text,
   * else "주식", the first of these that is not empty, trimmed.
   */
  function InitialKeyword(hidden: Option<string>, shown: Option<string>): (r: string)
    ensures (hidden.None? || hidden.value == "") && (shown.None? || shown.value == "") ==> r == DefaultKeyword
    ensures hidden.Some? && hidden.value != "" ==> r == JsTrim(hidden.value)
    ensures JsTrim(r) == r
  {
    var raw :=
      if hidden.Some? && hidden.value != "" then hidden.value
      else if shown.Some? && shown.value != "" then shown.value
      else DefaultKeyword;
    StripIdempotent(raw, JsSpace);
    assert JsTrim(DefaultKeyword) == DefaultKeyword by {
      StripTrimmed(DefaultKeyword, JsSpace);
    }
    JsTrim(raw)
  }

  /** The first ten ranked keywords, one button each. */
  function ButtonKeywords(ranked: seq<string>): (r: seq<string>)
    ensures |r| == if |ranked| < MaxButtons then |ranked| else MaxButtons
    ensures r == ranked[..|r|]
  {
    if |ranked| < MaxButtons then ranked else ranked[..MaxButtons]
  }

  /** The chart's base keyword and the keywords drawn beside it. */
  class KeywordCompare {
    var base: string
    var compare: seq<string>

    /** The set has no repeats and never holds the base keyword. */
    predicate Valid()
      reads this
    {
      Distinct(compare) && base !in compare
    }

    /** `setBaseKeyword(init)` at start-up: the comparison starts empty. */
    constructor (init: string)
      ensures Valid() && base == init && compare == []
    {
      base := init;
      compare := [];
    }

    /** `setBaseKeyword`: a new base keyword clears the comparison. */
    method SetBaseKeyword(next: string)
      modifies this
      ensures Valid() && base == next && compare == []
    {
      base := next;
      compare := [];
    }

    /** `toggleCompareKeyword`. */
    method Toggle(kw: string)
      requires Valid()
      modifies this
      ensures Valid() && base == old(base)
      ensures compare == Toggled(old(compare), old(base), kw)
    {
      ToggleFlips(compare, base, kw);
      if kw == base {
        return;
      }
      if kw in compare {
        compare := Remove(compare, kw);
      } else {
        compare := compare + [kw];
      }
    }

    /**
     * `rebuildButtons`: one button for each of the first ten ranked keywords; a base keyword
     * missing from them is replaced by the first (which clears the comparison).
     */
    method RebuildButtons(ranked: seq<string>) returns (buttons: seq<string>)
      requires Valid()
      modifies this
      ensures Valid() && buttons == ButtonKeywords(ranked)
      ensures buttons != [] && old(base) !in buttons ==> base == buttons[0] && compare == []
      ensures !(buttons != [] && old(base) !in buttons) ==> base == old(base) && compare == old(compare)
      ensures buttons != [] ==> base in buttons
    {
      buttons := ButtonKeywords(ranked);
      if buttons != [] && base !in buttons {
        SetBaseKeyword(buttons[0]);
      }
    }

    /** `syncButtons`: a button is pressed when its keyword is the base or being compared. */
    function Pressed(kw: string): (r: bool)
      reads this
      ensures r <==> kw in ChartKeywords()
    {
      kw == base || kw in compare
    }

    /** The keywords `buildDatasets` draws: the base first, then the set in insertion order. */
    function ChartKeywords(): (r: seq<string>)
      reads this
      ensures |r| == |compare| + 1 && r[0] == base && r[1..] == compare
    {
      [base] + compare
    }

    /** No keyword is drawn twice, and the base keyword is drawn exactly once, first. */
    lemma ChartKeywordsDistinct()
      requires Valid()
      ensures Distinct(ChartKeywords())
    {
      var r := ChartKeywords();
      forall i, j | 0 <= i < j < |r| ensures r[i] != r[j] {
        if i == 0 {
          assert r[j] == compare[j - 1];
        } else {
          assert r[i] == compare[i - 1] && r[j] == compare[j - 1];
        }
      }
    }
  }
}
