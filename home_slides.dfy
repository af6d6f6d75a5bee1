/**
 * The static home page's slider (html/home.js): choosing a card clamps its slide number into
 * the slides, moves the track there and marks exactly that slide and that card active.
 */
module HomeSlides {
  import opened Text
  import AdminRuns
  import HomeCarousel

  /**
   * `Math.max(0, Math.min(index, max))` on a JavaScript number: NaN stays NaN, anything else
   * ends up in [0, max].
   */
  function ClampIndex(index: AdminRuns.Num, max: int): (r: AdminRuns.Num)
    requires max >= 0
    ensures index.NaN? <==> r.NaN?
    ensures r.Num? ==> 0 <= r.v <= max
    ensures index.Num? && 0 <= index.v <= max ==> r == index
    ensures index.Num? && index.v > max ==> r.v == max
    ensures index.Num? && index.v < 0 ==> r.v == 0
  {
    match index
    case NaN => AdminRuns.NaN
    case Num(v) => AdminRuns.Num(if v < 0 then 0 else if v > max then max else v)
  }

  /** `Number(card.dataset.slide)`: a missing attribute is NaN. */
  function SlideNumber(attr: Option<string>): (r: AdminRuns.Num)
    ensures attr.None? ==> r.NaN?
    ensures attr == Some("") ==> r == AdminRuns.Num(0)
  {
    if attr.None? then AdminRuns.NaN else AdminRuns.NumberOf(attr.value)
  }

  /** `Math.max(0, cards.findIndex(active))`: the first active card, or 0 when none is. */
  function InitialIndex(cardActive: seq<bool>): (r: nat)
    ensures (forall k :: 0 <= k < |cardActive| ==> !cardActive[k]) ==> r == 0
    ensures r < |cardActive| ==> forall j :: 0 <= j < r ==> !cardActive[j]
    ensures r > 0 ==> r < |cardActive| && cardActive[r]
  {
    var idx := HomeCarousel.FirstTrue(cardActive);
    if idx < 0 then 0 else idx
  }

  /** The track's `transform`: `translateX(-i*100%)`, or the text with NaN in it. */
  datatype Transform = Shift(percent: int) | ShiftNaN

  class Slider {
    /** The slides' and the cards' `is-active` classes; `ariaPressed` mirrors the cards'. */
    const slideActive: array<bool>
    const cardActive: array<bool>
    const ariaPressed: array<bool>
    var transform: Transform

    predicate Valid()
      reads this
    {
      slideActive.Length >= 1 && cardActive.Length == ariaPressed.Length
      && slideActive != cardActive && slideActive != ariaPressed && cardActive != ariaPressed
    }

    /**
     * The page starts on the first card marked active, or on the first slide; it needs at
     * least one slide and one card.
     */
    constructor(slideCount: nat, initialCards: seq<bool>)
      requires slideCount >= 1 && |initialCards| >= 1
      ensures Valid() && slideActive.Length == slideCount && cardActive.Length == |initialCards|
      ensures fresh(slideActive) && fresh(cardActive) && fresh(ariaPressed)
      ensures var i := ClampIndex(AdminRuns.Num(InitialIndex(initialCards)), slideCount - 1).v;
        transform == Shift(-100 * i)
        && (forall k :: 0 <= k < slideActive.Length ==> slideActive[k] == (k == i))
        && (forall k :: 0 <= k < cardActive.Length ==> cardActive[k] == (k == i) && ariaPressed[k] == (k == i))
    {
      slideActive := new bool[slideCount];
      cardActive := new bool[|initialCards|](k requires 0 <= k < |initialCards| => initialCards[k]);
      ariaPressed := new bool[|initialCards|];
      transform := ShiftNaN;
      new;
      SetActive(AdminRuns.Num(InitialIndex(initialCards)));
    }

    /**
     * setActive: the index clamped into the slides; the track moves there and exactly that
     * slide and that card are active. A NaN index leaves the track at an invalid shift and no
     * slide or card active.
     */
    method SetActive(index: AdminRuns.Num)
      requires Valid()
      modifies this, slideActive, cardActive, ariaPressed
      ensures Valid()
      ensures var i := ClampIndex(index, slideActive.Length - 1);
        (i.NaN? ==> transform == ShiftNaN)
        && (i.Num? ==> transform == Shift(-100 * i.v))
        && (forall k :: 0 <= k < slideActive.Length ==> slideActive[k] == (i.Num? && k == i.v))
        && (forall k :: 0 <= k < cardActive.Length ==> cardActive[k] == (i.Num? && k == i.v))
        && (forall k :: 0 <= k < ariaPressed.Length ==> ariaPressed[k] == (i.Num? && k == i.v))
    {
      var i := ClampIndex(index, slideActive.Length - 1);
      transform := if i.NaN? then ShiftNaN else Shift(-100 * i.v);
      ghost var shift := transform;
      var k := 0;
      while k < slideActive.Length
        invariant 0 <= k <= slideActive.Length && transform == shift
        invariant forall j :: 0 <= j < k ==> slideActive[j] == (i.Num? && j == i.v)
      {
        slideActive[k] := i.Num? && k == i.v;
        k := k + 1;
      }
      k := 0;
      while k < cardActive.Length
        invariant 0 <= k <= cardActive.Length && transform == shift
        invariant forall j :: 0 <= j < slideActive.Length ==> slideActive[j] == (i.Num? && j == i.v)
        invariant forall j :: 0 <= j < k ==> cardActive[j] == (i.Num? && j == i.v) && ariaPressed[j] == cardActive[j]
      {
        cardActive[k] := i.Num? && k == i.v;
        ariaPressed[k] := cardActive[k];
        k := k + 1;
      }
    }

    /** A card click, or Enter or Space on it: the card's slide number is made active. */
    method ChooseCard(attr: Option<string>)
      requires Valid()
      modifies this, slideActive, cardActive, ariaPressed
      ensures Valid()
      ensures var i := ClampIndex(SlideNumber(attr), slideActive.Length - 1);
        (i.NaN? ==> transform == ShiftNaN)
        && (i.Num? ==> transform == Shift(-100 * i.v))
        && (forall k :: 0 <= k < cardActive.Length ==> cardActive[k] == (i.Num? && k == i.v))
        && (forall k :: 0 <= k < slideActive.Length ==> slideActive[k] == (i.Num? && k == i.v))
        && (forall k :: 0 <= k < ariaPressed.Length ==> ariaPressed[k] == (i.Num? && k == i.v))
    {
      SetActive(SlideNumber(attr));
    }
  }

  /** At most one slide is active after setActive, and one exactly when the index is a number. */
  lemma OneActive(active: seq<bool>, i: AdminRuns.Num)
    requires forall k :: 0 <= k < |active| ==> active[k] == (i.Num? && k == i.v)
    requires i.Num? ==> 0 <= i.v < |active|
    ensures |set k | 0 <= k < |active| && active[k]| == (if i.Num? then 1 else 0)
  {
    if i.Num? {
      assert (set k | 0 <= k < |active| && active[k]) == {i.v};
    } else {
      assert (set k | 0 <= k < |active| && active[k]) == {};
    }
  }
}
