/**
 * The looping product carousel of the service home page (apps/service/static/home.js): a
 * track holding a copy of the last slide, the real slides and a copy of the first; the
 * moves to the next and previous slide that pass over a copy and then jump back onto the
 * real slide it mirrors; the card row that follows the real index; and the drag gesture.
 */
module HomeCarousel {
  import opened Text
  import Calendar
  import Arith

  // ---------------------------------------------------------------------------------------
  // The track

  /** A slide element: the real slide it shows and whether it is a copy. */
  datatype Slide = Slide(idx: nat, clone: bool)

  /**
   * The clone setup: without the loop mark the track gets a copy of the last slide in front
   * and a copy of the first at the end, and is marked; with the mark it is left as it is.
   */
  function Setup(slides: seq<Slide>, looped: bool): (r: (seq<Slide>, bool))
    requires slides != []
    ensures r.1
    ensures looped ==> r.0 == slides
    ensures !looped ==> |r.0| == |slides| + 2 && r.0[1..|slides| + 1] == slides
    ensures !looped ==> r.0[0] == slides[|slides| - 1].(clone := true) && r.0[|slides| + 1] == slides[0].(clone := true)
  {
    if looped then (slides, true)
    else ([slides[|slides| - 1].(clone := true)] + slides + [slides[0].(clone := true)], true)
  }

  /** The real slides, numbered in order as `data-idx` numbers them. */
  predicate Numbered(slides: seq<Slide>) {
    forall i :: 0 <= i < |slides| ==> slides[i] == Slide(i, false)
  }

  /** The real slide shown at a track position: the copies show the last and the first. */
  function RealAt(n: nat, t: int): (r: int)
    requires n >= 1 && 0 <= t <= n + 1
    ensures 0 <= r < n
  {
    if t == 0 then n - 1 else if t == n + 1 then 0 else t - 1
  }

  /** Every position of a set-up track shows the real slide `RealAt` names. */
  lemma SetupMirrors(slides: seq<Slide>, t: int)
    requires slides != [] && Numbered(slides) && 0 <= t <= |slides| + 1
    ensures Setup(slides, false).0[t].idx == RealAt(|slides|, t)
  {
  }

  /** Running the setup again on a marked track adds no further copies. */
  lemma SetupOnce(slides: seq<Slide>)
    requires slides != []
    ensures Setup(Setup(slides, false).0, Setup(slides, false).1) == Setup(slides, false)
  {
  }

  // ---------------------------------------------------------------------------------------
  // Indices

  /** The real index after `next`. */
  function NextReal(n: nat, r: int): (s: int)
    requires n >= 1 && 0 <= r < n
    ensures s == (r + 1) % n
  {
    if r == n - 1 then 0 else r + 1
  }

  /** The real index after `prev`. */
  function PrevReal(n: nat, r: int): (s: int)
    requires n >= 1 && 0 <= r < n
    ensures 0 <= s < n
  {
    if r == 0 then n - 1 else r - 1
  }

  /** `prev` undoes `next`, and `next` undoes `prev`. */
  lemma NextPrevInverse(n: nat, r: int)
    requires n >= 1 && 0 <= r < n
    ensures PrevReal(n, NextReal(n, r)) == r && NextReal(n, PrevReal(n, r)) == r
  {
  }

  /** The real index after `k` presses of `next`. */
  function NextTimes(n: nat, r: int, k: nat): (s: int)
    requires n >= 1 && 0 <= r < n
    ensures 0 <= s < n
  {
    if k == 0 then r else NextReal(n, NextTimes(n, r, k - 1))
  }

  /** `k` presses of `next` advance by `k` modulo the slide count. */
  lemma {:induction false} NextTimesMod(n: nat, r: int, k: nat)
    requires n >= 1 && 0 <= r < n
    ensures NextTimes(n, r, k) == (r + k) % n
  {
    if k == 0 {
      Arith.ModOf(r, n, 0, r);
    } else {
      NextTimesMod(n, r, k - 1);
      Arith.ModSucc(r + k - 1, n);
    }
  }

  /** `n` presses of `next` come back to the same slide. */
  lemma FullTurn(n: nat, r: int)
    requires n >= 1 && 0 <= r < n
    ensures NextTimes(n, r, n) == r
  {
    NextTimesMod(n, r, n);
    Arith.ModOf(r + n, n, 1, r);
  }

  /**
   * `Number.parseInt(text, 10)`: leading white space, an optional sign and the longest run of
   * digits after it; no digit gives NaN (None).
   */
  function ParseInt(s: string): (r: Option<int>)
    ensures (s == [] || IsDigit(s[0])) ==> (r.Some? ==> r.value >= 0)
  {
    SignedDigits(DropLeading(s, JsSpace))
  }

  /** What `parseInt` reads once the leading white space is gone. */
  function SignedDigits(t: string): Option<int> {
    if t != [] && t[0] == '-' then
      var d := DigitRun(t[1..]);
      if d == [] then None else Some(-(Calendar.DigitsValue(d) as int))
    else if t != [] && t[0] == '+' then
      var d := DigitRun(t[1..]);
      if d == [] then None else Some(Calendar.DigitsValue(d))
    else
      var d := DigitRun(t);
      if d == [] then None else Some(Calendar.DigitsValue(d))
  }

  /** The leading digits of a text. */
  function DigitRun(s: string): (r: string)
    ensures |r| <= |s| && r == s[..|r|] && Calendar.AllDigits(r)
    ensures |r| < |s| ==> !IsDigit(s[|r|])
  {
    if s == [] || !IsDigit(s[0]) then [] else [s[0]] + DigitRun(s[1..])
  }

  /** The digit run of a digit string followed by a non-digit, or by nothing, is that string. */
  lemma {:induction false} DigitRunOf(d: string, rest: string)
    requires Calendar.AllDigits(d)
    requires rest == [] || !IsDigit(rest[0])
    ensures DigitRun(d + rest) == d
  {
    if d != [] {
      DigitRunOf(d[1..], rest);
      assert (d + rest)[1..] == d[1..] + rest;
    }
  }

  /**
   * The decimal text of a number, as `String(n)` writes the slide index into `data-slide`,
   * parses back to the number, whatever non-digit text follows it.
   */
  lemma ParseIntDecimal(n: nat, rest: string)
    requires rest == [] || !IsDigit(rest[0])
    ensures ParseInt(Calendar.Decimal(n) + rest) == Some(n)
  {
    var d := Calendar.Decimal(n);
    DigitRunOf(d, rest);
    UnsignedDigits(d + rest, n);
  }

  /** With a minus sign in front, the decimal text of a number parses to its negation. */
  lemma ParseIntNegatedDecimal(n: nat, rest: string)
    requires rest == [] || !IsDigit(rest[0])
    ensures ParseInt("-" + Calendar.Decimal(n) + rest) == Some(-(n as int))
  {
    var d := Calendar.Decimal(n);
    DigitRunOf(d, rest);
    assert "-" + d + rest == ['-'] + (d + rest);
    NegatedDigits(d + rest, n);
  }

  /** Text that opens with a digit run denoting `n` parses to `n`. */
  lemma UnsignedDigits(t: string, n: nat)
    requires DigitRun(t) != [] && Calendar.DigitsValue(DigitRun(t)) == n
    ensures ParseInt(t) == Some(n)
  {
    NoSpaceFirst(t);
  }

  /** A minus sign followed by a digit run denoting `n` parses to `-n`. */
  lemma NegatedDigits(t: string, n: nat)
    requires DigitRun(t) != [] && Calendar.DigitsValue(DigitRun(t)) == n
    ensures ParseInt(['-'] + t) == Some(-(n as int))
  {
    var m := ['-'] + t;
    NoSpaceFirst(m);
    assert m[1..] == t;
  }

  /** Text whose first character is not white space loses nothing to the leading trim. */
  lemma NoSpaceFirst(t: string)
    requires t != [] && !JsSpace(t[0])
    ensures DropLeading(t, JsSpace) == t
  {
  }

  /** `findIndex`: the first position holding true, or -1. */
  function FirstTrue(s: seq<bool>): (r: int)
    ensures -1 <= r < |s|
    ensures r == -1 <==> forall i :: 0 <= i < |s| ==> !s[i]
    ensures r >= 0 ==> s[r] && forall j :: 0 <= j < r ==> !s[j]
  {
    if s == [] then -1
    else if s[0] then 0
    else
      var k := FirstTrue(s[1..]);
      if k == -1 then -1 else k + 1
  }

  /** The initial real index: the first active card's index capped at the last slide, else 0. */
  function InitialReal(cardActive: seq<bool>, n: nat): (r: int)
    requires n >= 1
    ensures 0 <= r < n
    ensures (forall i :: 0 <= i < |cardActive| ==> !cardActive[i]) ==> r == 0
    ensures forall i :: 0 <= i < |cardActive| && cardActive[i] && (forall j :: 0 <= j < i ==> !cardActive[j]) ==> r == (if i < n - 1 then i else n - 1)
  {
    var idx := FirstTrue(cardActive);
    if idx >= 0 then (if idx < n - 1 then idx else n - 1) else 0
  }

  /** The track's `transform`: a percentage of the slide width, or a pixel offset while dragging. */
  datatype Transform = Percent(p: int) | Pixels(px: int)

  // ---------------------------------------------------------------------------------------
  // The page

  class Carousel {
    /** realCount. */
    const n: nat
    var realIndex: int
    var trackIndex: int
    /** The card shown active (the real index `updateUI` was given). */
    var activeCard: int
    /** The track position whose slide is shown active. */
    var activeSlide: int
    var transform: Transform
    var animating: bool
    var isDown: bool
    var isDragging: bool
    var didDrag: bool
    var startX: int
    var startY: int
    var lastX: int

    /**
     * The track position is a real slide or one of the two copies, and always shows the real
     * slide the real index names; the active card is the real index and the active slide the
     * track position.
     */
    predicate Valid()
      reads this
    {
      n >= 1 && 0 <= realIndex < n && 0 <= trackIndex <= n + 1
      && RealAt(n, trackIndex) == realIndex
      && activeCard == realIndex && activeSlide == trackIndex
    }

    /** Resting on a real slide: the state every transition end leaves. */
    predicate AtRest()
      reads this
    {
      1 <= trackIndex <= n && trackIndex == realIndex + 1
    }

    /** The page starts on the initial real slide without animation. */
    constructor(n: nat, cardActive: seq<bool>)
      requires n >= 1
      ensures this.n == n && Valid() && AtRest()
      ensures realIndex == InitialReal(cardActive, n) && transform == Percent(-100 * trackIndex) && !animating
      ensures !isDown && !isDragging && !didDrag
    {
      this.n := n;
      var r := InitialReal(cardActive, n);
      realIndex, trackIndex := r, r + 1;
      activeCard, activeSlide := r, r + 1;
      transform := Percent(-100 * (r + 1));
      animating := false;
      isDown, isDragging, didDrag := false, false, false;
      startX, startY, lastX := 0, 0, 0;
    }

    /** goTrack: the track moves to a position and the active slide and card follow. */
    method GoTrack(t: int, uiReal: int, animate: bool)
      modifies this
      ensures trackIndex == t && activeSlide == t && activeCard == uiReal
      ensures transform == Percent(-100 * t) && animating == (animate || old(animating))
      ensures realIndex == old(realIndex) && isDown == old(isDown) && isDragging == old(isDragging)
      ensures didDrag == old(didDrag) && startX == old(startX) && lastX == old(lastX)
    {
      trackIndex := t;
      if animate {
        animating := true;
      }
      transform := Percent(-100 * t);
      activeSlide, activeCard := t, uiReal;
    }

    /** goReal: the real index is set and the track moves one past it. */
    method GoReal(r: int, animate: bool)
      requires n >= 1 && 0 <= r < n
      modifies this
      ensures Valid() && AtRest() && realIndex == r && transform == Percent(-100 * (r + 1))
      ensures animating == (animate || old(animating))
      ensures isDown == old(isDown) && isDragging == old(isDragging) && didDrag == old(didDrag)
      ensures startX == old(startX) && lastX == old(lastX)
    {
      realIndex := r;
      GoTrack(r + 1, r, animate);
    }

    /** next: from the last real slide onto the copy of the first, otherwise one slide on. */
    method Next()
      requires Valid()
      modifies this
      ensures Valid() && realIndex == NextReal(n, old(realIndex))
      ensures trackIndex == (if old(realIndex) == n - 1 then n + 1 else old(realIndex) + 2)
      ensures animating && transform == Percent(-100 * trackIndex)
      ensures isDown == old(isDown) && isDragging == old(isDragging) && didDrag == old(didDrag)
      ensures startX == old(startX) && lastX == old(lastX)
    {
      if realIndex == n - 1 {
        realIndex := 0;
        GoTrack(n + 1, 0, true);
      } else {
        GoReal(realIndex + 1, true);
      }
    }

    /** prev: from the first real slide onto the copy of the last, otherwise one slide back. */
    method Prev()
      requires Valid()
      modifies this
      ensures Valid() && realIndex == PrevReal(n, old(realIndex))
      ensures trackIndex == old(realIndex)
      ensures animating && transform == Percent(-100 * trackIndex)
      ensures isDown == old(isDown) && isDragging == old(isDragging) && didDrag == old(didDrag)
      ensures startX == old(startX) && lastX == old(lastX)
    {
      if realIndex == 0 {
        realIndex := n - 1;
        GoTrack(0, n - 1, true);
      } else {
        GoReal(realIndex - 1, true);
      }
    }

    /**
     * transitionend on the transform: the animation ends, and a track resting on a copy jumps,
     * without animation, to the real slide the copy mirrors. Afterwards the track rests on the
     * real slide of the unchanged real index.
     */
    method TransitionEnd(isTransform: bool)
      requires Valid()
      modifies this
      ensures Valid() && realIndex == old(realIndex)
      ensures !isTransform ==> trackIndex == old(trackIndex) && animating == old(animating)
      ensures isTransform ==> AtRest() && !animating
      ensures isTransform && old(trackIndex) != trackIndex ==> transform == Percent(-100 * trackIndex)
      ensures isDown == old(isDown) && isDragging == old(isDragging) && didDrag == old(didDrag)
    {
      if !isTransform {
        return;
      }
      animating := false;
      if trackIndex == n + 1 {
        trackIndex := 1;
        transform := Percent(-100);
        realIndex := 0;
        activeCard, activeSlide := 0, 1;
      }
      if trackIndex == 0 {
        trackIndex := n;
        transform := Percent(-100 * n);
        realIndex := n - 1;
        activeCard, activeSlide := n - 1, n;
      }
    }

    /**
     * A card click, or Enter or Space on a card: its `data-slide` read by parseInt; NaN is
     * ignored and a larger index is capped at the last slide.
     */
    method ChooseCard(slide: string)
      requires Valid()
      requires ParseInt(slide).Some? ==> ParseInt(slide).value >= 0
      modifies this
      ensures Valid()
      ensures ParseInt(slide).None? ==> realIndex == old(realIndex) && trackIndex == old(trackIndex)
      ensures ParseInt(slide).Some? ==> AtRest()
      ensures ParseInt(slide).Some? ==> realIndex == (if ParseInt(slide).value < n - 1 then ParseInt(slide).value else n - 1)
    {
      var idx := ParseInt(slide);
      if idx.None? {
        return;
      }
      GoReal(if idx.value < n - 1 then idx.value else n - 1, true);
    }

    /** dragStart: a press begins a possible drag and stops any animation. */
    method DragStart(x: int, y: int)
      requires Valid()
      modifies this
      ensures Valid() && isDown && !isDragging && !didDrag && startX == x && startY == y && lastX == x
      ensures !animating && realIndex == old(realIndex) && trackIndex == old(trackIndex) && transform == old(transform)
    {
      isDown, isDragging, didDrag := true, false, false;
      startX, startY, lastX := x, y, x;
      animating := false;
    }

    /**
     * dragMove: a pressed pointer starts dragging once it has moved at least 6 pixels across
     * and no more up or down than across; a drag follows the pointer from the slide's offset.
     */
    method DragMove(x: int, y: int, width: int)
      requires Valid()
      modifies this
      ensures Valid() && realIndex == old(realIndex) && trackIndex == old(trackIndex)
      ensures isDown == old(isDown) && startX == old(startX) && startY == old(startY)
      ensures var dx, dy := x - startX, y - startY;
        isDragging == (old(isDragging) || (isDown && Abs(dx) >= 6 && Abs(dy) <= Abs(dx)))
      ensures isDragging && isDown ==> didDrag && lastX == x && transform == Pixels(-(trackIndex * width) + (x - startX))
      ensures !(isDragging && isDown) ==> didDrag == old(didDrag) && lastX == old(lastX) && transform == old(transform)
    {
      if !isDown {
        return;
      }
      var dx, dy := x - startX, y - startY;
      if !isDragging {
        if Abs(dx) < 6 {
          return;
        }
        if Abs(dy) > Abs(dx) {
          return;
        }
        isDragging := true;
      }
      didDrag := true;
      lastX := x;
      transform := Pixels(-(trackIndex * width) + dx);
    }

    /**
     * dragEnd: a drag of more than 18% of the width moves to the next slide when it went left
     * and to the previous one when it went right; anything else snaps back to the slide.
     */
    method DragEnd(width: int)
      requires Valid()
      modifies this
      ensures Valid() && !isDragging
      ensures !old(isDown) ==> realIndex == old(realIndex) && trackIndex == old(trackIndex) && isDown == old(isDown)
      ensures old(isDown) ==> !isDown && transform == Percent(-100 * trackIndex)
      ensures var dx := old(lastX) - old(startX);
        old(isDown) && old(isDragging) && 100 * Abs(dx) > 18 * width ==>
          realIndex == (if dx < 0 then NextReal(n, old(realIndex)) else PrevReal(n, old(realIndex)))
      ensures var dx := old(lastX) - old(startX);
        old(isDown) && !(old(isDragging) && 100 * Abs(dx) > 18 * width) ==>
          realIndex == old(realIndex) && trackIndex == old(trackIndex)
    {
      if !isDown {
        isDragging := false;
        return;
      }
      isDown := false;
      var dx := lastX - startX;
      if isDragging && 100 * Abs(dx) > 18 * width {
        if dx < 0 {
          Next();
        } else {
          Prev();
        }
      } else {
        GoTrack(trackIndex, realIndex, true);
      }
      isDragging := false;
    }

    /** The capture-phase click after a drag is swallowed once. */
    method ClickAfterDrag() returns (swallowed: bool)
      modifies this
      ensures swallowed == old(didDrag) && !didDrag
      ensures realIndex == old(realIndex) && trackIndex == old(trackIndex) && activeCard == old(activeCard)
      ensures activeSlide == old(activeSlide) && isDown == old(isDown) && isDragging == old(isDragging)
    {
      swallowed := didDrag;
      didDrag := false;
    }
  }

  function Abs(x: int): (r: int)
    ensures r >= 0 && (r == x || r == -x)
  {
    if x < 0 then -x else x
  }
}
