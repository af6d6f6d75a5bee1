/**
 * `hash32` (apps/service/static/main_c.js and test_html/apps/service/static/main.js): the
 * 32-bit FNV-1a hash of a string's UTF-16 code units, returned as an unsigned number.
 */
module Fnv {
  import opened Text

  const OffsetBasis: bv32 := 2166136261
  const Prime: bv32 := 16777619

  /** A UTF-16 code unit, as `charCodeAt` returns it. */
  type Unit = u: int | 0 <= u < 0x1_0000

  // ---------------------------------------------------------------------------------------
  // UTF-16

  /** The code units of one character: itself below U+10000, else its surrogate pair. */
  function CharUnits(c: char): (r: seq<Unit>)
    ensures |r| == if c as int < 0x1_0000 then 1 else 2
  {
    var v := c as int;
    if v < 0x1_0000 then [v]
    else [0xD800 + (v - 0x1_0000) / 0x400, 0xDC00 + (v - 0x1_0000) % 0x400]
  }

  /** The string as JavaScript holds it: one code unit per character, two for astral ones. */
  function Utf16(s: string): (r: seq<Unit>)
    ensures |r| >= |s|
  {
    if s == [] then [] else CharUnits(s[0]) + Utf16(s[1..])
  }

  /** Reads code units back as characters; a lone surrogate has no reading. */
  function FromUtf16(u: seq<Unit>): Option<string>
    decreases |u|
  {
    if u == [] then Some([])
    else if 0xD800 <= u[0] < 0xDC00 && |u| >= 2 && 0xDC00 <= u[1] < 0xE000 then
      var v := (u[0] as int - 0xD800) * 0x400 + (u[1] as int - 0xDC00) + 0x1_0000;
      match FromUtf16(u[2..])
      case None => None
      case Some(rest) => Some([v as char] + rest)
    else if 0xD800 <= u[0] < 0xE000 then None
    else
      match FromUtf16(u[1..])
      case None => None
      case Some(rest) => Some([u[0] as char] + rest)
  }

  lemma SurrogatePair(c: char)
    requires c as int >= 0x1_0000
    ensures var u := CharUnits(c);
      0xD800 <= u[0] < 0xDC00 && 0xDC00 <= u[1] < 0xE000
      && (u[0] as int - 0xD800) * 0x400 + (u[1] as int - 0xDC00) + 0x1_0000 == c as int
  {
    var v := c as int - 0x1_0000;
    assert v == (v / 0x400) * 0x400 + v % 0x400;
  }

  /** Reading the code units of one character before others gives that character first. */
  lemma CharUnitsRead(c: char, rest: seq<Unit>)
    ensures FromUtf16(CharUnits(c) + rest) ==
      match FromUtf16(rest)
      case None => None
      case Some(t) => Some([c] + t)
  {
    var u := CharUnits(c) + rest;
    if c as int >= 0x1_0000 {
      SurrogatePair(c);
      assert u[2..] == rest;
    } else {
      assert u[1..] == rest;
    }
  }

  /** UTF-16 loses nothing: the code units read back as the string. */
  lemma {:induction false} Utf16RoundTrip(s: string)
    ensures FromUtf16(Utf16(s)) == Some(s)
  {
    if s != [] {
      Utf16RoundTrip(s[1..]);
      CharUnitsRead(s[0], Utf16(s[1..]));
      assert [s[0]] + s[1..] == s;
    }
  }

  // ---------------------------------------------------------------------------------------
  // FNV-1a

  /** One round: xor in the code unit, then multiply by the prime modulo 2^32 (`Math.imul`). */
  function Step(h: bv32, u: Unit): bv32 {
    (h ^ (u as bv32)) * Prime
  }

  /** The hash of a sequence of code units, as a left fold from the offset basis. */
  function HashOf(units: seq<Unit>): bv32 {
    if units == [] then OffsetBasis else Step(HashOf(units[..|units| - 1]), units[|units| - 1])
  }

  /** The fold continued from any state `h`. */
  function Continue(h: bv32, units: seq<Unit>): bv32
    decreases |units|
  {
    if units == [] then h else Continue(Step(h, units[0]), units[1..])
  }

  /** Hashing a concatenation continues from the hash of the first part. */
  lemma {:induction false} HashOfAppend(a: seq<Unit>, b: seq<Unit>)
    ensures HashOf(a + b) == Continue(HashOf(a), b)
    decreases |b|
  {
    if b != [] {
      var a' := a + [b[0]];
      assert a + b == a' + b[1..];
      assert a'[..|a'| - 1] == a;
      HashOfAppend(a', b[1..]);
    } else {
      assert a + b == a;
    }
  }

  /** `hash32`: the loop over the code units, then the unsigned result (`h >>> 0`). */
  method Hash32(s: string) returns (h: nat)
    ensures h < 0x1_0000_0000
    ensures h == HashOf(Utf16(s)) as nat
  {
    var units := Utf16(s);
    var acc := OffsetBasis;
    for i := 0 to |units|
      invariant acc == HashOf(units[..i])
    {
      assert units[..i + 1][..i] == units[..i];
      acc := Step(acc, units[i]);
    }
    assert units[..|units|] == units;
    h := acc as nat;
  }

  /** The published FNV-1a test value: "a" hashes to 0xe40c292c. */
  lemma HashOfA()
    ensures HashOf(Utf16("a")) == 0xe40c292c
  {
    assert Utf16("a") == [97];
    var units: seq<Unit> := [97];
    assert units[..0] == [];
    assert HashOf(units) == Step(OffsetBasis, 97);
    assert OffsetBasis ^ 97 == 0x811C9DA4;
    assert (0x811C9DA4 as bv32) * Prime == 0xe40c292c;
  }
}
