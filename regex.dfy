/**
 * The part of Python's `re` that the clean-text normaliser uses: patterns made of
 * single-character classes, each taken once, optionally (`?`), or any number of times
 * (`*`), plus the `$` anchor. Matching follows CPython's backtracking order (leftmost
 * start, greedy repetition backed off one character at a time), and `Sub` is
 * `re.sub(pattern, " ", text)`.
 */
module Regex {
  import opened Text

  datatype Class =
    | Lit(c: char)        // the character itself
    | Fold(c: char)       // an ASCII letter under re.IGNORECASE
    | Space               // \s
    | NotSpace            // [^\s]
    | NotBlank            // [^ ]
    | NotGt               // [^>]
    | Dot                 // . without DOTALL
    | ColonOrSlash        // [:/]
    | NotKept             // [^0-9A-Za-z가-힣\s]

  /** Characters that the normaliser keeps: `0-9A-Za-z가-힣` and whitespace. */
  predicate Kept(c: char) {
    IsDigit(c) || IsAsciiLetter(c) || IsHangul(c) || PySpace(c)
  }

  /**
   * Case-insensitive equality with an ASCII letter, including the four non-ASCII letters
   * that Python's Unicode case folding pairs with `i`, `s` and `k`.
   */
  predicate FoldEq(c: char, d: char) {
    var l := ToLowerAscii(d);
    ToLowerAscii(c) == l
    || (l == 'i' && (c == '\U{130}' || c == '\U{131}'))
    || (l == 's' && c == '\U{17F}')
    || (l == 'k' && c == '\U{212A}')
  }

  predicate InClass(k: Class, c: char) {
    match k
    case Lit(d) => c == d
    case Fold(d) => FoldEq(c, d)
    case Space => PySpace(c)
    case NotSpace => !PySpace(c)
    case NotBlank => c != ' '
    case NotGt => c != '>'
    case Dot => c != '\n'
    case ColonOrSlash => c == ':' || c == '/'
    case NotKept => !Kept(c)
  }

  datatype Item = One(k: Class) | Opt(k: Class) | Star(k: Class) | End

  type Pattern = seq<Item>

  /** The pattern cannot match the empty string, because it starts with a mandatory class. */
  predicate Consuming(p: Pattern) {
    |p| > 0 && p[0].One?
  }

  /** Number of consecutive characters of class `k` starting at `i`. */
  function Run(k: Class, s: string, i: nat): (n: nat)
    requires i <= |s|
    ensures i + n <= |s|
    ensures forall j :: i <= j < i + n ==> InClass(k, s[j])
    ensures i + n < |s| ==> !InClass(k, s[i + n])
    decreases |s| - i
  {
    if i < |s| && InClass(k, s[i]) then 1 + Run(k, s, i + 1) else 0
  }

  /**
   * End of the match of `p` that CPython's engine finds when it tries position `i`,
   * or None when `p` does not match there.
   */
  function MatchAt(p: Pattern, s: string, i: nat): (r: Option<nat>)
    requires i <= |s|
    ensures r.Some? ==> i <= r.value <= |s|
    ensures r.Some? && Consuming(p) ==> i < r.value
    decreases |p|, |s| - i + 1
  {
    if p == [] then Some(i)
    else
      match p[0]
      case One(k) =>
        if i < |s| && InClass(k, s[i]) then MatchAt(p[1..], s, i + 1) else None
      case Opt(k) =>
        var taken := if i < |s| && InClass(k, s[i]) then MatchAt(p[1..], s, i + 1) else None;
        if taken.Some? then taken else MatchAt(p[1..], s, i)
      case Star(k) =>
        BackOff(p[1..], s, i, i + Run(k, s, i))
      case End =>
        if i == |s| || (i + 1 == |s| && s[i] == '\n') then MatchAt(p[1..], s, i) else None
  }

  /** Greedy repetition: try the rest after `j` repetitions, then after one fewer, down to `lo`. */
  function BackOff(rest: Pattern, s: string, lo: nat, j: nat): (r: Option<nat>)
    requires lo <= j <= |s|
    ensures r.Some? ==> lo <= r.value <= |s|
    decreases |rest| + 1, j - lo
  {
    var m := MatchAt(rest, s, j);
    if m.Some? then m
    else if j == lo then None
    else BackOff(rest, s, lo, j - 1)
  }

  /** `re.sub(p, " ", s[i..])`: every leftmost non-overlapping match becomes one space. */
  function Sub(p: Pattern, s: string, i: nat): (r: string)
    requires i <= |s| && Consuming(p)
    ensures |r| <= |s| - i
    decreases |s| - i
  {
    if i == |s| then ""
    else
      match MatchAt(p, s, i)
      case Some(e) => " " + Sub(p, s, e)
      case None => [s[i]] + Sub(p, s, i + 1)
  }

  function SubAll(p: Pattern, s: string): string
    requires Consuming(p)
  {
    Sub(p, s, 0)
  }

  /** A substitution only removes characters or writes spaces, so it keeps any class with the space. */
  lemma {:induction false} SubChars(p: Pattern, s: string, i: nat, q: char -> bool)
    requires i <= |s| && Consuming(p)
    requires q(' ') && AllChars(s, q)
    ensures AllChars(Sub(p, s, i), q)
    decreases |s| - i
  {
    if i < |s| {
      match MatchAt(p, s, i)
      case Some(e) => SubChars(p, s, e, q);
      case None => SubChars(p, s, i + 1, q);
    }
  }

  /** Where the pattern matches nowhere, the substitution changes nothing. */
  lemma {:induction false} SubNoMatch(p: Pattern, s: string, i: nat)
    requires i <= |s| && Consuming(p)
    requires forall j :: i <= j < |s| ==> MatchAt(p, s, j).None?
    ensures Sub(p, s, i) == s[i..]
    decreases |s| - i
  {
    if i < |s| {
      SubNoMatch(p, s, i + 1);
      assert s[i..] == [s[i]] + s[i + 1..];
    }
  }

  /** A one-class pattern replaces exactly the characters of that class, one by one. */
  lemma {:induction false} SubSingle(k: Class, s: string, i: nat)
    requires i <= |s|
    ensures |Sub([One(k)], s, i)| == |s| - i
    ensures forall j :: i <= j < |s| ==>
      Sub([One(k)], s, i)[j - i] == (if InClass(k, s[j]) then ' ' else s[j])
    decreases |s| - i
  {
    if i < |s| {
      var p := [One(k)];
      assert p[1..] == [];
      assert MatchAt(p, s, i) == if InClass(k, s[i]) then Some(i + 1) else None;
      SubSingle(k, s, i + 1);
    }
  }
}
