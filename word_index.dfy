/**
 * The index bar of the economic-term pages: each term is filed under its segment (Korean,
 * English or number) and, within it, under the initial consonant of its first Hangul
 * syllable, its first Latin letter upper-cased, or its first digit. Syllables are
 * decomposed as in section 3.12 of The Unicode Standard: a syllable's code point is
 * U+AC00 + (L * 21 + V) * 28 + T, so its initial consonant is L = (code - 0xAC00) / 588.
 */
module WordIndex {
  import opened Text

  /** The 19 initial consonants `CHO`, in syllable order. */
  const Cho: seq<char> := ['\U{3131}', '\U{3132}', '\U{3134}', '\U{3137}', '\U{3138}', '\U{3139}', '\U{3141}', '\U{3142}', '\U{3143}',
                           '\U{3145}', '\U{3146}', '\U{3147}', '\U{3148}', '\U{3149}', '\U{314A}', '\U{314B}', '\U{314C}', '\U{314D}', '\U{314E}']

  /** The 14 index buttons `KO_INDEX`: the initials without the five doubled ones. */
  const KoIndex: seq<char> := ['\U{3131}', '\U{3134}', '\U{3137}', '\U{3139}', '\U{3141}', '\U{3142}', '\U{3145}',
                               '\U{3147}', '\U{3148}', '\U{314A}', '\U{314B}', '\U{314C}', '\U{314D}', '\U{314E}']

  /** `CHO_NORM[cho] || cho`: a doubled initial is filed under its plain one. */
  function ChoNorm(c: char): char {
    if c == '\U{3132}' then '\U{3131}'
    else if c == '\U{3138}' then '\U{3137}'
    else if c == '\U{3143}' then '\U{3142}'
    else if c == '\U{3146}' then '\U{3145}'
    else if c == '\U{3149}' then '\U{3148}'
    else c
  }

  /** Every initial folds onto an index button. */
  lemma ChoNormInKoIndex(k: nat)
    requires k < |Cho|
    ensures ChoNorm(Cho[k]) in KoIndex
  {
  }

  /** `Math.floor((c - 0xAC00) / 588)`: the initial-consonant index of a syllable. */
  function InitialOf(c: char): (k: nat)
    requires IsHangul(c)
    ensures k < |Cho|
  {
    (c as int - 0xAC00) / 588
  }

  /** The index button of a syllable: its folded initial consonant. */
  function SyllableIndex(c: char): (r: char)
    requires IsHangul(c)
    ensures r in KoIndex
  {
    ChoNormInKoIndex(InitialOf(c));
    ChoNorm(Cho[InitialOf(c)])
  }

  /** The syllable of initial `l`, medial `v` and final `t`. */
  function Compose(l: nat, v: nat, t: nat): char
    requires l < 19 && v < 21 && t < 28
  {
    assert (l * 21 + v) * 28 + t < 11172 by {
      assert (l * 21 + v) * 28 + t <= (18 * 21 + 20) * 28 + 27;
    }
    (0xAC00 + (l * 21 + v) * 28 + t) as char
  }

  /**
   * The syllable composed from initial `l`, medial `v` and final `t` is filed under the
   * folded initial `l`, whatever its medial and final.
   */
  lemma ComposedSyllableIndex(l: nat, v: nat, t: nat)
    requires l < 19 && v < 21 && t < 28
    ensures IsHangul(Compose(l, v, t)) && InitialOf(Compose(l, v, t)) == l
    ensures SyllableIndex(Compose(l, v, t)) == ChoNorm(Cho[l])
  {
    var n := (l * 21 + v) * 28 + t;
    assert n == l * 588 + (v * 28 + t);
    assert 0 <= v * 28 + t < 588;
    assert Compose(l, v, t) as int - 0xAC00 == n;
  }

  /** The initials are listed in increasing code-point order. */
  lemma {:induction false} ChoIncreasing(i: nat, j: nat)
    requires i < j < |Cho|
    ensures Cho[i] < Cho[j]
    decreases j - i
  {
    assert forall k :: 0 <= k < |Cho| - 1 ==> Cho[k] < Cho[k + 1];
    if i + 1 < j {
      ChoIncreasing(i + 1, j);
    }
  }

  /**
   * Syllables in code-point order are filed under buttons in code-point order, which is the
   * order of the index bar.
   */
  lemma SyllableIndexMonotone(a: char, b: char)
    requires IsHangul(a) && IsHangul(b) && a <= b
    ensures SyllableIndex(a) <= SyllableIndex(b)
  {
    var i, j := InitialOf(a), InitialOf(b);
    assert i <= j;
    if i < j {
      ChoIncreasing(i, j);
      assert Cho[i] as int <= Cho[j] as int - 1;
      assert ChoNorm(Cho[i]) <= Cho[i];
      assert ChoNorm(Cho[j]) as int >= Cho[j] as int - 1;
    }
  }

  // ---------------------------------------------------------------------------------------
  // getKoIndex, getEnIndex, getNumIndex

  /**
   * `getKoIndex` of the dictionary pages (html/word.js, the test dictionary page and the word
   * manager): the folded initial of the trimmed term's first character when it is a
   * syllable, else null.
   */
  function KoIndexOf(term: string): (r: Option<char>)
    ensures r.Some? <==> JsTrim(term) != [] && IsHangul(JsTrim(term)[0])
    ensures r.Some? ==> r.value in KoIndex
  {
    var t := JsTrim(term);
    if t != [] && IsHangul(t[0]) then Some(SyllableIndex(t[0])) else None
  }

  /** `getKoIndex` of the service page: the same, without trimming first. */
  function KoIndexUntrimmed(term: string): (r: Option<char>)
    ensures r.Some? <==> term != [] && IsHangul(term[0])
    ensures r.Some? ==> r.value in KoIndex
  {
    if term != [] && IsHangul(term[0]) then Some(SyllableIndex(term[0])) else None
  }

  /** On a term without leading whitespace both forms agree. */
  lemma KoIndexTrimAgrees(term: string)
    requires term == [] || !JsSpace(term[0])
    ensures KoIndexOf(term) == KoIndexUntrimmed(term)
  {
    if term != [] {
      JsTrimKeepsFirst(term);
    }
  }

  /** Trimming a text that starts with a non-space keeps its first character. */
  lemma {:induction false} JsTrimKeepsFirst(s: string)
    requires s != [] && !JsSpace(s[0])
    ensures JsTrim(s) != [] && JsTrim(s)[0] == s[0]
    decreases |s|
  {
    if JsSpace(s[|s| - 1]) {
      JsTrimKeepsFirst(s[..|s| - 1]);
    }
  }

  /**
   * `String.prototype.toUpperCase` of one character. Besides a-z, the characters whose
   * upper case begins with a Latin capital are the dotless i, the long s, the sharp s and
   * the Latin ligatures and letters with unconditional multi-character upper cases; every
   * other character is returned unchanged, which changes no A-Z test below.
   */
  function JsUpper(c: char): (r: string)
    ensures r != []
  {
    if IsLower(c) then [ToUpperAscii(c)]
    else if c == '\U{0131}' then "I"
    else if c == '\U{017F}' then "S"
    else if c == '\U{00DF}' then "SS"
    else if c == '\U{01F0}' then "J\U{030C}"
    else if c == '\U{1E96}' then "H\U{0331}"
    else if c == '\U{1E97}' then "T\U{0308}"
    else if c == '\U{1E98}' then "W\U{030A}"
    else if c == '\U{1E99}' then "Y\U{030A}"
    else if c == '\U{1E9A}' then "A\U{02BE}"
    else if c == '\U{FB00}' then "FF"
    else if c == '\U{FB01}' then "FI"
    else if c == '\U{FB02}' then "FL"
    else if c == '\U{FB03}' then "FFI"
    else if c == '\U{FB04}' then "FFL"
    else if c == '\U{FB05}' || c == '\U{FB06}' then "ST"
    else [c]
  }

  /** Hangul syllables have no case: upper-casing keeps them and makes no other character one. */
  lemma JsUpperHangul(c: char)
    ensures IsHangul(c) ==> JsUpper(c) == [c]
    ensures IsHangul(JsUpper(c)[0]) ==> IsHangul(c)
  {
  }

  /** `"A" <= s && s <= "Z"` with JavaScript's code-unit string order. */
  predicate BetweenAandZ(s: string) {
    s != [] && 'A' <= s[0] <= 'Z' && (s[0] == 'Z' ==> s == "Z")
  }

  /** `getEnIndex`: the upper case of the trimmed term's first character when it lies between "A" and "Z", else null. */
  function EnIndexOf(term: string): (r: Option<string>)
    ensures r.Some? ==> JsTrim(term) != [] && r.value == JsUpper(JsTrim(term)[0]) && BetweenAandZ(r.value)
    ensures JsTrim(term) != [] && IsAsciiLetter(JsTrim(term)[0]) ==> r == Some([ToUpperAscii(JsTrim(term)[0])])
    ensures JsTrim(term) != [] && (IsDigit(JsTrim(term)[0]) || IsHangul(JsTrim(term)[0])) ==> r.None?
  {
    var t := JsTrim(term);
    if t == [] then None
    else
      var up := JsUpper(t[0]);
      if BetweenAandZ(up) then Some(up) else None
  }

  /** The index of an English term is a single capital only when it starts with an ASCII letter: `ß` is filed under "SS". */
  lemma SharpSIndex()
    ensures EnIndexOf("\U{00DF}ol") == Some("SS")
  {
    assert JsTrim("\U{00DF}ol") == "\U{00DF}ol";
  }

  /** `getNumIndex`: the trimmed term's first character when it is a digit, else null. */
  function NumIndexOf(term: string): (r: Option<char>)
    ensures r.Some? <==> JsTrim(term) != [] && IsDigit(JsTrim(term)[0])
    ensures r.Some? ==> r.value == JsTrim(term)[0]
  {
    var t := JsTrim(term);
    if t != [] && IsDigit(t[0]) then Some(t[0]) else None
  }

  // ---------------------------------------------------------------------------------------
  // Segments

  datatype Seg = Ko | En | Num

  /**
   * `computeIndexKey(seg, term)`: the index function of the segment, as the text of the
   * index button it belongs under (null when it belongs under none).
   */
  function IndexKey(seg: Seg, term: string): Option<string> {
    match seg {
      case Ko => if KoIndexOf(term).Some? then Some([KoIndexOf(term).value]) else None
      case En => EnIndexOf(term)
      case Num => if NumIndexOf(term).Some? then Some([NumIndexOf(term).value]) else None
    }
  }

  /** `detectSeg` of the term admin page: a leading digit, then a leading ASCII letter, else Korean. */
  function DetectSeg(term: string): Seg {
    var t := JsTrim(term);
    if t != [] && IsDigit(t[0]) then Num
    else if t != [] && IsAsciiLetter(t[0]) then En
    else Ko
  }

  /**
   * `tabToSeg(tab, term)`: the crawled tab KOR, ENG or NUM in any case and with surrounding
   * spaces decides; any other tab falls back to the term's first character.
   */
  function TabToSeg(tab: string, term: string): (r: Seg)
    ensures var t := JsTrim(UpperAscii(tab)); t != "KOR" && t != "ENG" && t != "NUM" ==> r == DetectSeg(term)
  {
    var t := JsTrim(UpperAscii(tab));
    if t == "KOR" then Ko else if t == "ENG" then En else if t == "NUM" then Num
    else DetectSeg(term)
  }

  /** `getSegment` of the service page: a Hangul syllable, an ASCII letter or a digit first, else Korean. */
  function GetSegment(term: string): (r: Seg)
    ensures r == En <==> JsTrim(term) != [] && IsAsciiLetter(JsTrim(term)[0])
    ensures r == Num <==> JsTrim(term) != [] && IsDigit(JsTrim(term)[0])
  {
    var t := JsTrim(term);
    if t != [] && IsHangul(t[0]) then Ko
    else if t != [] && IsAsciiLetter(t[0]) then En
    else if t != [] && IsDigit(t[0]) then Num
    else Ko
  }

  /** The service page and the admin page put every term in the same segment. */
  lemma GetSegmentIsDetectSeg(term: string)
    ensures GetSegment(term) == DetectSeg(term)
  {
  }

  /**
   * A term in the segment its first character decides always gets an index key: a capital
   * for an English term, its digit for a number, and for a Korean term a consonant exactly
   * when it starts with a syllable.
   */
  lemma DetectedSegHasKey(term: string)
    ensures DetectSeg(term) == En ==> IndexKey(En, term) == Some([ToUpperAscii(JsTrim(term)[0])])
    ensures DetectSeg(term) == Num ==> IndexKey(Num, term) == Some([JsTrim(term)[0]])
    ensures DetectSeg(term) == Ko ==> (IndexKey(Ko, term).Some? <==> JsTrim(term) != [] && IsHangul(JsTrim(term)[0]))
  {
  }

  // ---------------------------------------------------------------------------------------
  // The term admin page's getKoIndex

  /**
   * `getKoIndex` of the term admin page as written: it looks the initial-consonant index,
   * 0 to 18, up in the 14 index buttons, so most initials land on a later button and the
   * last five on none (undefined).
   */
  function AdminKoIndexAsWritten(term: string): (r: Option<char>)
    ensures r.Some? ==> r.value in KoIndex
  {
    var t := JsTrim(term);
    if t == [] || !IsHangul(t[0]) then None
    else if InitialOf(t[0]) < |KoIndex| then Some(KoIndex[InitialOf(t[0])])
    else None
  }

  /** `나` is filed under `ㄷ` and `하` under nothing, where the initials say `ㄴ` and `ㅎ`. */
  lemma AdminKoIndexMisfiles()
    ensures AdminKoIndexAsWritten("\U{B098}") == Some('\U{3137}') && KoIndexOf("\U{B098}") == Some('\U{3134}')
    ensures AdminKoIndexAsWritten("\U{D558}").None? && KoIndexOf("\U{D558}") == Some('\U{314E}')
  {
    assert JsTrim("\U{B098}") == "\U{B098}";
    assert JsTrim("\U{D558}") == "\U{D558}";
    assert InitialOf('\U{B098}') == 2;
    assert InitialOf('\U{D558}') == 18;
  }

  /**
   * The admin page's getKoIndex with the lookup in `CHO` and the fold, as the other pages do
   * it: the composed syllable of initial `l` is filed under the fold of `l`.
   */
  function AdminKoIndex(term: string): (r: Option<char>)
    ensures r == KoIndexOf(term)
    ensures forall l: nat, v: nat, t: nat :: l < 19 && v < 21 && t < 28 && JsTrim(term) == [Compose(l, v, t)]
              ==> r == Some(ChoNorm(Cho[l]))
  {
    forall l: nat, v: nat, t: nat | l < 19 && v < 21 && t < 28 && JsTrim(term) == [Compose(l, v, t)]
      ensures KoIndexOf(term) == Some(ChoNorm(Cho[l]))
    {
      ComposedSyllableIndex(l, v, t);
    }
    KoIndexOf(term)
  }

  /** `computeIndex(seg, term)` of the admin page, with the corrected Korean index. */
  function AdminComputeIndex(seg: Seg, term: string): (r: Option<string>)
    ensures r == IndexKey(seg, term)
  {
    StripIdempotent(term, JsSpace);
    IndexKey(seg, JsTrim(term))
  }
}
