/**
 * The clean-text builder: it normalises each news article's title and body into a
 * "clean_text" record and writes those records with bulk create operations.
 */
module CleanText {
  import opened Text
  import opened Regex

  const CleanIndex := "clean_text"

  const Stopwords: set<string> := {
    "기자", "연합뉴스", "뉴시스", "사진", "제공", "무단", "전재", "재배포", "금지",
    "오늘", "이번", "관련", "통해", "대해", "등", "및"
  }

  /** A pattern of literal characters. */
  function Lits(s: string): (p: Pattern)
    ensures |p| == |s| && forall i :: 0 <= i < |s| ==> p[i] == One(Lit(s[i]))
  {
    seq(|s|, i requires 0 <= i < |s| => One(Lit(s[i])))
  }

  /** A pattern of ASCII letters matched under re.IGNORECASE. */
  function Folds(s: string): (p: Pattern)
    ensures |p| == |s| && forall i :: 0 <= i < |s| ==> p[i] == One(Fold(s[i]))
  {
    seq(|s|, i requires 0 <= i < |s| => One(Fold(s[i])))
  }

  /** `<[^>]+>` */
  const HtmlTag: Pattern := [One(Lit('<')), One(NotGt), Star(NotGt), One(Lit('>'))]

  /** `[^0-9A-Za-z가-힣\s]` */
  const KeepChars: Pattern := [One(NotKept)]

  /** The eight footer patterns, in the order they are applied, all under re.IGNORECASE. */
  const FooterPatterns: seq<Pattern> := [
    Lits("카카오톡") + [Star(Space), Star(NotBlank)] + Lits("제보") + [Star(Dot), End],
    Lits("이메일") + [Star(Space)] + Folds("jebo") + [Star(NotSpace)],
    Folds("jebo") + [Star(NotSpace)],
    Folds("http") + [Opt(Fold('s')), Star(Space), One(ColonOrSlash), One(NotSpace), Star(NotSpace)],
    Folds("talk") + [Star(NotSpace), One(Lit('.'))] + Folds("kr") + [Star(NotSpace)],
    Folds("bbs") + [Star(Space)] + Folds("report") + [Star(Space)] + Folds("write"),
    Lits("뉴스") + [Star(Space)] + Lits("홈페이지") + [Star(Dot), End],
    Lits("사이트") + [Star(Space)] + Folds("http") + [Opt(Fold('s')), Star(Space)] + Folds("url") + [Star(Dot), End]
  ]

  predicate AllConsuming(pats: seq<Pattern>) {
    forall k :: 0 <= k < |pats| ==> Consuming(pats[k])
  }

  /** Characters a normalised text may contain: ASCII letters and digits, Hangul syllables, the space. */
  predicate CleanChar(c: char) {
    IsDigit(c) || IsAsciiLetter(c) || IsHangul(c) || c == ' '
  }

  predicate KeepToken(tok: string) {
    tok != "" && tok !in Stopwords
  }

  /** `.replace("\r", " ").replace("\n", " ").replace("\t", " ")` */
  function ReplaceBreaks(s: string): (r: string)
    ensures |r| == |s|
    ensures forall i :: 0 <= i < |s| ==> r[i] == (if s[i] in "\r\n\t" then ' ' else s[i])
  {
    seq(|s|, i requires 0 <= i < |s| => if s[i] in "\r\n\t" then ' ' else s[i])
  }

  /** Apply `re.sub(p, " ", ·)` for each pattern in turn. */
  function SubEach(pats: seq<Pattern>, s: string): string
    requires AllConsuming(pats)
    decreases |pats|
  {
    if pats == [] then s else SubEach(pats[1..], SubAll(pats[0], s))
  }

  function RemoveFooterNoise(text: string): string {
    PyCollapse(SubEach(FooterPatterns, text))
  }

  /** HTML tags and characters outside `0-9A-Za-z가-힣\s` become spaces; whitespace collapses. */
  function KeepCleanChars(text: string): string {
    PyCollapse(ReplaceBreaks(SubAll(KeepChars, SubAll(HtmlTag, text))))
  }

  /** `" ".join(tok for tok in text.split(" ") if tok and tok not in KOREAN_STOPWORDS).strip()` */
  function DropStopwords(text: string): string {
    PyStrip(Join(Filter(SplitOnSpace(text), KeepToken), " "))
  }

  function NormalizeText(title: string, body: string): string {
    var text := PyStrip(PyStrip(title) + " " + PyStrip(body));
    if text == "" then ""
    else
      var text := RemoveFooterNoise(KeepCleanChars(text));
      if text == "" then "" else DropStopwords(text)
  }

  /** The shape every normalised text has. */
  predicate WellFormed(r: string) {
    AllChars(r, CleanChar)
    && Collapsed(r, PySpace)
    && forall k :: 0 <= k < |Words(r, PySpace)| ==> Words(r, PySpace)[k] !in Stopwords
  }

  lemma SubEachChars(pats: seq<Pattern>, s: string, q: char -> bool)
    requires AllConsuming(pats) && q(' ') && AllChars(s, q)
    ensures AllChars(SubEach(pats, s), q)
    decreases |pats|
  {
    if pats != [] {
      SubChars(pats[0], s, 0, q);
      SubEachChars(pats[1..], SubAll(pats[0], s), q);
    }
  }

  /** Collapsing a text made of kept characters leaves only clean characters. */
  lemma CollapseClean(s: string, q: char -> bool)
    requires q(' ') && AllChars(s, q)
    requires forall c :: q(c) && !PySpace(c) ==> CleanChar(c)
    ensures AllChars(PyCollapse(s), CleanChar) && Collapsed(PyCollapse(s), PySpace)
  {
    var c := PyCollapse(s);
    CollapseChars(s, PySpace, q);
    CollapseProperties(s, PySpace);
    forall i | 0 <= i < |c| ensures CleanChar(c[i]) {
      assert q(c[i]);
    }
  }

  /** The tokens that survive the stopword filter are words of clean characters. */
  lemma TokensClean(text: string) returns (tokens: seq<string>)
    requires AllChars(text, CleanChar)
    ensures tokens == Filter(SplitOnSpace(text), KeepToken)
    ensures Wordlike(tokens, PySpace)
    ensures forall k :: 0 <= k < |tokens| ==> AllChars(tokens[k], CleanChar) && tokens[k] !in Stopwords
  {
    var pieces := SplitOnSpace(text);
    tokens := Filter(pieces, KeepToken);
    SplitOnSpaceChars(text, CleanChar);
    forall k | 0 <= k < |tokens|
      ensures IsWord(tokens[k], PySpace) && AllChars(tokens[k], CleanChar) && tokens[k] !in Stopwords
    {
      var t := tokens[k];
      assert KeepToken(t) && t in pieces;
      var j :| 0 <= j < |pieces| && pieces[j] == t;
      forall i | 0 <= i < |t| ensures !PySpace(t[i]) {
        assert CleanChar(t[i]) && t[i] != ' ';
      }
    }
  }

  lemma KeepCleanCharsClean(text: string)
    ensures AllChars(KeepCleanChars(text), CleanChar)
  {
    var h := SubAll(HtmlTag, text);
    var k := SubAll(KeepChars, h);
    SubSingle(NotKept, h, 0);
    assert AllChars(k, Kept) by {
      forall i | 0 <= i < |k| ensures Kept(k[i]) {
        assert k[i - 0] == (if InClass(NotKept, h[i]) then ' ' else h[i]);
        assert PySpace(' ');
      }
    }
    var rb := ReplaceBreaks(k);
    assert AllChars(rb, Kept);
    CollapseClean(rb, Kept);
  }

  lemma RemoveFooterNoiseClean(text: string)
    requires AllChars(text, CleanChar)
    ensures AllChars(RemoveFooterNoise(text), CleanChar)
  {
    SubEachChars(FooterPatterns, text, CleanChar);
    CollapseClean(SubEach(FooterPatterns, text), CleanChar);
  }

  lemma DropStopwordsWellFormed(text: string)
    requires AllChars(text, CleanChar)
    ensures WellFormed(DropStopwords(text))
  {
    var tokens := TokensClean(text);
    var j := Join(tokens, " ");
    JoinChars(tokens, CleanChar);
    JoinCollapsed(tokens, PySpace);
    WordsOfJoin(tokens, PySpace);
    StripTrimmed(j, PySpace);
  }

  /**
   * Every character of a normalised text is an ASCII letter or digit, a Hangul syllable or a
   * single inner space, and no space-separated token is a stopword.
   */
  lemma NormalizeTextWellFormed(title: string, body: string)
    ensures WellFormed(NormalizeText(title, body))
  {
    var text := PyStrip(PyStrip(title) + " " + PyStrip(body));
    if text == "" {
      assert NormalizeText(title, body) == "";
      EmptyWellFormed();
    } else {
      var kept := KeepCleanChars(text);
      var footer := RemoveFooterNoise(kept);
      if footer == "" {
        assert NormalizeText(title, body) == "";
        EmptyWellFormed();
      } else {
        KeepCleanCharsClean(text);
        RemoveFooterNoiseClean(kept);
        assert NormalizeText(title, body) == DropStopwords(footer);
        DropStopwordsWellFormed(footer);
      }
    }
  }

  lemma EmptyWellFormed()
    ensures WellFormed("")
  {
  }

  /** A title and body that are both empty or whitespace-only normalise to "". */
  lemma NormalizeTextBlank(title: string, body: string)
    requires AllChars(title, PySpace) && AllChars(body, PySpace)
    ensures NormalizeText(title, body) == ""
  {
    assert PyStrip(title) == [] && PyStrip(body) == [];
    assert AllChars(" ", PySpace);
  }

  /** Normalising already stripped inputs gives the same text. */
  lemma NormalizeTextStripped(title: string, body: string)
    ensures NormalizeText(PyStrip(title), PyStrip(body)) == NormalizeText(title, body)
  {
    StripIdempotent(title, PySpace);
    StripIdempotent(body, PySpace);
  }
}
