/**
 * Loading the crawled dictionary file on the dictionary and word-manager pages: the keyword
 * `term (English)` is split in two, the crawled tab decides the segment, the content is cut
 * into paragraphs at blank lines, and the first row per id is kept.
 */
module WordJson {
  import opened Text
  import opened WordIndex
  import Calendar

  /** JavaScript line terminators, which `.` in a pattern does not match. */
  predicate LineTerminator(c: char) {
    c == '\n' || c == '\r' || c == '\U{2028}' || c == '\U{2029}'
  }

  predicate NoLineTerminator(s: string) {
    forall i :: 0 <= i < |s| ==> !LineTerminator(s[i])
  }

  /** The end of the run of `\s` characters that starts at `i`. */
  function SkipSpace(s: string, i: nat): (k: nat)
    requires i <= |s|
    ensures i <= k <= |s|
    ensures forall j :: i <= j < k ==> JsSpace(s[j])
    ensures k == |s| || !JsSpace(s[k])
    decreases |s| - i
  {
    if i < |s| && JsSpace(s[i]) then SkipSpace(s, i + 1) else i
  }

  // ---------------------------------------------------------------------------------------
  // splitKeyword: /^(.+?)\s*\((.+)\)\s*$/ on the trimmed keyword

  /**
   * Whether `\s*\((.+)\)\s*$` matches the trimmed text `s` from `i`: after the spaces an
   * opening parenthesis, a non-empty group without line terminators, and the closing
   * parenthesis as the last character.
   */
  predicate ParenTail(s: string, i: nat)
    requires i <= |s|
  {
    var k := SkipSpace(s, i);
    k + 3 <= |s| && s[k] == '(' && s[|s| - 1] == ')' && NoLineTerminator(s[k + 1..|s| - 1])
  }

  /** The lazy `(.+?)`: the shortest first group, from `i` characters up, after which the tail matches. */
  function LazyTerm(s: string, i: nat): (r: Option<nat>)
    requires 1 <= i
    ensures r.Some? ==> i <= r.value <= |s| && ParenTail(s, r.value)
    decreases |s| + 1 - i
  {
    if i > |s| || LineTerminator(s[i - 1]) then None
    else if ParenTail(s, i) then Some(i)
    else LazyTerm(s, i + 1)
  }

  /** `splitKeyword`: the term and the English name, both trimmed. */
  function SplitKeyword(keyword: string): (r: (string, string))
    ensures JsTrim(r.0) == r.0 && JsTrim(r.1) == r.1
  {
    var s := JsTrim(keyword);
    StripIdempotent(keyword, JsSpace);
    match LazyTerm(s, 1)
    case None => (s, "")
    case Some(i) =>
      var k := SkipSpace(s, i);
      StripIdempotent(s[..i], JsSpace);
      StripIdempotent(s[k + 1..|s| - 1], JsSpace);
      (JsTrim(s[..i]), JsTrim(s[k + 1..|s| - 1]))
  }

  /** The lazy group tries `j` characters and moves on. */
  predicate PassedOver(s: string, j: nat) {
    1 <= j <= |s| && !LineTerminator(s[j - 1]) && !ParenTail(s, j)
  }

  lemma {:induction false} LazyTermReaches(s: string, i: nat, n: nat)
    requires 1 <= i <= n <= |s|
    requires forall j :: i <= j < n ==> PassedOver(s, j)
    requires !LineTerminator(s[n - 1]) && ParenTail(s, n)
    ensures LazyTerm(s, i) == Some(n)
    decreases n - i
  {
    if i < n {
      assert PassedOver(s, i);
      LazyTermReaches(s, i + 1, n);
    }
  }

  lemma {:induction false} LazyTermNone(s: string, i: nat)
    requires 1 <= i && '(' !in s
    ensures LazyTerm(s, i).None?
    decreases |s| + 1 - i
  {
    if i <= |s| && !LineTerminator(s[i - 1]) {
      LazyTermNone(s, i + 1);
    }
  }

  /** `"X (Y)"` splits into the term X and the English name Y, trimmed. */
  lemma SplitKeywordPair(x: string, y: string)
    requires x != [] && JsTrim(x) == x && NoLineTerminator(x) && '(' !in x
    requires y != [] && NoLineTerminator(y)
    ensures SplitKeyword(x + " (" + y + ")") == (x, JsTrim(y))
  {
    var s := x + " (" + y + ")";
    assert !JsSpace(x[0]) && !JsSpace(x[|x| - 1]);
    StripTrimmed(s, JsSpace);
    assert JsTrim(s) == s;
    forall j | 1 <= j < |x| ensures PassedOver(s, j) {
      assert s[j - 1] == x[j - 1];
      var k := SkipSpace(s, j);
      assert s[|x| - 1] == x[|x| - 1];
      assert k <= |x| - 1;
      assert s[k] == x[k];
    }
    assert s[|x| - 1] == x[|x| - 1];
    assert SkipSpace(s, |x| + 1) == |x| + 1;
    assert SkipSpace(s, |x|) == |x| + 1;
    assert s[|x| + 2..|s| - 1] == y;
    LazyTermReaches(s, 1, |x|);
    assert s[..|x|] == x;
  }

  /** A keyword without `(` is all term, with no English name. */
  lemma SplitKeywordPlain(keyword: string)
    requires '(' !in JsTrim(keyword)
    ensures SplitKeyword(keyword) == (JsTrim(keyword), "")
  {
    LazyTermNone(JsTrim(keyword), 1);
  }

  // ---------------------------------------------------------------------------------------
  // Paragraphs: text.split(/\n\s*\n/).map(s => s.trim()).filter(Boolean)

  /** The last `\n` in `s[lo..hi]`: where the greedy `\s*` of `\n\s*\n` gives back to. */
  function LastNewline(s: string, lo: nat, hi: nat): (r: Option<nat>)
    requires hi <= |s|
    ensures r.Some? ==> lo <= r.value < hi && s[r.value] == '\n'
    decreases hi
  {
    if hi <= lo then None
    else if s[hi - 1] == '\n' then Some(hi - 1)
    else LastNewline(s, lo, hi - 1)
  }

  /** Whether `\n\s*\n` matches at `i`: a line break and another one later in the same run of spaces. */
  predicate BlankAt(s: string, i: nat) {
    i < |s| && s[i] == '\n' && LastNewline(s, i + 1, SkipSpace(s, i + 1)).Some?
  }

  function FirstBlank(s: string, i: nat): (r: Option<nat>)
    ensures r.Some? ==> i <= r.value < |s| && BlankAt(s, r.value)
    decreases |s| - i
  {
    if i >= |s| then None
    else if BlankAt(s, i) then Some(i)
    else FirstBlank(s, i + 1)
  }

  /** `text.split(/\n\s*\n/)`: the pieces between the blank-line separators, in order. */
  function SplitBlank(s: string): (r: seq<string>)
    ensures r != []
    decreases |s|
  {
    match FirstBlank(s, 0)
    case None => [s]
    case Some(i) =>
      var j := LastNewline(s, i + 1, SkipSpace(s, i + 1)).value;
      [s[..i]] + SplitBlank(s[j + 1..])
  }

  /** `.map(s => s.trim()).filter(Boolean)`. */
  function TrimmedNonEmpty(pieces: seq<string>): (r: seq<string>)
    ensures forall k :: 0 <= k < |r| ==> r[k] != [] && JsTrim(r[k]) == r[k]
  {
    if pieces == [] then []
    else
      var t := JsTrim(pieces[0]);
      StripIdempotent(pieces[0], JsSpace);
      (if t == [] then [] else [t]) + TrimmedNonEmpty(pieces[1..])
  }

  /** `textareaToBody`, and the `body` of a loaded row: the paragraphs between blank lines. */
  function Paragraphs(text: string): (r: seq<string>)
    ensures forall k :: 0 <= k < |r| ==> r[k] != [] && JsTrim(r[k]) == r[k]
  {
    TrimmedNonEmpty(SplitBlank(text))
  }

  /** `wordToTextarea`: the paragraphs with one blank line between each two. */
  function ParagraphText(body: seq<string>): string {
    Join(body, "\n\n")
  }

  /** A paragraph the editor gives back unchanged: non-empty, trimmed, without a blank line. */
  predicate IsParagraph(p: string) {
    p != [] && JsTrim(p) == p && forall i :: 0 <= i < |p| ==> !BlankAt(p, i)
  }

  lemma {:induction false} SkipSpaceExtend(p: string, u: string, i: nat)
    requires i < |p| && !JsSpace(p[|p| - 1])
    ensures SkipSpace(p + u, i) == SkipSpace(p, i) < |p|
    decreases |p| - i
  {
    if JsSpace(p[i]) {
      SkipSpaceExtend(p, u, i + 1);
    }
  }

  lemma {:induction false} LastNewlineExtend(p: string, u: string, lo: nat, hi: nat)
    requires hi <= |p|
    ensures LastNewline(p + u, lo, hi) == LastNewline(p, lo, hi)
    decreases hi
  {
    if lo < hi {
      LastNewlineExtend(p, u, lo, hi - 1);
    }
  }

  /** A blank line cannot start inside a text that ends with a non-space and run past its end. */
  lemma BlankAtExtend(p: string, u: string, i: nat)
    requires i < |p| && !JsSpace(p[|p| - 1])
    ensures BlankAt(p + u, i) == BlankAt(p, i)
  {
    if p[i] == '\n' {
      assert i + 1 < |p|;
      SkipSpaceExtend(p, u, i + 1);
      LastNewlineExtend(p, u, i + 1, SkipSpace(p, i + 1));
    }
  }

  lemma {:induction false} FirstBlankAt(s: string, i: nat, n: nat)
    requires i <= n && BlankAt(s, n) && forall j :: i <= j < n ==> !BlankAt(s, j)
    ensures FirstBlank(s, i) == Some(n)
    decreases n - i
  {
    if i < n {
      FirstBlankAt(s, i + 1, n);
    }
  }

  lemma {:induction false} FirstBlankNone(s: string, i: nat)
    requires forall j :: i <= j < |s| ==> !BlankAt(s, j)
    ensures FirstBlank(s, i).None?
    decreases |s| - i
  {
    if i < |s| {
      FirstBlankNone(s, i + 1);
    }
  }

  lemma {:induction false} SplitBlankOfText(body: seq<string>)
    requires body != [] && forall k :: 0 <= k < |body| ==> IsParagraph(body[k])
    ensures SplitBlank(ParagraphText(body)) == body
    decreases |body|
  {
    var p := body[0];
    assert !JsSpace(p[0]) && !JsSpace(p[|p| - 1]);
    if |body| == 1 {
      FirstBlankNone(p, 0);
    } else {
      var t := ParagraphText(body[1..]);
      SplitBlankOfText(body[1..]);
      assert t[0] == body[1][0] && !JsSpace(body[1][0]);
      var s := ParagraphText(body);
      assert s == p + ("\n\n" + t);
      forall j | 0 <= j < |p| ensures !BlankAt(s, j) {
        BlankAtExtend(p, "\n\n" + t, j);
      }
      assert SkipSpace(s, |p| + 2) == |p| + 2;
      assert SkipSpace(s, |p| + 1) == |p| + 2;
      assert LastNewline(s, |p| + 1, |p| + 2) == Some(|p| + 1);
      FirstBlankAt(s, 0, |p|);
      assert s[..|p|] == p && s[|p| + 2..] == t;
    }
  }

  lemma {:induction false} TrimmedNonEmptyKeeps(body: seq<string>)
    requires forall k :: 0 <= k < |body| ==> body[k] != [] && JsTrim(body[k]) == body[k]
    ensures TrimmedNonEmpty(body) == body
  {
    if body != [] {
      TrimmedNonEmptyKeeps(body[1..]);
    }
  }

  /** Editing a body as text and saving it unchanged gives the same paragraphs back. */
  lemma ParagraphRoundTrip(body: seq<string>)
    requires forall k :: 0 <= k < |body| ==> IsParagraph(body[k])
    ensures Paragraphs(ParagraphText(body)) == body
  {
    if body == [] {
      assert SplitBlank("") == [""];
    } else {
      SplitBlankOfText(body);
      TrimmedNonEmptyKeeps(body);
    }
  }

  // ---------------------------------------------------------------------------------------
  // formatUpdatedAt

  /** A date `new Date(text)` can give, on the Gregorian calendar from year 1. */
  type JsDate = d: Calendar.Date | Calendar.Valid(d) witness Calendar.Date(1970, 1, 1)

  /** `String(year).slice(-2)`: the last two digits of the year, or the one digit of a year below 10. */
  function YearSuffix(year: nat): (r: string)
    ensures 1 <= |r| <= 2 && Calendar.AllDigits(r) && Calendar.DigitsValue(r) == year % 100
  {
    if year < 10 then [Calendar.DigitChar(year)]
    else
      Calendar.PadValue(year % 100, 2);
      Calendar.Pad(year % 100, 2)
  }

  /** `formatUpdatedAt`: `YY.MM.DD 수정` of the parsed date, or `""` when the text is not a date. */
  function FormatUpdatedAt(parsed: Option<JsDate>): (r: string)
    ensures parsed.None? <==> r == ""
  {
    match parsed
    case None => ""
    case Some(d) => YearSuffix(d.year) + "." + Calendar.Pad(d.month, 2) + "." + Calendar.Pad(d.day, 2) + " \U{C218}\U{C815}"
  }

  lemma LabelSlices(yy: string, mm: string, dd: string, tail: string)
    requires |mm| == 2 && |dd| == 2 && |tail| == 3
    ensures var r := yy + "." + mm + "." + dd + tail; var n := |r|;
      n == |yy| + 9 && r[..n - 9] == yy && r[n - 9] == '.' && r[n - 8..n - 6] == mm
      && r[n - 6] == '.' && r[n - 5..n - 3] == dd && r[n - 3..] == tail
  {
  }

  /** The label reads back as the date: two-digit year, month and day, then the "edited" mark. */
  lemma FormatUpdatedAtReadsBack(d: JsDate)
    ensures var r := FormatUpdatedAt(Some(d)); var n := |r|;
      n >= 10 && r[n - 9] == '.' && r[n - 6] == '.' && r[n - 3..] == " \U{C218}\U{C815}"
      && Calendar.AllDigits(r[..n - 9]) && Calendar.DigitsValue(r[..n - 9]) == d.year % 100
      && Calendar.AllDigits(r[n - 8..n - 6]) && Calendar.DigitsValue(r[n - 8..n - 6]) == d.month
      && Calendar.AllDigits(r[n - 5..n - 3]) && Calendar.DigitsValue(r[n - 5..n - 3]) == d.day
  {
    var yy, mm, dd, tail := YearSuffix(d.year), Calendar.Pad(d.month, 2), Calendar.Pad(d.day, 2), " \U{C218}\U{C815}";
    Calendar.PadValue(d.month, 2);
    Calendar.PadValue(d.day, 2);
    var r := FormatUpdatedAt(Some(d));
    assert r == yy + "." + mm + "." + dd + tail;
    LabelSlices(yy, mm, dd, tail);
    var n := |r|;
    assert r[..n - 9] == yy && r[n - 8..n - 6] == mm && r[n - 5..n - 3] == dd;
  }

  // ---------------------------------------------------------------------------------------
  // loadWordsFromJson

  datatype Word = Word(id: string, seg: Seg, term: string, en: string, updatedAt: string, body: seq<string>, indexKey: Option<string>)

  /**
   * A truthy element of the crawled file, its fields after `String(x ?? "")`; `scrapedAt` is
   * what `new Date` makes of `scraped_at`.
   */
  datatype Row = Row(termId: string, keyword: string, tab: string, content: string, scrapedAt: Option<JsDate>)

  function IdOf(w: Word): string { w.id }

  /** The word a row becomes; `randomId` is the id drawn when the row has no `term_id`. */
  function WordOfRow(row: Row, randomId: string): (w: Word)
    ensures w.id == "kdi_" + (if JsTrim(row.termId) != [] then JsTrim(row.termId) else randomId)
    ensures (w.term, w.en) == SplitKeyword(row.keyword) && w.seg == TabToSeg(row.tab, w.term)
    ensures w.body == Paragraphs(row.content) && w.indexKey == IndexKey(w.seg, w.term)
  {
    var tid := JsTrim(row.termId);
    var id := if tid != [] then "kdi_" + tid else "kdi_" + randomId;
    var (term, en) := SplitKeyword(row.keyword);
    var seg := TabToSeg(row.tab, term);
    Word(id, seg, term, en, FormatUpdatedAt(row.scrapedAt), Paragraphs(row.content), IndexKey(seg, term))
  }

  /** The words of the truthy rows in file order; row `k` draws `randomIds(k)` when it needs one. */
  function Candidates(rows: seq<Option<Row>>, randomIds: nat -> string): seq<Word>
  {
    if rows == [] then []
    else
      var n := |rows| - 1;
      Candidates(rows[..n], randomIds) + (if rows[n].Some? then [WordOfRow(rows[n].value, randomIds(n))] else [])
  }

  lemma CandidatesStep(rows: seq<Option<Row>>, randomIds: nat -> string, k: nat)
    requires k < |rows|
    ensures Candidates(rows[..k + 1], randomIds)
      == Candidates(rows[..k], randomIds) + (if rows[k].Some? then [WordOfRow(rows[k].value, randomIds(k))] else [])
  {
    assert rows[..k + 1][..k] == rows[..k];
  }

  /** The loop of `loadWordsFromJson` over the rows, with its `seen` set. */
  method LoadRows(rows: seq<Option<Row>>, randomIds: nat -> string) returns (words: seq<Word>)
    ensures words == FirstPerKey(Candidates(rows, randomIds), IdOf)
  {
    var seen: set<string> := {};
    words := [];
    var k := 0;
    while k < |rows|
      invariant k <= |rows|
      invariant words == FirstPerKey(Candidates(rows[..k], randomIds), IdOf)
      invariant forall id :: id in seen <==> id in KeysOf(words, IdOf)
    {
      CandidatesStep(rows, randomIds, k);
      if rows[k].Some? {
        var w := WordOfRow(rows[k].value, randomIds(k));
        FirstPerKeyStep(Candidates(rows[..k], randomIds), w, IdOf);
        if w.id !in seen {
          seen := seen + {w.id};
          words := words + [w];
        }
      } else {
        assert Candidates(rows[..k + 1], randomIds) == Candidates(rows[..k], randomIds);
      }
      k := k + 1;
    }
    assert rows[..k] == rows;
  }

  /** The first row per id wins: ids are distinct, every id appears, each with its first row's word. */
  lemma LoadedWordsFirstWin(rows: seq<Option<Row>>, randomIds: nat -> string)
    ensures var ws, cands := FirstPerKey(Candidates(rows, randomIds), IdOf), Candidates(rows, randomIds);
      (forall i, j :: 0 <= i < j < |ws| ==> ws[i].id != ws[j].id)
      && (forall id :: id in KeysOf(ws, IdOf) <==> id in KeysOf(cands, IdOf))
      && (forall k :: 0 <= k < |ws| ==> ws[k].id in KeysOf(cands, IdOf) && ws[k] == cands[FirstIndex(KeysOf(cands, IdOf), ws[k].id)])
  {
    FirstPerKeyProperties(Candidates(rows, randomIds), IdOf);
  }

  /** What the page's `res.json()` gives: an array, an object with array-valued members, or anything else. */
  datatype Json =
    | JArray(rows: seq<Option<Row>>)
    | JObject(data: Option<seq<Option<Row>>>, words: Option<seq<Option<Row>>>, items: Option<seq<Option<Row>>>)
    | JOther

  /** The response: its `ok` flag and the JSON it parses to, if any. */
  datatype Response = Response(ok: bool, json: Option<Json>)

  /** `loadWordsFromJson` of the dictionary page: only a top-level array is accepted. */
  method LoadDictionaryWords(res: Response, randomIds: nat -> string) returns (r: Result<seq<Word>>)
    ensures r.Ok? <==> res.ok && res.json.Some? && res.json.value.JArray?
    ensures r.Ok? ==> r.value == FirstPerKey(Candidates(res.json.value.rows, randomIds), IdOf)
  {
    if !res.ok {
      return Err("JSON load failed");
    }
    if res.json.None? {
      return Err("JSON parse failed");
    }
    match res.json.value {
      case JArray(rows) => {
        var words := LoadRows(rows, randomIds);
        return Ok(words);
      }
      case _ => {
        return Err("JSON is not an array");
      }
    }
  }

  /** The rows the word manager accepts: a top-level array, else the first array among `data`, `words`, `items`. */
  function ManagerRows(j: Json): Option<seq<Option<Row>>> {
    match j
    case JArray(rows) => Some(rows)
    case JObject(data, words, items) =>
      if data.Some? then data else if words.Some? then words else items
    case JOther => None
  }

  /** `loadWordsFromJson` of the word manager. */
  method LoadManagerWords(res: Response, randomIds: nat -> string) returns (r: Result<seq<Word>>)
    ensures r.Ok? <==> res.ok && res.json.Some? && ManagerRows(res.json.value).Some?
    ensures r.Ok? ==> r.value == FirstPerKey(Candidates(ManagerRows(res.json.value).value, randomIds), IdOf)
  {
    if !res.ok {
      return Err("JSON request failed");
    }
    if res.json.None? {
      return Err("JSON parse failed");
    }
    var rows := ManagerRows(res.json.value);
    if rows.None? {
      return Err("JSON is not an array and has no data/words/items");
    }
    var words := LoadRows(rows.value, randomIds);
    return Ok(words);
  }
}
