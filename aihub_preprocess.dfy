/**
 * The conversion of the AI-Hub clickbait-detection JSON files into training rows for the
 * trust model: which files are read, which records become rows, and how title and content
 * are cleaned. Files are given already parsed; reading, globbing and writing the CSV are I/O.
 */
module AihubPreprocess {
  import opened Text
  import opened Calendar
  import opened Sorting

  const CategoryFilter: Option<string> := Some("경제")
  const MaxFiles := 1000

  /**
   * A parsed JSON value. Numbers with a fraction or an exponent are not modelled. Python's
   * `str()` of a list or an object is its repr, which the value carries as `shown`.
   */
  datatype Json =
    | JNull
    | JBool(b: bool)
    | JInt(n: int)
    | JStr(s: string)
    | JList(items: seq<Json>, shown: string)
    | JObj(fields: map<string, Json>, shown: string)

  /** Decimal digits of a natural number, as `str()` writes them. */
  function Digits(n: nat): (s: string)
    ensures |s| >= 1 && AllDigits(s)
  {
    if n < 10 then [DigitChar(n)] else Digits(n / 10) + [DigitChar(n % 10)]
  }

  /** `str(v)` */
  function PyStr(v: Json): string {
    match v
    case JNull => "None"
    case JBool(b) => if b then "True" else "False"
    case JInt(n) => if n < 0 then "-" + Digits(-n) else Digits(n)
    case JStr(s) => s
    case JList(_, shown) => shown
    case JObj(_, shown) => shown
  }

  /** Python truthiness of a JSON value. */
  predicate Truthy(v: Json) {
    match v
    case JNull => false
    case JBool(b) => b
    case JInt(n) => n != 0
    case JStr(s) => s != ""
    case JList(items, _) => items != []
    case JObj(fields, _) => fields != map[]
  }

  /** `d.get(key, default)` */
  function Get(d: map<string, Json>, key: string, default: Json): Json {
    if key in d then d[key] else default
  }

  /** `safe_get`: "" for a missing key or a null value, `str(v)` otherwise. */
  function SafeGet(d: map<string, Json>, key: string): (r: string)
  {
    var v := Get(d, key, JStr(""));
    if v == JNull then "" else PyStr(v)
  }

  /** `safe_get` is empty for a missing or null value, the string itself for a string, and `str(v)` for the rest. */
  lemma SafeGetCases(d: map<string, Json>, key: string)
    ensures key !in d || d[key] == JNull ==> SafeGet(d, key) == ""
    ensures key in d && d[key].JStr? ==> SafeGet(d, key) == d[key].s
    ensures key in d && d[key] != JNull ==> SafeGet(d, key) == PyStr(d[key])
  {
  }

  // ---------------------------------------------------------------------------------------
  // clean_text

  /** `s.replace("\n", " ").replace("\r", " ")` */
  function SpaceBreaks(s: string): (r: string)
    ensures |r| == |s|
    ensures forall i :: 0 <= i < |s| ==> r[i] == (if s[i] == '\n' || s[i] == '\r' then ' ' else s[i])
  {
    if s == [] then []
    else SpaceBreaks(s[..|s| - 1]) + [if s[|s| - 1] == '\n' || s[|s| - 1] == '\r' then ' ' else s[|s| - 1]]
  }

  /** `clean_text`: line breaks become spaces, then `" ".join(text.split())`. */
  function CleanText(s: string): string {
    PyCollapse(SpaceBreaks(s))
  }

  /**
   * The cleaned text is collapsed (only single inner spaces, no whitespace at either end), its
   * words are those of the input, and cleaning twice is cleaning once.
   */
  lemma CleanTextProperties(s: string)
    ensures Collapsed(CleanText(s), PySpace)
    ensures Words(CleanText(s), PySpace) == Words(SpaceBreaks(s), PySpace)
    ensures CleanText(CleanText(s)) == CleanText(s)
  {
    var t := SpaceBreaks(s);
    var c := Collapse(t, PySpace);
    CollapseProperties(t, PySpace);
    WordsOfJoin(Words(t, PySpace), PySpace);
    NoBreaksUnchanged(c);
  }

  lemma CleanTextCollapsed(s: string)
    ensures Collapsed(CleanText(s), PySpace)
  {
    CollapseProperties(SpaceBreaks(s), PySpace);
  }

  /** Text without line breaks is left alone by the replacements. */
  lemma NoBreaksUnchanged(c: string)
    requires Collapsed(c, PySpace)
    ensures SpaceBreaks(c) == c
  {
    forall i | 0 <= i < |c| ensures c[i] != '\n' && c[i] != '\r' {
      assert PySpace('\n') && PySpace('\r');
    }
  }

  // ---------------------------------------------------------------------------------------
  // extract_content

  /**
   * The cleaned `sentenceContent` of each sentence whose content is truthy, in order.
   * A sentence that is not an object has no `.get` and raises.
   */
  function SentenceTexts(sentences: seq<Json>): (r: Result<seq<string>>)
    ensures r.Ok? ==> |r.value| <= |sentences|
  {
    if sentences == [] then Ok([])
    else
      match SentenceTexts(sentences[..|sentences| - 1])
      case Err(e) => Err(e)
      case Ok(texts) =>
        var s := sentences[|sentences| - 1];
        if !s.JObj? then Err("AttributeError: no get")
        else
          var text := Get(s.fields, "sentenceContent", JStr(""));
          if Truthy(text) then Ok(texts + [CleanText(PyStr(text))]) else Ok(texts)
  }

  /** What `extract_content` returns for a record. */
  function Content(item: map<string, Json>): Result<string> {
    var sentences := Get(item, "sentenceInfo", JList([], "[]"));
    if sentences.JList? && sentences.items != [] then
      match SentenceTexts(sentences.items)
      case Err(e) => Err(e)
      case Ok(texts) => Ok(Join(texts, " "))
    else Ok(CleanText(PyStr(Get(item, "newsContent", JStr("")))))
  }

  /** `extract_content`: the collected sentences joined by single spaces, or the cleaned `newsContent`. */
  method ExtractContent(item: map<string, Json>) returns (r: Result<string>)
    ensures r == Content(item)
  {
    var sentences := Get(item, "sentenceInfo", JList([], "[]"));
    if sentences.JList? && |sentences.items| > 0 {
      var allSent := CollectSentences(sentences.items);
      if allSent.Err? {
        return Err(allSent.error);
      }
      return Ok(Join(allSent.value, " "));
    }
    return Ok(CleanText(PyStr(Get(item, "newsContent", JStr("")))));
  }

  /** The loop of `extract_content` that fills `all_sent`. */
  method CollectSentences(items: seq<Json>) returns (r: Result<seq<string>>)
    ensures r == SentenceTexts(items)
  {
    var allSent: seq<string> := [];
    for i := 0 to |items|
      invariant SentenceTexts(items[..i]) == Ok(allSent)
    {
      assert items[..i + 1][..i] == items[..i];
      var s := items[i];
      if !s.JObj? {
        SentenceTextsError(items, i + 1);
        return Err("AttributeError: no get");
      }
      var text := Get(s.fields, "sentenceContent", JStr(""));
      if Truthy(text) {
        allSent := allSent + [CleanText(PyStr(text))];
      }
    }
    assert items[..|items|] == items;
    return Ok(allSent);
  }

  /** An error in a prefix of the sentences is the error of all of them. */
  lemma {:induction false} SentenceTextsError(xs: seq<Json>, n: nat)
    requires n <= |xs| && SentenceTexts(xs[..n]).Err?
    ensures SentenceTexts(xs) == SentenceTexts(xs[..n])
    decreases |xs| - n
  {
    if n < |xs| {
      assert xs[..n + 1][..n] == xs[..n];
      SentenceTextsError(xs, n + 1);
    } else {
      assert xs[..n] == xs;
    }
  }

  /**
   * Every collected piece is a cleaned text and comes from a sentence with truthy content;
   * sentences whose content is missing, null or empty contribute nothing.
   */
  lemma {:induction false} SentenceTextsProperties(sentences: seq<Json>)
    requires SentenceTexts(sentences).Ok?
    ensures forall k :: 0 <= k < |SentenceTexts(sentences).value| ==>
      Collapsed(SentenceTexts(sentences).value[k], PySpace)
    ensures (forall k :: 0 <= k < |sentences| ==> !(sentences[k].JObj? && Truthy(Get(sentences[k].fields, "sentenceContent", JStr("")))))
      ==> SentenceTexts(sentences).value == []
  {
    if sentences != [] {
      var init := sentences[..|sentences| - 1];
      SentenceTextsProperties(init);
      var s := sentences[|sentences| - 1];
      if s.JObj? {
        CleanTextCollapsed(PyStr(Get(s.fields, "sentenceContent", JStr(""))));
      }
      if forall k :: 0 <= k < |sentences| ==> !(sentences[k].JObj? && Truthy(Get(sentences[k].fields, "sentenceContent", JStr("")))) {
        assert forall k :: 0 <= k < |init| ==> init[k] == sentences[k];
      }
    }
  }

  // ---------------------------------------------------------------------------------------
  // main

  datatype Row = Row(title: string, content: string, labelValue: int)

  /** `use_type in [0, 1]`: Python's `==` also lets `False` and `True` through. */
  function Label(useType: Json): (r: Option<int>)
    ensures r.Some? ==> r.value == 0 || r.value == 1
  {
    match useType
    case JInt(n) => if n == 0 || n == 1 then Some(n) else None
    case JBool(b) => Some(if b then 1 else 0)
    case _ => None
  }

  /**
   * The body of the file loop for one parsed file: `Ok(None)` for a skipped file, an error
   * when the file or its record is not an object or the content raises.
   */
  function RowOf(data: Json, categoryFilter: Option<string>): Result<Option<Row>> {
    if !data.JObj? then Err("AttributeError: no get")
    else
      var item := Get(data.fields, "sourceDataInfo", JNull);
      if item == JNull then Ok(None)
      else if !item.JObj? then Err("AttributeError: no get")
      else
        var category := SafeGet(item.fields, "newsCategory");
        if categoryFilter.Some? && category != categoryFilter.value then Ok(None)
        else
          var title := CleanText(SafeGet(item.fields, "newsTitle"));
          match Content(item.fields)
          case Err(e) => Err(e)
          case Ok(content) =>
            var useLabel := Label(Get(item.fields, "useType", JNull));
            if useLabel.None? then Ok(None) else Ok(Some(Row(title, content, useLabel.value)))
  }

  /** The rows of the files in order; the first file that raises ends the run with its error. */
  function FileRows(paths: seq<string>, files: map<string, Json>, categoryFilter: Option<string>): (r: Result<seq<Row>>)
    ensures r.Ok? ==> |r.value| <= |paths|
  {
    if paths == [] then Ok([])
    else
      match FileRows(paths[..|paths| - 1], files, categoryFilter)
      case Err(e) => Err(e)
      case Ok(rows) =>
        var p := paths[|paths| - 1];
        match if p in files then RowOf(files[p], categoryFilter) else Err("FileNotFoundError")
        case Err(e) => Err(e)
        case Ok(None) => Ok(rows)
        case Ok(Some(row)) => Ok(rows + [row])
  }

  /** The files actually read: the first `MAX_FILES` paths in sorted order. */
  function SelectedPaths(paths: seq<string>): (r: seq<string>)
  {
    Take(SortedDistinct(paths), MaxFiles)
  }

  datatype Outcome = NoFiles | NoRows | Written(rows: seq<Row>) | Raised(error: string)

  /**
   * `main`: `paths` is what the glob found (distinct paths) and `files` their parsed contents.
   * No file → nothing written; otherwise the selected files are read in order, and the CSV
   * is written when at least one row was produced.
   */
  method Preprocess(paths: seq<string>, files: map<string, Json>, categoryFilter: Option<string>) returns (out: Outcome)
    ensures paths == [] ==> out == NoFiles
    ensures paths != [] ==>
      match FileRows(SelectedPaths(paths), files, categoryFilter)
      case Err(e) => out == Raised(e)
      case Ok(rows) => out == if rows == [] then NoRows else Written(rows)
  {
    if |paths| == 0 {
      return NoFiles;
    }
    var selected := SelectedPaths(paths);
    var rows: seq<Row> := [];
    for i := 0 to |selected|
      invariant FileRows(selected[..i], files, categoryFilter) == Ok(rows)
    {
      assert selected[..i + 1][..i] == selected[..i];
      var p := selected[i];
      var row := if p in files then RowOf(files[p], categoryFilter) else Err("FileNotFoundError");
      if row.Err? {
        FileRowsError(selected, files, categoryFilter, i + 1);
        return Raised(row.error);
      }
      if row.value.Some? {
        rows := rows + [row.value.value];
      }
    }
    assert selected[..|selected|] == selected;
    out := if rows == [] then NoRows else Written(rows);
  }

  /** An error in a prefix of the files is the error of all of them. */
  lemma {:induction false} FileRowsError(paths: seq<string>, files: map<string, Json>, categoryFilter: Option<string>, n: nat)
    requires n <= |paths| && FileRows(paths[..n], files, categoryFilter).Err?
    ensures FileRows(paths, files, categoryFilter) == FileRows(paths[..n], files, categoryFilter)
    decreases |paths| - n
  {
    if n < |paths| {
      assert paths[..n + 1][..n] == paths[..n];
      FileRowsError(paths, files, categoryFilter, n + 1);
    } else {
      assert paths[..n] == paths;
    }
  }

  /**
   * At most `MAX_FILES` files are read, the smallest paths: each selected path is one of the
   * found ones, they are in increasing order, and any found path left out is larger than all
   * selected ones.
   */
  lemma SelectedPathsProperties(paths: seq<string>)
    ensures |SelectedPaths(paths)| <= MaxFiles
    ensures StrictlySorted(SelectedPaths(paths))
    ensures forall p :: p in SelectedPaths(paths) ==> p in paths
    ensures forall p, q :: p in paths && p !in SelectedPaths(paths) && q in SelectedPaths(paths) ==> StrLess(q, p)
    ensures |SortedDistinct(paths)| <= MaxFiles ==> forall p :: p in paths ==> p in SelectedPaths(paths)
  {
    var all := SortedDistinct(paths);
    var sel := SelectedPaths(paths);
    SortedDistinctProperties(paths);
    forall p, q | p in paths && p !in sel && q in sel ensures StrLess(q, p) {
      var j :| 0 <= j < |all| && all[j] == p;
      var i :| 0 <= i < |sel| && sel[i] == q;
      assert all[i] == q;
    }
  }

  /**
   * Each row comes from a record whose category passes the filter and whose `useType` is
   * 0 or 1 (or a boolean), and its label is that value.
   */
  lemma RowOfProperties(data: Json, categoryFilter: Option<string>)
    requires RowOf(data, categoryFilter).Ok? && RowOf(data, categoryFilter).value.Some?
    ensures data.JObj? && "sourceDataInfo" in data.fields && data.fields["sourceDataInfo"].JObj?
    ensures var item := data.fields["sourceDataInfo"].fields; var row := RowOf(data, categoryFilter).value.value;
      (categoryFilter.Some? ==> SafeGet(item, "newsCategory") == categoryFilter.value)
      && Label(Get(item, "useType", JNull)) == Some(row.labelValue)
      && (row.labelValue == 0 || row.labelValue == 1)
      && Content(item) == Ok(row.content)
      && row.title == CleanText(SafeGet(item, "newsTitle"))
  {
  }
}
