/**
 * The admin terms page: the crawled dictionary, edited in place by an administrator. Edits,
 * additions and deletions are kept as patches by id in the browser's storage and laid over the
 * crawled words each time the page loads; the page also updates its own list at once, and that
 * list agrees, id by id, with what a reload would show.
 */
module AdminTerms {
  import opened Text
  import opened WordIndex
  import opened WordJson
  import opened ManagerWord
  import WordPage
  import Calendar

  // ---------------------------------------------------------------------------------------
  // parseKeyword: `term(English)`

  /** The first `)` at or after `i`, as the lazy `.*?` finds it; none past a line terminator. */
  function CloseParen(s: string, i: nat): (r: Option<nat>)
    requires i <= |s|
    ensures r.Some? ==> i <= r.value < |s| && s[r.value] == ')'
    ensures r.Some? ==> ')' !in s[i..r.value] && NoLineTerminator(s[i..r.value])
    decreases |s| - i
  {
    if i == |s| || LineTerminator(s[i]) then None
    else if s[i] == ')' then Some(i)
    else
      var r := CloseParen(s, i + 1);
      if r.Some? then
        assert s[i..r.value] == [s[i]] + s[i + 1..r.value];
        r
      else r
  }

  /**
   * Where `/\((.*?)\)/` first matches from `p`: the bounds of the group after the first `(`
   * that a `)` closes before any line terminator.
   */
  function ParenGroup(s: string, p: nat): (r: Option<(nat, nat)>)
    requires p <= |s|
    ensures r.Some? ==> p < r.value.0 <= r.value.1 < |s| && s[r.value.0 - 1] == '('
    ensures r.Some? ==> ')' !in s[r.value.0..r.value.1] && NoLineTerminator(s[r.value.0..r.value.1])
    decreases |s| - p
  {
    if p == |s| then None
    else if s[p] == '(' && CloseParen(s, p + 1).Some? then Some((p + 1, CloseParen(s, p + 1).value))
    else ParenGroup(s, p + 1)
  }

  /** What `parseKeyword` gives: the trimmed keyword, its term and its English name. */
  datatype Parsed = Parsed(keyword: string, term: string, en: string)

  /**
   * `parseKeyword`: the term is the trimmed text before the first `(`; the English name is the
   * trimmed first parenthesised group, or `""`.
   */
  function ParseKeyword(raw: string): (r: Parsed)
    ensures r.keyword == JsTrim(raw)
    ensures JsTrim(r.term) == r.term && '(' !in r.term
    ensures JsTrim(r.en) == r.en && ')' !in r.en && NoLineTerminator(r.en)
  {
    var k := JsTrim(raw);
    var before := k[..CharFree(k, '(')];
    StripIdempotent(before, JsSpace);
    StripAllChars(before, JsSpace, c => c != '(');
    var g := ParenGroup(k, 0);
    if g.None? then Parsed(k, JsTrim(before), "")
    else
      var group := k[g.value.0..g.value.1];
      StripIdempotent(group, JsSpace);
      StripAllChars(group, JsSpace, c => c != ')' && !LineTerminator(c));
      Parsed(k, JsTrim(before), JsTrim(group))
  }

  /** The keyword the editor is filled with: the term, then the English name in parentheses when there is one. */
  function DraftKeyword(term: string, en: string): string {
    if en != "" then term + "(" + en + ")" else term
  }

  lemma {:induction false} CloseParenAt(s: string, i: nat, j: nat)
    requires i <= j < |s| && s[j] == ')'
    requires forall k :: i <= k < j ==> s[k] != ')' && !LineTerminator(s[k])
    ensures CloseParen(s, i) == Some(j)
    decreases j - i
  {
    if i < j {
      CloseParenAt(s, i + 1, j);
    }
  }

  lemma {:induction false} ParenGroupSkip(s: string, p: nat, q: nat)
    requires p <= q <= |s|
    requires forall k :: p <= k < q ==> s[k] != '('
    ensures ParenGroup(s, p) == ParenGroup(s, q)
    decreases q - p
  {
    if p < q {
      ParenGroupSkip(s, p + 1, q);
    }
  }

  /**
   * Parsing the editor's keyword gives back the term and the English name it was made from,
   * when the term is trimmed without `(` and the name trimmed without `)` or a line break.
   */
  lemma DraftRoundTrip(term: string, en: string)
    requires JsTrim(term) == term && '(' !in term
    requires JsTrim(en) == en && ')' !in en && NoLineTerminator(en)
    ensures ParseKeyword(DraftKeyword(term, en)) == Parsed(DraftKeyword(term, en), term, en)
  {
    if en == "" {
      DraftPlain(term);
    } else {
      DraftPaired(term, en);
    }
  }

  /** A trimmed text starts and ends with non-space characters. */
  lemma TrimmedEnds(s: string)
    requires JsTrim(s) == s && s != []
    ensures !JsSpace(s[0]) && !JsSpace(s[|s| - 1])
  {
  }

  lemma DraftPlain(term: string)
    requires JsTrim(term) == term && '(' !in term
    ensures ParseKeyword(term) == Parsed(term, term, "")
  {
    assert CharFree(term, '(') == |term|;
    assert term[..|term|] == term;
    ParenGroupSkip(term, 0, |term|);
  }

  lemma DraftPairedTrimmed(term: string, en: string)
    requires JsTrim(term) == term
    ensures JsTrim(term + "(" + en + ")") == term + "(" + en + ")"
  {
    var s := term + "(" + en + ")";
    if term != [] {
      TrimmedEnds(term);
      assert s[0] == term[0];
    }
    assert s[|s| - 1] == ')';
    StripTrimmed(s, JsSpace);
  }

  lemma DraftPairedGroup(term: string, en: string)
    requires '(' !in term && ')' !in en && NoLineTerminator(en)
    ensures var s := term + "(" + en + ")";
      CharFree(s, '(') == |term| && s[..|term|] == term
      && ParenGroup(s, 0) == Some((|term| + 1, |term| + 1 + |en|)) && s[|term| + 1..|term| + 1 + |en|] == en
  {
    var s := term + "(" + en + ")";
    var a, b := |term| + 1, |term| + 1 + |en|;
    assert s[b] == ')' && s[|term|] == '(';
    assert s[..|term|] == term && s[a..b] == en;
    forall k | a <= k < b ensures s[k] != ')' && !LineTerminator(s[k]) {
      assert s[k] == en[k - a];
    }
    CloseParenAt(s, a, b);
    forall k | 0 <= k < |term| ensures s[k] != '(' {
      assert s[k] == term[k];
    }
    ParenGroupSkip(s, 0, |term|);
  }

  lemma DraftPaired(term: string, en: string)
    requires JsTrim(term) == term && '(' !in term
    requires en != "" && JsTrim(en) == en && ')' !in en && NoLineTerminator(en)
    ensures ParseKeyword(term + "(" + en + ")") == Parsed(term + "(" + en + ")", term, en)
  {
    DraftPairedTrimmed(term, en);
    DraftPairedGroup(term, en);
  }

  /** A parsed keyword survives the editor: its draft parses to the same term and name. */
  lemma ParsedDraftStable(raw: string)
    ensures var p := ParseKeyword(raw); var q := ParseKeyword(DraftKeyword(p.term, p.en));
      q.term == p.term && q.en == p.en
  {
    var p := ParseKeyword(raw);
    DraftRoundTrip(p.term, p.en);
  }

  // ---------------------------------------------------------------------------------------
  // The body: content.split("\n").map(v => v.trim()).filter(Boolean)

  /** A line of a body: non-empty, trimmed, without a line break. */
  predicate IsLine(line: string) {
    line != [] && JsTrim(line) == line && '\n' !in line
  }

  lemma {:induction false} TrimmedNonEmptyAvoids(pieces: seq<string>, c: char)
    requires forall k :: 0 <= k < |pieces| ==> c !in pieces[k]
    ensures forall k :: 0 <= k < |TrimmedNonEmpty(pieces)| ==> c !in TrimmedNonEmpty(pieces)[k]
  {
    if pieces != [] {
      StripAllChars(pieces[0], JsSpace, x => x != c);
      TrimmedNonEmptyAvoids(pieces[1..], c);
    }
  }

  /** The body of a content text: its lines, trimmed, the empty ones dropped. */
  function BodyLines(content: string): (r: seq<string>)
    ensures forall k :: 0 <= k < |r| ==> IsLine(r[k])
  {
    TrimmedNonEmptyAvoids(SplitOn(content, '\n'), '\n');
    TrimmedNonEmpty(SplitOn(content, '\n'))
  }

  /** `body.join("\n")` read back as a body gives the lines again. */
  lemma BodyLinesRoundTrip(body: seq<string>)
    requires forall k :: 0 <= k < |body| ==> IsLine(body[k])
    ensures BodyLines(Join(body, "\n")) == body
  {
    if body == [] {
      assert SplitOn("", '\n') == [""];
    } else {
      SplitOnJoin(body, '\n');
      TrimmedNonEmptyKeeps(body);
    }
  }

  /** Lines joined by line breaks start with the first line's first character and end with the last line's last. */
  lemma {:induction false} JoinEnds(body: seq<string>)
    requires |body| >= 1 && forall k :: 0 <= k < |body| ==> body[k] != []
    ensures var s := Join(body, "\n");
      |s| > 0 && s[0] == body[0][0] && s[|s| - 1] == body[|body| - 1][|body[|body| - 1]| - 1]
  {
    if |body| > 1 {
      JoinEnds(body[1..]);
    }
  }

  /** The editor's text of a body is already trimmed, so saving it trims nothing away. */
  lemma JoinedBodyTrimmed(body: seq<string>)
    requires forall k :: 0 <= k < |body| ==> IsLine(body[k])
    ensures JsTrim(Join(body, "\n")) == Join(body, "\n")
  {
    if body != [] {
      JoinEnds(body);
      TrimmedEnds(body[0]);
      TrimmedEnds(body[|body| - 1]);
      StripTrimmed(Join(body, "\n"), JsSpace);
    }
  }

  // ---------------------------------------------------------------------------------------
  // Dates: formatYmdDot and the crawled `scraped_at`

  /** The "edited" mark after a date label. */
  const Edited: string := " \U{C218}\U{C815}"

  /** `formatYmdDot`: the year in full, month and day in two digits, then the "edited" mark. */
  function FormatYmdDot(d: JsDate): (r: string)
    ensures |r| >= 10 && r[|r| - 3..] == Edited
  {
    Calendar.Decimal(d.year) + "." + Calendar.Pad(d.month, 2) + "." + Calendar.Pad(d.day, 2) + Edited
  }

  /** `.replace(/-/g, ".")`. */
  function DashToDot(s: string): (r: string)
    ensures |r| == |s| && forall i :: 0 <= i < |s| ==> r[i] == if s[i] == '-' then '.' else s[i]
  {
    if s == [] then [] else [if s[0] == '-' then '.' else s[0]] + DashToDot(s[1..])
  }

  /** The label of a crawled row: the date part of `scraped_at` with dots, then the "edited" mark; `""` without one. */
  function ScrapedLabel(scrapedAt: string): (r: string)
    ensures scrapedAt == "" <==> r == ""
  {
    if scrapedAt == "" then "" else DashToDot(SplitOn(scrapedAt, 'T')[0]) + Edited
  }

  /** Two digit strings of one length and one value are the same string. */
  lemma {:induction false} DigitsUnique(s: string, t: string)
    requires Calendar.AllDigits(s) && Calendar.AllDigits(t) && |s| == |t|
    requires Calendar.DigitsValue(s) == Calendar.DigitsValue(t)
    ensures s == t
  {
    if s != [] {
      var n := |s| - 1;
      assert '0' <= s[n] <= '9' && '0' <= t[n] <= '9';
      LastDigit(Calendar.DigitsValue(s[..n]), Calendar.DigitsValue(t[..n]), Calendar.DigitValue(s[n]), Calendar.DigitValue(t[n]));
      DigitsUnique(s[..n], t[..n]);
      assert s == s[..n] + [s[n]] && t == t[..n] + [t[n]];
    }
  }

  /** The last decimal digit and the number before it are determined by the value. */
  lemma LastDigit(a: int, b: int, c: int, d: int)
    requires 0 <= c <= 9 && 0 <= d <= 9 && 10 * a + c == 10 * b + d
    ensures a == b && c == d
  {
  }

  /** A four-digit year written out is the year padded to four digits. */
  lemma DecimalIsPad(y: nat)
    requires 1000 <= y <= 9999
    ensures Calendar.Decimal(y) == Calendar.Pad(y, 4)
  {
    assert |Calendar.Decimal(y / 1000)| == 1;
    assert |Calendar.Decimal(y / 100)| == 2;
    assert |Calendar.Decimal(y / 10)| == 3;
    Calendar.PadValue(y, 4);
    DigitsUnique(Calendar.Decimal(y), Calendar.Pad(y, 4));
  }

  /**
   * A crawled timestamp `YYYY-MM-DDT…` is labelled as an edit made that day would be, for the
   * years written with four digits.
   */
  lemma ScrapedLabelOfIso(d: JsDate, rest: string)
    requires 1000 <= d.year <= 9999
    ensures ScrapedLabel(Calendar.IsoDate(d) + "T" + rest) == FormatYmdDot(d)
  {
    var iso := Calendar.IsoDate(d);
    var yyyy, mm, dd := Calendar.Pad(d.year, 4), Calendar.Pad(d.month, 2), Calendar.Pad(d.day, 2);
    assert iso == yyyy + "-" + mm + "-" + dd;
    var s := iso + "T" + rest;
    forall i | 0 <= i < 10 ensures s[i] != 'T' && (s[i] == '-' <==> i == 4 || i == 7) {
      if i < 4 {
        assert s[i] == yyyy[i];
      } else if 4 < i < 7 {
        assert s[i] == mm[i - 5];
      } else if 7 < i {
        assert s[i] == dd[i - 8];
      }
    }
    assert s[10] == 'T';
    var n := CharFree(s, 'T');
    assert n == 10;
    assert SplitOn(s, 'T')[0] == iso;
    DecimalIsPad(d.year);
    var dotted := yyyy + "." + mm + "." + dd;
    assert DashToDot(iso) == dotted by {
      forall i | 0 <= i < 10 ensures DashToDot(iso)[i] == dotted[i] {
        if i < 4 {
          assert dotted[i] == yyyy[i];
        } else if 4 < i < 7 {
          assert dotted[i] == mm[i - 5];
        } else if 7 < i {
          assert dotted[i] == dd[i - 8];
        }
      }
    }
  }

  // ---------------------------------------------------------------------------------------
  // The overrides kept in storage

  /** A stored patch; a field is `None` when the stored object does not have it. */
  datatype OPatch = OPatch(isNew: Option<bool>, keyword: Option<string>, content: Option<string>, updatedAt: Option<string>, deleted: Option<bool>)

  /** One entry of the stored `items` object, in the object's key order. */
  datatype Item = Item(id: string, patch: OPatch)

  const NoFields := OPatch(None, None, None, None, None)

  /** A flag set to `true`, as `if (patch.deleted)` reads it. */
  predicate Truthy(flag: Option<bool>) { flag == Some(true) }

  function Or<T>(a: Option<T>, b: Option<T>): Option<T> { if a.Some? then a else b }

  function GetOr<T>(a: Option<T>, default: T): T { if a.Some? then a.value else default }

  /** `{ ...old, ...patch }`: the patch's fields over the old ones. */
  function Merge(prior: OPatch, patch: OPatch): OPatch {
    OPatch(Or(patch.isNew, prior.isNew), Or(patch.keyword, prior.keyword), Or(patch.content, prior.content),
      Or(patch.updatedAt, prior.updatedAt), Or(patch.deleted, prior.deleted))
  }

  function ItemIds(items: seq<Item>): set<string> {
    if items == [] then {} else {items[0].id} + ItemIds(items[1..])
  }

  /** The keys of an object: no two entries share an id. */
  predicate ItemsDistinct(items: seq<Item>) {
    items == [] || (items[0].id !in ItemIds(items[1..]) && ItemsDistinct(items[1..]))
  }

  /** `items[id]`. */
  function ItemOf(items: seq<Item>, id: string): (r: Option<OPatch>)
    ensures r.Some? <==> id in ItemIds(items)
  {
    if items == [] then None
    else if items[0].id == id then Some(items[0].patch)
    else ItemOf(items[1..], id)
  }

  /** `items[id] = { ...(items[id] || {}), ...patch }`: merged where the key stands, or added last. */
  function Upsert(items: seq<Item>, id: string, patch: OPatch): seq<Item>
  {
    if items == [] then [Item(id, patch)]
    else if items[0].id == id then [Item(id, Merge(items[0].patch, patch))] + items[1..]
    else [items[0]] + Upsert(items[1..], id, patch)
  }

  lemma {:induction false} UpsertItemOf(items: seq<Item>, id: string, patch: OPatch, x: string)
    requires ItemsDistinct(items)
    ensures ItemsDistinct(Upsert(items, id, patch)) && ItemIds(Upsert(items, id, patch)) == ItemIds(items) + {id}
    ensures ItemOf(Upsert(items, id, patch), x) ==
      if x != id then ItemOf(items, x) else Some(Merge(GetOr(ItemOf(items, id), NoFields), patch))
  {
    if items != [] && items[0].id != id {
      UpsertItemOf(items[1..], id, patch, x);
    }
  }

  /** `clearDeleted`: the entry loses its `deleted` field; no entry, no change. */
  function ClearDeleted(items: seq<Item>, id: string): seq<Item>
  {
    if items == [] then []
    else if items[0].id == id then [Item(id, items[0].patch.(deleted := None))] + items[1..]
    else [items[0]] + ClearDeleted(items[1..], id)
  }

  lemma {:induction false} ClearDeletedItemOf(items: seq<Item>, id: string, x: string)
    requires ItemsDistinct(items)
    ensures ItemsDistinct(ClearDeleted(items, id)) && ItemIds(ClearDeleted(items, id)) == ItemIds(items)
    ensures ItemOf(ClearDeleted(items, id), x) ==
      if x == id && ItemOf(items, id).Some? then Some(ItemOf(items, id).value.(deleted := None)) else ItemOf(items, x)
  {
    if items != [] && items[0].id != id {
      ClearDeletedItemOf(items[1..], id, x);
    }
  }

  /** A save: `upsertOverride(id, patch)` then `clearDeleted(id)`. */
  function Saved(items: seq<Item>, id: string, patch: OPatch): seq<Item> {
    ClearDeleted(Upsert(items, id, patch), id)
  }

  lemma SavedItemOf(items: seq<Item>, id: string, patch: OPatch, x: string)
    requires ItemsDistinct(items)
    ensures ItemsDistinct(Saved(items, id, patch)) && ItemIds(Saved(items, id, patch)) == ItemIds(items) + {id}
    ensures ItemOf(Saved(items, id, patch), x) ==
      if x != id then ItemOf(items, x) else Some(Merge(GetOr(ItemOf(items, id), NoFields), patch).(deleted := None))
  {
    UpsertItemOf(items, id, patch, x);
    UpsertItemOf(items, id, patch, id);
    ClearDeletedItemOf(Upsert(items, id, patch), id, x);
  }

  /** `markDeleted`. */
  function MarkDeleted(items: seq<Item>, id: string): seq<Item> {
    Upsert(items, id, NoFields.(deleted := Some(true)))
  }

  /** What storage holds under the overrides key, as `JSON.parse` reads it. */
  datatype StoredOverrides = NoOverrides | Unparsable | NotAnObject | NoItemsObject | WithItems(items: seq<Item>)

  /** `loadOverrides`: the stored items, or none when anything about the stored value is off. */
  function LoadOverrides(stored: StoredOverrides): (r: seq<Item>)
    ensures stored.WithItems? ==> r == stored.items
    ensures !stored.WithItems? ==> r == []
  {
    if stored.WithItems? then stored.items else []
  }

  /** `saveOverrides`. */
  function SaveOverrides(items: seq<Item>): StoredOverrides { WithItems(items) }

  // ---------------------------------------------------------------------------------------
  // Words from a keyword and a content

  /** The segment of the word is the one of its term, and the index key the one of both. */
  predicate AdminConsistent(w: Word) {
    w.seg == DetectSeg(w.term) && Consistent(w)
  }

  /** A word the editor gives back unchanged: a parsed term and name, a body of lines. */
  predicate Editable(w: Word) {
    JsTrim(w.term) == w.term && '(' !in w.term
    && JsTrim(w.en) == w.en && ')' !in w.en && NoLineTerminator(w.en)
    && forall k :: 0 <= k < |w.body| ==> IsLine(w.body[k])
  }

  /** The word a keyword, a content and a label make: the fields the save and the reload compute. */
  function SavedWord(id: string, keyword: string, content: string, updatedAt: string): (w: Word)
    ensures w.id == id && w.updatedAt == updatedAt && Editable(w) && AdminConsistent(w)
    ensures w.term == ParseKeyword(keyword).term && w.en == ParseKeyword(keyword).en && w.body == BodyLines(content)
  {
    var p := ParseKeyword(keyword);
    var seg := DetectSeg(p.term);
    Word(id, seg, p.term, p.en, updatedAt, BodyLines(content), AdminComputeIndex(seg, p.term))
  }

  /** A new word from its patch, fields it lacks read as `""`. */
  function NewOf(id: string, patch: OPatch): (w: Word)
    ensures w.id == id && Editable(w) && AdminConsistent(w)
  {
    SavedWord(id, GetOr(patch.keyword, ""), GetOr(patch.content, ""), GetOr(patch.updatedAt, ""))
  }

  /** An existing word with its patch: fields the patch lacks are taken from the word, through its draft. */
  function EditOf(w: Word, patch: OPatch): (r: Word)
    ensures r.id == w.id && Editable(r) && AdminConsistent(r)
  {
    SavedWord(w.id, GetOr(patch.keyword, DraftKeyword(w.term, w.en)), GetOr(patch.content, Join(w.body, "\n")),
      GetOr(patch.updatedAt, w.updatedAt))
  }

  /** A patch changes only what it carries: a missing field leaves an editable word's field as it was. */
  lemma EditOfKeeps(w: Word, patch: OPatch)
    requires Editable(w) && AdminConsistent(w)
    ensures var r := EditOf(w, patch);
      (patch.keyword.None? ==> r.term == w.term && r.en == w.en && r.seg == w.seg && r.indexKey == w.indexKey)
      && (patch.content.None? ==> r.body == w.body)
      && (patch.updatedAt.None? ==> r.updatedAt == w.updatedAt)
  {
    DraftRoundTrip(w.term, w.en);
    BodyLinesRoundTrip(w.body);
  }

  /** A patch carrying all three fields makes the same word whatever it is applied to. */
  lemma FullPatch(w: Word, patch: OPatch)
    requires patch.keyword.Some? && patch.content.Some? && patch.updatedAt.Some?
    ensures EditOf(w, patch) == NewOf(w.id, patch)
  {
  }

  /** Saving the editor's draft of a word unchanged gives the word back, with the new label. */
  lemma SaveDraftUnchanged(w: Word, updatedAt: string)
    requires Editable(w) && AdminConsistent(w)
    ensures var keyword := JsTrim(DraftKeyword(w.term, w.en)); var content := JsTrim(Join(w.body, "\n"));
      keyword != "" <==> (w.term != "" || w.en != "")
    ensures var keyword := JsTrim(DraftKeyword(w.term, w.en)); var content := JsTrim(Join(w.body, "\n"));
      SavedWord(w.id, keyword, content, updatedAt) == w.(updatedAt := updatedAt)
  {
    DraftRoundTrip(w.term, w.en);
    JoinedBodyTrimmed(w.body);
    BodyLinesRoundTrip(w.body);
    assert ParseKeyword(DraftKeyword(w.term, w.en)).keyword == DraftKeyword(w.term, w.en);
  }

  // ---------------------------------------------------------------------------------------
  // applyOverridesToList

  /** What one item makes of the entry under its id. */
  function StepEntry(prev: Option<Word>, patch: OPatch, id: string): Option<Word> {
    if Truthy(patch.deleted) then None
    else if prev.None? && Truthy(patch.isNew) then Some(NewOf(id, patch))
    else if prev.None? then None
    else Some(EditOf(prev.value, patch))
  }

  /** One item of the loop: deleted, added as new, applied to the word with its id, or passed over. */
  function Step(m: seq<Word>, item: Item): seq<Word> {
    var id, patch := item.id, item.patch;
    if Truthy(patch.deleted) then RemoveId(m, id)
    else if id !in Ids(m) && Truthy(patch.isNew) then SetWord(m, NewOf(id, patch))
    else if Lookup(m, id).None? then m
    else SetWord(m, EditOf(Lookup(m, id).value, patch))
  }

  /** The items applied in the object's key order. */
  function Applied(m: seq<Word>, items: seq<Item>): seq<Word>
    decreases |items|
  {
    if items == [] then m else Applied(Step(m, items[0]), items[1..])
  }

  lemma StepLookup(m: seq<Word>, item: Item, x: string)
    requires DistinctIds(m)
    ensures DistinctIds(Step(m, item))
    ensures Lookup(Step(m, item), x) == if x == item.id then StepEntry(Lookup(m, x), item.patch, x) else Lookup(m, x)
  {
    var id, patch := item.id, item.patch;
    if Truthy(patch.deleted) {
      RemoveIdLookup(m, id, x);
    } else if id !in Ids(m) && Truthy(patch.isNew) {
      SetWordLookup(m, NewOf(id, patch), x);
    } else if Lookup(m, id).Some? {
      SetWordLookup(m, EditOf(Lookup(m, id).value, patch), x);
    }
  }

  lemma {:induction false} AppliedLookup(m: seq<Word>, items: seq<Item>, x: string)
    requires DistinctIds(m) && ItemsDistinct(items)
    ensures DistinctIds(Applied(m, items))
    ensures Lookup(Applied(m, items), x) ==
      if ItemOf(items, x).None? then Lookup(m, x) else StepEntry(Lookup(m, x), ItemOf(items, x).value, x)
    decreases |items|
  {
    if items != [] {
      StepLookup(m, items[0], x);
      AppliedLookup(Step(m, items[0]), items[1..], x);
    }
  }

  /** What a load shows under an id: the last crawled word with it, as its item, if any, leaves it. */
  function OverrideEntry(base: seq<Word>, items: seq<Item>, x: string): Option<Word> {
    if ItemOf(items, x).None? then LastWith(base, x) else StepEntry(LastWith(base, x), ItemOf(items, x).value, x)
  }

  /**
   * The overrides laid over the crawled words hold, id by id: nothing for a deleted item; a new
   * word for a new item whose id no crawled word has; the crawled word with its patch applied;
   * the crawled word itself without an item.
   */
  lemma OverridesLookup(base: seq<Word>, items: seq<Item>, x: string)
    requires ItemsDistinct(items)
    ensures DistinctIds(Applied(MapOf(base), items))
    ensures Lookup(Applied(MapOf(base), items), x) == OverrideEntry(base, items, x)
  {
    MapOfLookup(base, x);
    AppliedLookup(MapOf(base), items, x);
  }

  /** The loop of `applyOverridesToList` over the stored items. */
  method ApplyOverridesToList(base: seq<Word>, items: seq<Item>) returns (r: seq<Word>)
    ensures r == Applied(MapOf(base), items)
  {
    r := MapOf(base);
    var k := 0;
    while k < |items|
      invariant k <= |items|
      invariant Applied(r, items[k..]) == Applied(MapOf(base), items)
    {
      var id, patch := items[k].id, items[k].patch;
      assert items[k..][0] == items[k] && items[k..][1..] == items[k + 1..];
      if Truthy(patch.deleted) {
        r := RemoveId(r, id);
      } else if id !in Ids(r) && Truthy(patch.isNew) {
        r := SetWord(r, NewOf(id, patch));
      } else {
        var w := Lookup(r, id);
        if w.Some? {
          r := SetWord(r, EditOf(w.value, patch));
        }
      }
      k := k + 1;
    }
  }

  // ---------------------------------------------------------------------------------------
  // loadWords

  /** A row of the crawled file, its fields after `x || ""`; an absent or zero `term_id` is `""`. */
  datatype AdminRow = AdminRow(termId: string, keyword: string, content: string, scrapedAt: string)

  /** What `res.json()` gives: an array of rows, another object, or `null`; a row may be `null`. */
  datatype AdminJson =
    | AArray(rows: seq<Option<AdminRow>>)
    | AObject(words: Option<seq<Option<AdminRow>>>, data: Option<seq<Option<AdminRow>>>, items: Option<seq<Option<AdminRow>>>)
    | ANull

  datatype AdminResponse = AdminResponse(ok: bool, json: Option<AdminJson>)

  /** The rows: the array itself, else `words || data || items || []`; reading a field of `null` throws. */
  function AdminRows(j: AdminJson): Option<seq<Option<AdminRow>>> {
    match j
    case AArray(rows) => Some(rows)
    case AObject(words, data, items) => Some(if words.Some? then words.value else if data.Some? then data.value else if items.Some? then items.value else [])
    case ANull => None
  }

  predicate NoNullRow(rows: seq<Option<AdminRow>>) {
    forall k :: 0 <= k < |rows| ==> rows[k].Some?
  }

  /** The word of row `i`: `word_<term_id>`, or `word_<i>` without one. */
  function BaseWord(row: AdminRow, i: nat): (w: Word)
    ensures w.id == "word_" + (if row.termId != "" then row.termId else Calendar.Decimal(i))
    ensures !IsLocal(w.id) && Editable(w) && AdminConsistent(w) && w.updatedAt == ScrapedLabel(row.scrapedAt)
  {
    var id := "word_" + (if row.termId != "" then row.termId else Calendar.Decimal(i));
    assert id[0] == 'w';
    SavedWord(id, row.keyword, row.content, ScrapedLabel(row.scrapedAt))
  }

  /** `items.map(...)` over rows none of which is `null`. */
  function BaseOf(rows: seq<Option<AdminRow>>): (r: seq<Word>)
    requires NoNullRow(rows)
    ensures |r| == |rows| && forall k :: 0 <= k < |rows| ==> r[k] == BaseWord(rows[k].value, k)
  {
    seq(|rows|, k requires 0 <= k < |rows| => BaseWord(rows[k].value, k))
  }

  /** The crawled words: never a local id, each editable and carrying the index key of its term. */
  predicate AdminBaseOk(base: seq<Word>) {
    forall w :: w in base ==> !IsLocal(w.id) && Editable(w) && AdminConsistent(w)
  }

  lemma BaseOfOk(rows: seq<Option<AdminRow>>)
    requires NoNullRow(rows)
    ensures AdminBaseOk(BaseOf(rows))
  {
  }

  /**
   * `loadWords`: a failed response, unreadable JSON, a `null` body or a `null` row fail the
   * load; otherwise the rows' words with the stored overrides laid over them.
   */
  method LoadWords(res: AdminResponse, stored: StoredOverrides) returns (r: Result<seq<Word>>)
    ensures r.Ok? <==> res.ok && res.json.Some? && AdminRows(res.json.value).Some? && NoNullRow(AdminRows(res.json.value).value)
    ensures r.Ok? ==> r.value == Applied(MapOf(BaseOf(AdminRows(res.json.value).value)), LoadOverrides(stored))
  {
    if !res.ok {
      return Err("word.json load failed");
    }
    if res.json.None? {
      return Err("word.json is not JSON");
    }
    var rows := AdminRows(res.json.value);
    if rows.None? {
      return Err("word.json is null");
    }
    if !NoNullRow(rows.value) {
      return Err("word.json has a null row");
    }
    var words := ApplyOverridesToList(BaseOf(rows.value), LoadOverrides(stored));
    return Ok(words);
  }

  // ---------------------------------------------------------------------------------------
  // What the page's changes do to the overrides and the list

  lemma NoLocalInBase(base: seq<Word>, id: string)
    requires AdminBaseOk(base) && IsLocal(id)
    ensures LastWith(base, id).None?
  {
    forall k | 0 <= k < |base| ensures !IsLocal(base[k].id) {
      assert base[k] in base;
    }
    IdsAll(base, x => !IsLocal(x), id);
  }

  /** Every entry a load shows is editable and carries the index key of its term. */
  lemma OverrideEntryShape(base: seq<Word>, items: seq<Item>, x: string)
    requires AdminBaseOk(base)
    ensures var r := OverrideEntry(base, items, x); r.Some? ==> r.value.id == x && Editable(r.value) && AdminConsistent(r.value)
  {
  }

  /** The words of a page that agrees with a load are all editable and carry their index keys. */
  lemma PageWordsShape(base: seq<Word>, items: seq<Item>, all: seq<Word>)
    requires AdminBaseOk(base) && DistinctIds(all)
    requires forall x :: Lookup(all, x) == OverrideEntry(base, items, x)
    ensures forall k :: 0 <= k < |all| ==> Editable(all[k]) && AdminConsistent(all[k])
  {
    forall k | 0 <= k < |all| ensures Editable(all[k]) && AdminConsistent(all[k]) {
      LookupDistinct(all, k);
      OverrideEntryShape(base, items, all[k].id);
    }
  }

  /**
   * Adding: the new word appended to the list and its patch saved under a fresh local id; the
   * list still agrees with a load, holds the new word under its id and is unchanged elsewhere.
   */
  lemma AddKeeps(base: seq<Word>, items: seq<Item>, all: seq<Word>, id: string, patch: OPatch)
    requires AdminBaseOk(base) && ItemsDistinct(items) && DistinctIds(all)
    requires forall x :: Lookup(all, x) == OverrideEntry(base, items, x)
    requires IsLocal(id) && id !in ItemIds(items) && Truthy(patch.isNew)
    requires patch.keyword.Some? && patch.content.Some? && patch.updatedAt.Some?
    ensures var items2, all2 := Saved(items, id, patch), all + [NewOf(id, patch)];
      ItemsDistinct(items2) && DistinctIds(all2) && Lookup(all2, id) == Some(NewOf(id, patch))
      && (forall x :: Lookup(all2, x) == OverrideEntry(base, items2, x))
      && (forall x :: x != id ==> Lookup(all2, x) == Lookup(all, x))
  {
    var w := NewOf(id, patch);
    var items2, all2 := Saved(items, id, patch), all + [w];
    NoLocalInBase(base, id);
    assert Lookup(all, id) == OverrideEntry(base, items, id);
    DistinctAppend(all, w);
    SavedItemOf(items, id, patch, id);
    LookupSnoc(all, w, id);
    forall x ensures Lookup(all2, x) == OverrideEntry(base, items2, x) && (x != id ==> Lookup(all2, x) == Lookup(all, x)) {
      SavedItemOf(items, id, patch, x);
      LookupSnoc(all, w, x);
    }
  }

  /**
   * Editing: the word with the id replaced where it stands and a full patch saved under the id;
   * the list still agrees with a load, holds the edited word and is unchanged elsewhere.
   */
  lemma EditKeeps(base: seq<Word>, items: seq<Item>, all: seq<Word>, id: string, patch: OPatch)
    requires AdminBaseOk(base) && ItemsDistinct(items) && DistinctIds(all)
    requires forall x :: Lookup(all, x) == OverrideEntry(base, items, x)
    requires id in Ids(all) && patch.isNew.None? && !Truthy(patch.deleted)
    requires patch.keyword.Some? && patch.content.Some? && patch.updatedAt.Some?
    ensures var items2, all2 := Saved(items, id, patch), all[IndexOfId(all, id) := NewOf(id, patch)];
      ItemsDistinct(items2) && DistinctIds(all2) && Lookup(all2, id) == Some(NewOf(id, patch))
      && (forall x :: Lookup(all2, x) == OverrideEntry(base, items2, x))
      && (forall x :: x != id ==> Lookup(all2, x) == Lookup(all, x))
  {
    var w := NewOf(id, patch);
    var k := IndexOfId(all, id);
    var items2, all2 := Saved(items, id, patch), all[k := w];
    assert Lookup(all, id) == OverrideEntry(base, items, id);
    SavedItemOf(items, id, patch, id);
    ReplaceLookup(all, k, w, id);
    if LastWith(base, id).Some? {
      FullPatch(LastWith(base, id).value, ItemOf(items2, id).value);
    }
    forall x ensures Lookup(all2, x) == OverrideEntry(base, items2, x) && (x != id ==> Lookup(all2, x) == Lookup(all, x)) {
      SavedItemOf(items, id, patch, x);
      ReplaceLookup(all, k, w, x);
    }
  }

  lemma DeleteKeepsAt(base: seq<Word>, items: seq<Item>, all: seq<Word>, id: string, x: string)
    requires ItemsDistinct(items) && DistinctIds(all)
    requires Lookup(all, x) == OverrideEntry(base, items, x)
    ensures ItemsDistinct(MarkDeleted(items, id)) && DistinctIds(RemoveId(all, id))
    ensures Lookup(RemoveId(all, id), x) == OverrideEntry(base, MarkDeleted(items, id), x)
    ensures x != id ==> Lookup(RemoveId(all, id), x) == Lookup(all, x)
  {
    UpsertItemOf(items, id, NoFields.(deleted := Some(true)), x);
    RemoveIdLookup(all, id, x);
    if x == id {
      assert Truthy(ItemOf(MarkDeleted(items, id), x).value.deleted);
    }
  }

  /** Deleting: the id marked deleted and its words dropped; the list still agrees with a load. */
  lemma DeleteKeeps(base: seq<Word>, items: seq<Item>, all: seq<Word>, id: string)
    requires ItemsDistinct(items) && DistinctIds(all)
    requires forall x :: Lookup(all, x) == OverrideEntry(base, items, x)
    ensures ItemsDistinct(MarkDeleted(items, id)) && DistinctIds(RemoveId(all, id))
    ensures forall x :: Lookup(RemoveId(all, id), x) == OverrideEntry(base, MarkDeleted(items, id), x)
    ensures forall x :: x != id ==> Lookup(RemoveId(all, id), x) == Lookup(all, x)
  {
    DeleteKeepsAt(base, items, all, id, id);
    forall x ensures Lookup(RemoveId(all, id), x) == OverrideEntry(base, MarkDeleted(items, id), x)
      && (x != id ==> Lookup(RemoveId(all, id), x) == Lookup(all, x))
    {
      DeleteKeepsAt(base, items, all, id, x);
    }
  }

  /** A listed word's id is among the page's ids. */
  lemma ListedInIds(all: seq<Word>, seg: Seg, index: WordPage.IndexChoice, id: string)
    requires id in KeysOf(ListedWords(all, seg, index), IdOf)
    ensures id in Ids(all)
  {
    var listed := ListedWords(all, seg, index);
    var k :| 0 <= k < |listed| && KeysOf(listed, IdOf)[k] == id;
    InIds(all, listed[k]);
  }

  /** A word of the segment is listed under "all". */
  lemma ListedUnderAll(all: seq<Word>, w: Word)
    requires w in all
    ensures w.id in KeysOf(ListedWords(all, w.seg, WordPage.All), IdOf)
  {
    var listed := ListedWords(all, w.seg, WordPage.All);
    assert w in listed;
    var k :| 0 <= k < |listed| && listed[k] == w;
    assert KeysOf(listed, IdOf)[k] == w.id;
  }

  // ---------------------------------------------------------------------------------------
  // The page

  /** `applyFilter`'s selection: kept while listed, else the first listed id, else none (`""` reads as none). */
  function FilterSelect(ids: seq<string>, selected: Option<string>): (r: Option<string>)
    ensures r.Some? ==> r.value in ids
    ensures selected.Some? && selected.value in ids ==> r == selected
    ensures r.None? <==> !(selected.Some? && selected.value in ids) && (ids == [] || ids[0] == "")
  {
    if selected.Some? && selected.value in ids then selected
    else if ids == [] || ids[0] == "" then None
    else Some(ids[0])
  }

  datatype EditMode = EditExisting | AddNew

  /** The editor's two fields. */
  datatype Draft = Draft(keyword: string, content: string)

  /** The id the editor is bound to while adding. */
  const NewWordId := "__new__"

  /** The admin terms page: the words, the overrides in storage, the filters, the selection and the editor. */
  class AdminTermsPage {
    ghost const base: seq<Word>
    var overrides: seq<Item>
    var allWords: seq<Word>
    var words: seq<Word>
    var seg: Seg
    var index: WordPage.IndexChoice
    var selected: Option<string>
    var isEditing: bool
    var editMode: EditMode
    var editingId: Option<string>
    var draft: Draft

    /** The page's words are, id by id, what a load of the crawled words with the stored overrides shows. */
    ghost predicate Valid()
      reads this`overrides, this`allWords
    {
      AdminBaseOk(base) && ItemsDistinct(overrides) && DistinctIds(allWords)
      && forall x :: Lookup(allWords, x) == OverrideEntry(base, overrides, x)
    }

    /** The list on screen is the filter of the words, and the selection is on it. */
    ghost predicate Shown()
      reads this`words, this`allWords, this`seg, this`index, this`selected
    {
      words == ListedWords(allWords, seg, index) && (selected.Some? ==> selected.value in KeysOf(words, IdOf))
    }

    /** `init` after a successful `loadWords`: Korean under "all", the first listed word selected. */
    constructor(base: seq<Word>, stored: StoredOverrides)
      requires AdminBaseOk(base) && ItemsDistinct(LoadOverrides(stored))
      ensures Valid() && Shown() && this.base == base && overrides == LoadOverrides(stored)
      ensures allWords == Applied(MapOf(base), overrides)
      ensures seg == Ko && index == WordPage.All && selected == FilterSelect(KeysOf(words, IdOf), None) && !isEditing
    {
      var all := ApplyOverridesToList(base, LoadOverrides(stored));
      this.base := base;
      overrides := LoadOverrides(stored);
      allWords := all;
      seg := Ko;
      index := WordPage.All;
      words := ListedWords(all, Ko, WordPage.All);
      selected := FilterSelect(KeysOf(ListedWords(all, Ko, WordPage.All), IdOf), None);
      isEditing := false;
      editMode := EditExisting;
      editingId := None;
      draft := Draft("", "");
      new;
      OverridesLookup(base, overrides, "");
      forall x ensures Lookup(allWords, x) == OverrideEntry(base, overrides, x) {
        OverridesLookup(base, overrides, x);
      }
    }

    /** `applyFilter`: the segment's words under the index button; the selection kept while listed. */
    method ApplyFilter()
      modifies this`words, this`selected
      ensures words == ListedWords(allWords, seg, index)
      ensures selected == FilterSelect(KeysOf(words, IdOf), old(selected)) && Shown()
    {
      words := ListedWords(allWords, seg, index);
      selected := FilterSelect(KeysOf(words, IdOf), selected);
    }

    /** A segment button: ignored while editing; otherwise that segment under "all". */
    method ChooseSegment(s: Seg)
      requires Shown()
      modifies this`seg, this`index, this`words, this`selected
      ensures Shown()
      ensures old(isEditing) ==> seg == old(seg) && index == old(index) && words == old(words) && selected == old(selected)
      ensures !old(isEditing) ==> (seg == s && index == WordPage.All && words == ListedWords(allWords, s, WordPage.All)
        && selected == FilterSelect(KeysOf(words, IdOf), old(selected)))
    {
      if isEditing {
        return;
      }
      seg := s;
      index := WordPage.All;
      ApplyFilter();
    }

    /** An index button: ignored while editing; "all" lifts the index filter, any other key sets it. */
    method ChooseIndex(key: string)
      requires Shown()
      modifies this`index, this`words, this`selected
      ensures Shown()
      ensures old(isEditing) ==> index == old(index) && words == old(words) && selected == old(selected)
      ensures !old(isEditing) ==> ((index.All? <==> key == "all") && (index.Button? ==> index.key == Some(key))
        && words == ListedWords(allWords, seg, index) && selected == FilterSelect(KeysOf(words, IdOf), old(selected)))
    {
      if isEditing {
        return;
      }
      index := if key == "all" then WordPage.All else WordPage.Button(Some(key));
      ApplyFilter();
    }

    /** A click on the `k`-th listed word: ignored while editing; otherwise it is selected. */
    method ClickItem(k: nat)
      requires Shown() && k < |words|
      modifies this`selected
      ensures Shown()
      ensures selected == if old(isEditing) then old(selected) else Some(words[k].id)
    {
      if isEditing {
        return;
      }
      selected := Some(words[k].id);
    }

    /** The edit button: with a listed selection, the editor opens on its draft keyword and its lines. */
    method EnterEdit()
      modifies this`isEditing, this`editMode, this`editingId, this`draft
      ensures var w := if old(selected).Some? then Lookup(words, old(selected).value) else None;
        (w.None? ==> isEditing == old(isEditing) && editMode == old(editMode) && editingId == old(editingId) && draft == old(draft))
        && (w.Some? ==> (isEditing && editMode == EditExisting && editingId == Some(w.value.id)
          && draft == Draft(DraftKeyword(w.value.term, w.value.en), Join(w.value.body, "\n"))))
    {
      var w := if selected.Some? then Lookup(words, selected.value) else None;
      if w.None? {
        return;
      }
      isEditing := true;
      editMode := EditExisting;
      editingId := Some(w.value.id);
      draft := Draft(DraftKeyword(w.value.term, w.value.en), Join(w.value.body, "\n"));
    }

    /** The add button: the editor opens empty, bound to no word. */
    method EnterAdd()
      modifies this`isEditing, this`editMode, this`editingId, this`draft
      ensures isEditing && editMode == AddNew && editingId == Some(NewWordId) && draft == Draft("", "")
    {
      isEditing := true;
      editMode := AddNew;
      editingId := Some(NewWordId);
      draft := Draft("", "");
    }

    /** `exitEditMode`: the editor closes and the list is filtered again. */
    method ExitEdit()
      modifies this`isEditing, this`editMode, this`editingId, this`draft, this`words, this`selected
      ensures !isEditing && editMode == EditExisting && editingId.None? && draft == Draft("", "")
      ensures words == ListedWords(allWords, seg, index)
      ensures selected == FilterSelect(KeysOf(words, IdOf), old(selected)) && Shown()
    {
      isEditing := false;
      editMode := EditExisting;
      editingId := None;
      draft := Draft("", "");
      ApplyFilter();
    }

    /** Escape closes the editor; outside it, nothing happens. */
    method PressEscape()
      requires Shown()
      modifies this`isEditing, this`editMode, this`editingId, this`draft, this`words, this`selected
      ensures Shown() && !isEditing
      ensures !old(isEditing) ==> words == old(words) && selected == old(selected) && draft == old(draft)
    {
      if isEditing {
        ExitEdit();
      }
    }

    /** The add branch of the save: the patch of a new word under a fresh local id, and the word appended. */
    method SaveNew(id: string, keyword: string, content: string, updatedAt: string)
      requires Valid() && IsLocal(id) && id !in ItemIds(overrides)
      modifies this`overrides, this`allWords
      ensures Valid()
      ensures overrides == Saved(old(overrides), id, OPatch(Some(true), Some(keyword), Some(content), Some(updatedAt), Some(false)))
      ensures allWords == old(allWords) + [SavedWord(id, keyword, content, updatedAt)]
      ensures Lookup(allWords, id) == Some(SavedWord(id, keyword, content, updatedAt))
      ensures forall x :: x != id ==> Lookup(allWords, x) == Lookup(old(allWords), x)
    {
      var patch := OPatch(Some(true), Some(keyword), Some(content), Some(updatedAt), Some(false));
      AddKeeps(base, overrides, allWords, id, patch);
      assert NewOf(id, patch) == SavedWord(id, keyword, content, updatedAt);
      overrides := Saved(overrides, id, patch);
      allWords := allWords + [SavedWord(id, keyword, content, updatedAt)];
    }

    /** The edit branch of the save: a full patch under the id, and its word replaced where it stands. */
    method SaveEdit(id: string, keyword: string, content: string, updatedAt: string)
      requires Valid() && id in Ids(allWords)
      modifies this`overrides, this`allWords
      ensures Valid()
      ensures overrides == Saved(old(overrides), id, OPatch(None, Some(keyword), Some(content), Some(updatedAt), Some(false)))
      ensures Lookup(allWords, id) == Some(SavedWord(id, keyword, content, updatedAt))
      ensures forall x :: x != id ==> Lookup(allWords, x) == Lookup(old(allWords), x)
    {
      var patch := OPatch(None, Some(keyword), Some(content), Some(updatedAt), Some(false));
      EditKeeps(base, overrides, allWords, id, patch);
      assert NewOf(id, patch) == SavedWord(id, keyword, content, updatedAt);
      overrides := Saved(overrides, id, patch);
      var idx := IndexOfId(allWords, id);
      allWords := allWords[idx := SavedWord(id, keyword, content, updatedAt)];
    }

    /** After a save: the saved word's segment under "all", the word selected, the editor closed. */
    method ShowSaved(w: Word)
      requires Lookup(allWords, w.id) == Some(w)
      modifies this`seg, this`index, this`selected, this`words
      modifies this`isEditing, this`editMode, this`editingId, this`draft
      ensures Shown() && seg == w.seg && index == WordPage.All && selected == Some(w.id) && !isEditing
    {
      seg := w.seg;
      index := WordPage.All;
      selected := Some(w.id);
      ListedUnderAll(allWords, w);
      ExitEdit();
    }

    /**
     * `onSaveInline`: an empty trimmed keyword or term changes nothing. Adding saves a new patch
     * under `local_<now>` and appends the word; editing saves a full patch under the selected id
     * and replaces its word where it stands. Either way the word is that of the keyword, the
     * content and today's label, its segment is shown under "all" with it selected, and the
     * list agrees with what a reload would show.
     */
    method OnSaveInline(keywordText: string, contentText: string, today: JsDate, now: nat) returns (saved: bool)
      requires Valid() && Shown()
      requires editMode.AddNew? ==> "local_" + Calendar.Decimal(now) !in ItemIds(overrides)
      modifies this`overrides, this`allWords, this`seg, this`index, this`selected, this`words
      modifies this`isEditing, this`editMode, this`editingId, this`draft
      ensures Valid() && Shown()
      ensures saved <==> (JsTrim(keywordText) != "" && ParseKeyword(JsTrim(keywordText)).term != ""
        && (old(editMode).AddNew? || (old(selected).Some? && old(selected).value != "")))
      ensures !saved ==> (overrides == old(overrides) && allWords == old(allWords) && words == old(words)
        && selected == old(selected) && isEditing == old(isEditing))
      ensures saved ==>
        var id := if old(editMode).AddNew? then "local_" + Calendar.Decimal(now) else old(selected).value;
        var w := SavedWord(id, JsTrim(keywordText), JsTrim(contentText), FormatYmdDot(today));
        Lookup(allWords, id) == Some(w) && (forall x :: x != id ==> Lookup(allWords, x) == Lookup(old(allWords), x))
        && seg == w.seg && index == WordPage.All && selected == Some(id) && !isEditing
    {
      var keyword := JsTrim(keywordText);
      var content := JsTrim(contentText);
      if keyword == "" {
        return false;
      }
      var parsed := ParseKeyword(keyword);
      if parsed.term == "" {
        return false;
      }
      var updatedAt := FormatYmdDot(today);
      var id: string;
      if editMode.AddNew? {
        id := "local_" + Calendar.Decimal(now);
        assert id[..6] == "local_";
        SaveNew(id, keyword, content, updatedAt);
      } else {
        if selected.None? || selected.value == "" {
          return false;
        }
        id := selected.value;
        ListedInIds(allWords, seg, index, id);
        SaveEdit(id, keyword, content, updatedAt);
      }
      ShowSaved(SavedWord(id, keyword, content, updatedAt));
      saved := true;
    }

    /** `deleteSelected`: ignored while editing or without a listed selection or a confirmation; otherwise the word is marked deleted and dropped. */
    method DeleteSelected(confirmed: bool) returns (deleted: bool)
      requires Valid() && Shown()
      modifies this`overrides, this`allWords, this`words, this`selected
      ensures Valid() && Shown()
      ensures deleted <==> !isEditing && old(selected).Some? && Lookup(old(words), old(selected).value).Some? && confirmed
      ensures !deleted ==> overrides == old(overrides) && allWords == old(allWords) && words == old(words) && selected == old(selected)
      ensures deleted ==>
        var id := old(selected).value;
        overrides == MarkDeleted(old(overrides), id) && allWords == RemoveId(old(allWords), id)
        && Lookup(allWords, id).None? && (forall x :: x != id ==> Lookup(allWords, x) == Lookup(old(allWords), x))
        && words == ListedWords(allWords, seg, index) && selected == FilterSelect(KeysOf(words, IdOf), old(selected))
    {
      if isEditing {
        return false;
      }
      var w := if selected.Some? then Lookup(words, selected.value) else None;
      if w.None? || !confirmed {
        return false;
      }
      var id := w.value.id;
      DeleteKeeps(base, overrides, allWords, id);
      overrides := MarkDeleted(overrides, id);
      allWords := RemoveId(allWords, id);
      ApplyFilter();
      deleted := true;
    }
  }
}
