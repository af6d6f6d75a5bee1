/**
 * What the two economic-term dictionary crawlers share:
 * - the title normaliser and the fuzzy label match;
 * - the term references collected from the dictionary's tab and section listings;
 * - the checkpoint file that lets a crawl resume, held in an insertion-ordered dictionary of
 *   rows keyed by term id;
 * - the bookkeeping of one crawl: what happened to each reference, the failure ledger and
 *   the checkpoint writes.
 * The browser is replaced by inputs: the anchors each listing shows, and the detail texts
 * each attempt observes.
 */
module WordDic {
  import opened Text

  // ---------------------------------------------------------------------------------------
  // _norm and is_keyword_match

  /**
   * `str.lower()` on one character, as far as the normaliser can tell: ASCII capitals, the
   * Kelvin sign (lower-cased to `k`) and the dotted capital I (lower-cased to `i` followed by
   * a combining dot that the normaliser drops). Every other character either has no lower
   * case or lower-cases to a character the normaliser drops as well.
   */
  function NormLower(c: char): char {
    if IsUpper(c) then ToLowerAscii(c)
    else if c == '\U{212A}' then 'k'
    else if c == '\U{0130}' then 'i'
    else c
  }

  /** The characters `_norm` keeps: `[0-9a-z가-힣]`. */
  predicate NormChar(c: char) { IsDigit(c) || IsLower(c) || IsHangul(c) }

  /**
   * `_norm`: lower-case, then drop whitespace, brackets and everything outside `[0-9a-z가-힣]`.
   * Stripping and the first two removals are subsumed by the last one.
   */
  function Norm(s: string): (r: string)
    ensures |r| <= |s|
  {
    if s == [] then []
    else
      var c := NormLower(s[|s| - 1]);
      Norm(s[..|s| - 1]) + (if NormChar(c) then [c] else [])
  }

  /** A kept character is its own lower case. */
  lemma NormLowerKeeps(c: char)
    requires NormChar(c)
    ensures NormLower(c) == c
  {
  }

  /** A text made only of kept characters normalises to itself. */
  lemma {:induction false} NormFixes(s: string)
    requires AllChars(s, NormChar)
    ensures Norm(s) == s
  {
    if s != [] {
      var n := |s| - 1;
      assert AllChars(s[..n], NormChar) by {
        forall i | 0 <= i < n ensures NormChar(s[..n][i]) { assert s[..n][i] == s[i]; }
      }
      NormFixes(s[..n]);
      NormLowerKeeps(s[n]);
      assert s == s[..n] + [s[n]];
    }
  }

  /** The normalised text holds only digits, lower-case ASCII letters and Hangul syllables, and normalising twice changes nothing. */
  lemma {:induction false} NormProperties(s: string)
    ensures AllChars(Norm(s), NormChar)
    ensures Norm(Norm(s)) == Norm(s)
  {
    if s != [] {
      NormProperties(s[..|s| - 1]);
    }
    NormFixes(Norm(s));
  }

  lemma NormHasNoBar(s: string)
    ensures '|' !in Norm(s)
  {
    NormProperties(s);
  }

  /** In a text without `|` followed by something starting with `|`, the first `|` is where the text ends. */
  lemma FirstBarAt(a: string, x: string)
    requires '|' !in a && x != [] && x[0] == '|'
    ensures FirstIndex(a + x, '|') == |a|
  {
    assert (a + x)[|a|] == '|';
    assert forall j :: 0 <= j < |a| ==> (a + x)[j] == a[j];
  }

  /** Two texts split at their first `|` the same way when neither head holds one. */
  lemma SplitAtFirstBar(a: string, x: string, b: string, y: string)
    requires '|' !in a && '|' !in b && x != [] && x[0] == '|' && y != [] && y[0] == '|'
    requires a + x == b + y
    ensures a == b && x == y
  {
    FirstBarAt(a, x);
    FirstBarAt(b, y);
    assert a == (a + x)[..|a|] && b == (b + y)[..|b|];
    assert x == (a + x)[|a|..] && y == (b + y)[|b|..];
  }

  /** `s[:n]`: the first `n` characters, or all of `s` when it is shorter. */
  function Prefix(s: string, n: nat): (r: string)
    ensures |r| <= n && |r| <= |s| && r == s[..|r|]
    ensures |s| >= n ==> |r| == n
    ensures |s| < n ==> r == s
  {
    if |s| <= n then s else s[..n]
  }

  /**
   * `is_keyword_match`: on the normalised texts, no match when either is empty, a match when
   * one contains the other, else the first six characters when both have six, else the
   * first three.
   */
  predicate IsKeywordMatch(expected: string, dt: string) {
    var a, b := Norm(expected), Norm(dt);
    if a == "" || b == "" then false
    else if Contains(b, a) || Contains(a, b) then true
    else if |a| >= 6 && |b| >= 6 then a[..6] == b[..6]
    else Prefix(a, 3) == Prefix(b, 3)
  }

  lemma ContainsSelf(s: string)
    ensures Contains(s, s)
  {
    assert ContainsAt(s, s, 0);
  }

  /**
   * The match is symmetric; an empty normalised side never matches; containment of one
   * normalised side in the other matches, equal non-empty ones in particular; otherwise six
   * leading characters decide when both sides have six, and three when not.
   */
  lemma KeywordMatchProperties(expected: string, dt: string)
    ensures IsKeywordMatch(expected, dt) <==> IsKeywordMatch(dt, expected)
    ensures Norm(expected) == "" || Norm(dt) == "" ==> !IsKeywordMatch(expected, dt)
    ensures Norm(expected) != "" && Norm(dt) != "" && (Contains(Norm(dt), Norm(expected)) || Contains(Norm(expected), Norm(dt)))
            ==> IsKeywordMatch(expected, dt)
    ensures Norm(expected) == Norm(dt) != "" ==> IsKeywordMatch(expected, dt)
    ensures var a, b := Norm(expected), Norm(dt);
            a != "" && b != "" && !Contains(b, a) && !Contains(a, b) ==>
              (IsKeywordMatch(expected, dt) <==> if |a| >= 6 && |b| >= 6 then a[..6] == b[..6] else Prefix(a, 3) == Prefix(b, 3))
  {
    ContainsSelf(Norm(dt));
  }

  // ---------------------------------------------------------------------------------------
  // collect_term_refs

  /** A listing anchor: its `onclick` attribute and its text, either possibly absent. */
  datatype Anchor = Anchor(onclick: Option<string>, text: Option<string>)

  datatype TermRef = TermRef(termId: string, tab: string, section: string, labelText: string)

  /** The Korean sections: all terms, then the fourteen basic initial consonants ㄱ to ㅎ. */
  const KorSections: seq<string> := ["", "\U{3131}", "\U{3134}", "\U{3137}", "\U{3139}", "\U{3141}", "\U{3142}", "\U{3145}",
                                     "\U{3147}", "\U{3148}", "\U{314A}", "\U{314B}", "\U{314C}", "\U{314D}", "\U{314E}"]
  /** The English sections: all terms, then A to Z. */
  const EngSections: seq<string> := [""] + seq(26, i requires 0 <= i < 26 => [('A' as int + i) as char])
  /** The number sections: all terms, then 0 to 9. */
  const NumSections: seq<string> := [""] + seq(10, i requires 0 <= i < 10 => [('0' as int + i) as char])

  /** `TAB_SECTIONS`, in its iteration order. */
  const TabSections: seq<(string, seq<string>)> := [("KOR", KorSections), ("ENG", EngSections), ("NUM", NumSections)]

  /** The text before the first apostrophe, or all of it when there is none. */
  function BeforeQuote(t: string): (r: string)
    ensures '\'' !in r && |r| <= |t| && r == t[..|r|]
    ensures |r| < |t| ==> t[|r|] == '\''
  {
    if t == [] || t[0] == '\'' then [] else [t[0]] + BeforeQuote(t[1..])
  }

  /**
   * The term id in an `onclick` such as `getdetail(this,'12345')`: None unless it mentions
   * `getdetail` and has an apostrophe, else the second piece of splitting at apostrophes.
   */
  function OnclickTermId(onclick: Option<string>): Option<string> {
    var s := if onclick.Some? then onclick.value else "";
    if !Contains(s, "getdetail") || '\'' !in s then None
    else Some(BeforeQuote(s[FirstIndex(s, '\'') + 1..]))
  }

  /**
   * An id is found exactly when the attribute mentions `getdetail` and has an apostrophe,
   * and it is the text between the first apostrophe and the next one (or the end).
   */
  lemma OnclickTermIdBetweenQuotes(onclick: string)
    ensures OnclickTermId(Some(onclick)).Some? <==> Contains(onclick, "getdetail") && '\'' in onclick
    ensures OnclickTermId(Some(onclick)).Some? ==>
      var id := OnclickTermId(Some(onclick)).value;
      '\'' !in id &&
      exists i :: 0 <= i && i + 1 + |id| <= |onclick| && '\'' !in onclick[..i] && onclick[i] == '\''
        && onclick[i + 1..i + 1 + |id|] == id && (i + 1 + |id| == |onclick| || onclick[i + 1 + |id|] == '\'')
  {
    if OnclickTermId(Some(onclick)).Some? {
      var i := FirstIndex(onclick, '\'');
      var id := OnclickTermId(Some(onclick)).value;
      var t := onclick[i + 1..];
      assert id == t[..|id|];
      assert onclick[i + 1..i + 1 + |id|] == id;
    }
  }

  /** The reference an anchor yields in a section, if its `onclick` holds a non-empty id. */
  function AnchorRef(tab: string, section: string, a: Anchor): Option<TermRef> {
    var id := OnclickTermId(a.onclick);
    if id.Some? && id.value != "" then
      Some(TermRef(id.value, tab, section, PyStrip(if a.text.Some? then a.text.value else "")))
    else None
  }

  /** The references a section's anchors yield, in listing order. */
  function SectionRefs(tab: string, section: string, anchors: seq<Anchor>): seq<TermRef> {
    if anchors == [] then []
    else
      var n := |anchors| - 1;
      var r := AnchorRef(tab, section, anchors[n]);
      SectionRefs(tab, section, anchors[..n]) + (if r.Some? then [r.value] else [])
  }

  /** The references a tab's sections yield, section after section. */
  function TabRefs(tab: string, sections: seq<string>, anchorsOf: (string, string) -> seq<Anchor>): seq<TermRef> {
    if sections == [] then []
    else
      var n := |sections| - 1;
      TabRefs(tab, sections[..n], anchorsOf) + SectionRefs(tab, sections[n], anchorsOf(tab, sections[n]))
  }

  /** All references the listings yield, tab after tab. `anchorsOf` is what a (tab, section) listing shows. */
  function ListedRefs(tabs: seq<(string, seq<string>)>, anchorsOf: (string, string) -> seq<Anchor>): seq<TermRef> {
    if tabs == [] then []
    else
      var n := |tabs| - 1;
      ListedRefs(tabs[..n], anchorsOf) + TabRefs(tabs[n].0, tabs[n].1, anchorsOf)
  }

  function IdsOf(refs: seq<TermRef>): (r: seq<string>)
    ensures |r| == |refs| && forall k :: 0 <= k < |refs| ==> r[k] == refs[k].termId
  {
    seq(|refs|, k requires 0 <= k < |refs| => refs[k].termId)
  }

  /** The first reference for each term id, in the order the ids first appear. */
  function FirstPerId(refs: seq<TermRef>): seq<TermRef> {
    if refs == [] then []
    else
      var n := |refs| - 1;
      var kept := FirstPerId(refs[..n]);
      if refs[n].termId in IdsOf(kept) then kept else kept + [refs[n]]
  }

  /** The kept ids are the listed ids de-duplicated, in order of first appearance. */
  lemma {:induction false} FirstPerIdIds(refs: seq<TermRef>)
    ensures IdsOf(FirstPerId(refs)) == Dedup(IdsOf(refs))
  {
    if refs != [] {
      var n := |refs| - 1;
      var init := refs[..n];
      FirstPerIdIds(init);
      var kept := FirstPerId(init);
      assert IdsOf(refs)[..n] == IdsOf(init);
      if refs[n].termId !in IdsOf(kept) {
        assert IdsOf(kept + [refs[n]]) == IdsOf(kept) + [refs[n].termId];
      }
    }
  }

  /** The reference kept for an id is the first one listed with it. */
  lemma {:induction false} FirstPerIdFirst(refs: seq<TermRef>)
    ensures forall k :: 0 <= k < |FirstPerId(refs)| ==>
      FirstPerId(refs)[k].termId in IdsOf(refs) && FirstPerId(refs)[k] == refs[FirstIndex(IdsOf(refs), FirstPerId(refs)[k].termId)]
  {
    if refs != [] {
      var n := |refs| - 1;
      var init := refs[..n];
      FirstPerIdFirst(init);
      var kept := FirstPerId(init);
      var ids := IdsOf(refs);
      assert ids[..n] == IdsOf(init);
      forall k | 0 <= k < |kept|
        ensures kept[k].termId in ids && kept[k] == refs[FirstIndex(ids, kept[k].termId)]
      {
        FirstIndexOfPrefix(ids, n, kept[k].termId);
      }
      if refs[n].termId !in IdsOf(kept) {
        FirstPerIdIds(init);
        DedupProperties(IdsOf(init));
        var id := refs[n].termId;
        assert id !in ids[..n];
        var i := FirstIndex(ids, id);
        assert i == n;
        var r := kept + [refs[n]];
        forall k | 0 <= k < |r| ensures r[k].termId in ids && r[k] == refs[FirstIndex(ids, r[k].termId)] {
          if k < |kept| { assert r[k] == kept[k]; }
        }
      }
    }
  }

  /**
   * The collected references have distinct ids; every listed id is among them; and each is
   * the first reference listed with its id.
   */
  lemma CollectedRefsProperties(anchorsOf: (string, string) -> seq<Anchor>)
    ensures var listed, refs := ListedRefs(TabSections, anchorsOf), FirstPerId(ListedRefs(TabSections, anchorsOf));
      (forall i, j :: 0 <= i < j < |refs| ==> refs[i].termId != refs[j].termId)
      && (forall id :: id in IdsOf(refs) <==> id in IdsOf(listed))
      && (forall k :: 0 <= k < |refs| ==> refs[k].termId in IdsOf(listed) && refs[k] == listed[FirstIndex(IdsOf(listed), refs[k].termId)])
  {
    var listed := ListedRefs(TabSections, anchorsOf);
    var refs := FirstPerId(listed);
    FirstPerIdIds(listed);
    FirstPerIdFirst(listed);
    DedupProperties(IdsOf(listed));
    forall i, j | 0 <= i < j < |refs| ensures refs[i].termId != refs[j].termId {
      assert IdsOf(refs)[i] == refs[i].termId && IdsOf(refs)[j] == refs[j].termId;
    }
  }

  /** Listing one more anchor of a section appends its reference, if it has one. */
  lemma SectionRefsStep(listed: seq<TermRef>, tab: string, section: string, anchors: seq<Anchor>, k: nat)
    requires k < |anchors|
    ensures var r := AnchorRef(tab, section, anchors[k]);
      listed + SectionRefs(tab, section, anchors[..k + 1])
      == listed + SectionRefs(tab, section, anchors[..k]) + (if r.Some? then [r.value] else [])
  {
    assert anchors[..k + 1][..k] == anchors[..k];
  }

  /** Listing one more section of a tab appends that section's references. */
  lemma TabRefsStep(listed: seq<TermRef>, tab: string, sections: seq<string>, anchorsOf: (string, string) -> seq<Anchor>, s: nat)
    requires s < |sections|
    ensures listed + TabRefs(tab, sections[..s + 1], anchorsOf)
      == listed + TabRefs(tab, sections[..s], anchorsOf) + SectionRefs(tab, sections[s], anchorsOf(tab, sections[s]))
  {
    assert sections[..s + 1][..s] == sections[..s];
  }

  /** Listing one more tab appends that tab's references. */
  lemma ListedRefsStep(tabs: seq<(string, seq<string>)>, anchorsOf: (string, string) -> seq<Anchor>, t: nat)
    requires t < |tabs|
    ensures ListedRefs(tabs[..t + 1], anchorsOf) == ListedRefs(tabs[..t], anchorsOf) + TabRefs(tabs[t].0, tabs[t].1, anchorsOf)
  {
    assert tabs[..t + 1][..t] == tabs[..t];
  }

  /** Keeping first references one at a time: a repeated id is dropped, a new one appended. */
  lemma FirstPerIdStep(xs: seq<TermRef>, x: TermRef)
    ensures FirstPerId(xs + [x]) == (if x.termId in IdsOf(FirstPerId(xs)) then FirstPerId(xs) else FirstPerId(xs) + [x])
    ensures IdsOf(FirstPerId(xs) + [x]) == IdsOf(FirstPerId(xs)) + [x.termId]
  {
    assert (xs + [x])[..|xs|] == xs;
  }

  /** One section: its anchors in page order. */
  method ScanAnchors(refs: seq<TermRef>, ids: set<string>, tab: string, section: string, anchors: seq<Anchor>, ghost listed: seq<TermRef>)
    returns (refs': seq<TermRef>, ids': set<string>)
    requires refs == FirstPerId(listed) && forall id :: id in ids <==> id in IdsOf(refs)
    ensures refs' == FirstPerId(listed + SectionRefs(tab, section, anchors))
    ensures forall id :: id in ids' <==> id in IdsOf(refs')
  {
    refs', ids' := refs, ids;
    assert listed + SectionRefs(tab, section, anchors[..0]) == listed;
    for k := 0 to |anchors|
      invariant refs' == FirstPerId(listed + SectionRefs(tab, section, anchors[..k]))
      invariant forall id :: id in ids' <==> id in IdsOf(refs')
    {
      ghost var before := listed + SectionRefs(tab, section, anchors[..k]);
      SectionRefsStep(listed, tab, section, anchors, k);
      var r := AnchorRef(tab, section, anchors[k]);
      if r.Some? {
        FirstPerIdStep(before, r.value);
        if r.value.termId !in ids' {
          refs' := refs' + [r.value];
          ids' := ids' + {r.value.termId};
        }
      } else {
        assert before + [] == before;
      }
    }
    assert anchors[..|anchors|] == anchors;
  }

  /** One tab: each of its sections in turn. */
  method ScanTab(refs: seq<TermRef>, ids: set<string>, tab: string, sections: seq<string>,
                 anchorsOf: (string, string) -> seq<Anchor>, ghost listed: seq<TermRef>)
    returns (refs': seq<TermRef>, ids': set<string>)
    requires refs == FirstPerId(listed) && forall id :: id in ids <==> id in IdsOf(refs)
    ensures refs' == FirstPerId(listed + TabRefs(tab, sections, anchorsOf))
    ensures forall id :: id in ids' <==> id in IdsOf(refs')
  {
    refs', ids' := refs, ids;
    assert listed + TabRefs(tab, sections[..0], anchorsOf) == listed;
    for s := 0 to |sections|
      invariant refs' == FirstPerId(listed + TabRefs(tab, sections[..s], anchorsOf))
      invariant forall id :: id in ids' <==> id in IdsOf(refs')
    {
      var sec := sections[s];
      ghost var before := listed + TabRefs(tab, sections[..s], anchorsOf);
      refs', ids' := ScanAnchors(refs', ids', tab, sec, anchorsOf(tab, sec), before);
      TabRefsStep(listed, tab, sections, anchorsOf, s);
    }
    assert sections[..|sections|] == sections;
  }

  /**
   * `collect_term_refs`: every section of every tab in turn, keeping the first reference
   * per term id. `anchorsOf(tab, section)` is what that listing shows.
   */
  method CollectTermRefs(anchorsOf: (string, string) -> seq<Anchor>) returns (refs: seq<TermRef>)
    ensures refs == FirstPerId(ListedRefs(TabSections, anchorsOf))
  {
    refs := [];
    var ids: set<string> := {};
    for t := 0 to |TabSections|
      invariant refs == FirstPerId(ListedRefs(TabSections[..t], anchorsOf))
      invariant forall id :: id in ids <==> id in IdsOf(refs)
    {
      var (tab, sections) := TabSections[t];
      refs, ids := ScanTab(refs, ids, tab, sections, anchorsOf, ListedRefs(TabSections[..t], anchorsOf));
      ListedRefsStep(TabSections, anchorsOf, t);
    }
    assert TabSections[..|TabSections|] == TabSections;
  }

  // ---------------------------------------------------------------------------------------
  // Rows and the insertion-ordered dictionary that holds them

  /** A saved term: the detail title as keyword, the detail body as content. */
  datatype Row = Row(termId: string, keyword: string, content: string, tab: string, section: string)

  /** A Python `dict` from term id to row: the keys in insertion order and the entries. */
  datatype Dict = Dict(keys: seq<string>, vals: map<string, Row>)

  const EmptyDict := Dict([], map[])

  ghost predicate DictValid(d: Dict) {
    (forall i, j :: 0 <= i < j < |d.keys| ==> d.keys[i] != d.keys[j])
    && (forall k :: k in d.vals <==> k in d.keys)
  }

  /** Every row is stored under its own term id. */
  ghost predicate KeyedByTermId(d: Dict) {
    forall k :: k in d.vals ==> d.vals[k].termId == k
  }

  /** `d[k] = v`: a new key goes last, an existing one keeps its place. */
  function Put(d: Dict, k: string, v: Row): (r: Dict)
    ensures DictValid(d) ==> DictValid(r)
    ensures r.vals == d.vals[k := v]
  {
    if k in d.vals then Dict(d.keys, d.vals[k := v]) else Dict(d.keys + [k], d.vals[k := v])
  }

  /** `list(d.values())`. */
  function Values(d: Dict): (r: seq<Row>)
    requires DictValid(d)
    ensures |r| == |d.keys|
  {
    seq(|d.keys|, i requires 0 <= i < |d.keys| => d.vals[d.keys[i]])
  }

  /** Storing under a new key appends its value; under an existing key, replaces it in place. */
  lemma PutValues(d: Dict, k: string, v: Row)
    requires DictValid(d)
    ensures k !in d.vals ==> Values(Put(d, k, v)) == Values(d) + [v]
    ensures k in d.vals ==> (|Values(Put(d, k, v))| == |Values(d)|
      && forall i :: 0 <= i < |d.keys| ==> Values(Put(d, k, v))[i] == if d.keys[i] == k then v else Values(d)[i])
  {
  }

  // ---------------------------------------------------------------------------------------
  // load_checkpoint

  /** An element of the checkpoint's JSON list: an object (read as a row) or anything else. */
  datatype StoredRow = Object(row: Row) | NotAnObject

  /** The checkpoint file: absent, not JSON, or a JSON list. */
  datatype CheckpointFile = Missing | Unparsable | Parsed(items: seq<StoredRow>)

  /** The loop over the list: None when an element has no `get` and the loop raises. */
  function LoadItems(items: seq<StoredRow>): (r: Option<Dict>)
    ensures r.Some? ==> DictValid(r.value) && KeyedByTermId(r.value)
  {
    if items == [] then Some(EmptyDict)
    else
      var n := |items| - 1;
      var before := LoadItems(items[..n]);
      if before.None? || items[n].NotAnObject? then None
      else if items[n].row.termId != "" then Some(Put(before.value, items[n].row.termId, items[n].row))
      else before
  }

  /** `load_checkpoint`: the rows by term id, or an empty dictionary when the file cannot be used. */
  function LoadedCheckpoint(file: CheckpointFile): (d: Dict)
    ensures DictValid(d) && KeyedByTermId(d)
  {
    if file.Parsed? && LoadItems(file.items).Some? then LoadItems(file.items).value else EmptyDict
  }

  /** `load_checkpoint` as the loop it is. */
  method LoadCheckpoint(file: CheckpointFile) returns (out: Dict)
    ensures out == LoadedCheckpoint(file)
  {
    if !file.Parsed? {
      return EmptyDict;
    }
    var items := file.items;
    out := EmptyDict;
    for i := 0 to |items|
      invariant LoadItems(items[..i]) == Some(out)
    {
      assert items[..i + 1][..i] == items[..i];
      if items[i].NotAnObject? {
        LoadItemsFailsAt(items, i);
        return EmptyDict;
      }
      var tid := items[i].row.termId;
      if tid != "" {
        out := Put(out, tid, items[i].row);
      }
    }
    assert items[..|items|] == items;
  }

  /** The `term_id` of each element, empty for one that is not an object. */
  function StoredIds(items: seq<StoredRow>): (r: seq<string>)
    ensures |r| == |items| && forall i :: 0 <= i < |items| ==> r[i] == if items[i].Object? then items[i].row.termId else ""
  {
    seq(|items|, i requires 0 <= i < |items| => if items[i].Object? then items[i].row.termId else "")
  }

  /** With every element an object, the keys are exactly the non-empty ids. */
  lemma {:induction false} LoadItemsKeys(items: seq<StoredRow>)
    requires forall i :: 0 <= i < |items| ==> items[i].Object?
    ensures LoadItems(items).Some?
    ensures forall k :: k in LoadItems(items).value.vals <==> k != "" && k in StoredIds(items)
  {
    if items != [] {
      var n := |items| - 1;
      LoadItemsKeys(items[..n]);
      assert StoredIds(items) == StoredIds(items[..n]) + [items[n].row.termId];
    }
  }

  /** With every element an object, loading succeeds. */
  lemma {:induction false} LoadItemsObjects(items: seq<StoredRow>)
    requires forall i :: 0 <= i < |items| ==> items[i].Object?
    ensures LoadItems(items).Some?
  {
    if items != [] {
      LoadItemsObjects(items[..|items| - 1]);
    }
  }

  /** With every element an object, the row kept for an id is the last row carrying it. */
  lemma {:induction false} LoadItemsLastWins(items: seq<StoredRow>, i: nat)
    requires forall j :: 0 <= j < |items| ==> items[j].Object?
    requires i < |items| && items[i].row.termId != ""
    requires forall j :: i < j < |items| ==> items[j].row.termId != items[i].row.termId
    ensures LoadItems(items).Some? && items[i].row.termId in LoadItems(items).value.vals
    ensures LoadItems(items).value.vals[items[i].row.termId] == items[i].row
  {
    var n := |items| - 1;
    LoadItemsObjects(items);
    if i < n {
      LoadItemsLastWins(items[..n], i);
    }
  }

  lemma LoadedCheckpointEmpty(file: CheckpointFile)
    ensures file.Missing? || file.Unparsable? ==> LoadedCheckpoint(file) == EmptyDict
    ensures file.Parsed? && (exists i :: 0 <= i < |file.items| && file.items[i].NotAnObject?) ==> LoadedCheckpoint(file) == EmptyDict
  {
    if file.Parsed? && exists i :: 0 <= i < |file.items| && file.items[i].NotAnObject? {
      var i :| 0 <= i < |file.items| && file.items[i].NotAnObject?;
      LoadItemsFailsAt(file.items, i);
    }
  }

  lemma {:induction false} LoadItemsFailsAt(items: seq<StoredRow>, i: nat)
    requires i < |items| && items[i].NotAnObject?
    ensures LoadItems(items).None?
  {
    var n := |items| - 1;
    if i < n {
      LoadItemsFailsAt(items[..n], i);
    }
  }

  // ---------------------------------------------------------------------------------------
  // The bookkeeping of a crawl

  /** Python's `xs[:n]`, a negative `n` counting from the end. */
  function PyTake<T>(xs: seq<T>, n: int): (r: seq<T>)
    ensures 0 <= n ==> r == xs[..if n <= |xs| then n else |xs|]
    ensures n < 0 ==> r == xs[..if |xs| + n >= 0 then |xs| + n else 0]
  {
    if n >= 0 then (if n <= |xs| then xs[..n] else xs)
    else if |xs| + n >= 0 then xs[..|xs| + n] else []
  }

  /** `total`: all references without a limit, else `min(limit, len(refs))`. */
  function CrawlTotal(limit: Option<int>, n: nat): int {
    if limit.None? then n else if limit.value < n then limit.value else n
  }

  /** The references a crawl considers: `refs[:total]`. Without a limit, or with a non-negative one, a prefix of at most `limit` of them. */
  lemma ConsideredRefs<T>(refs: seq<T>, limit: Option<int>)
    ensures limit.None? ==> PyTake(refs, CrawlTotal(limit, |refs|)) == refs
    ensures limit.Some? && limit.value >= 0 ==>
      var r := PyTake(refs, CrawlTotal(limit, |refs|));
      |r| == (if limit.value < |refs| then limit.value else |refs|) && r == refs[..|r|]
  {
  }

  /** Why the last attempt for a reference failed: nothing raised, the wait timed out, or the title did not match. */
  datatype FailCause = NoError | TimedOut | IntegrityFail(labelText: string, dt: string)

  /** An entry of the failure ledger. */
  datatype Failure = Failure(termId: string, tab: string, section: string, labelText: string, error: FailCause)

  /** What became of one considered reference, with the number of attempts it took. */
  datatype RefLog = Skipped | Saved(row: Row, attempts: nat) | Failed(failure: Failure, attempts: nat)

  /** One checkpoint write: the success count at that moment and the rows written. */
  datatype Save = Save(done: nat, rows: seq<Row>)

  /** The detail texts an attempt observes, stripped. */
  datatype Detail = Detail(dt: string, dd: string)

  /** The rows saved, in order. */
  function SavedRows(log: seq<RefLog>): seq<Row> {
    if log == [] then []
    else SavedRows(log[..|log| - 1]) + (if log[|log| - 1].Saved? then [log[|log| - 1].row] else [])
  }

  function SavedIds(log: seq<RefLog>): set<string> {
    set r | r in SavedRows(log) :: r.termId
  }

  /** The failure ledger, in order. */
  function FailuresOf(log: seq<RefLog>): seq<Failure> {
    if log == [] then []
    else FailuresOf(log[..|log| - 1]) + (if log[|log| - 1].Failed? then [log[|log| - 1].failure] else [])
  }

  function SkippedCount(log: seq<RefLog>): nat {
    if log == [] then 0
    else SkippedCount(log[..|log| - 1]) + (if log[|log| - 1].Skipped? then 1 else 0)
  }

  /**
   * What may become of `ref` after the entries `before`: it is skipped exactly when its id
   * was in the checkpoint or saved earlier; a saved row carries its id, tab and section; a
   * failure carries its id, tab, section and label.
   */
  ghost predicate EntryFits(ref: TermRef, ckpt: Dict, before: seq<RefLog>, e: RefLog) {
    (e.Skipped? <==> ref.termId in ckpt.vals || ref.termId in SavedIds(before))
    && (e.Saved? ==> e.row.termId == ref.termId && e.row.tab == ref.tab && e.row.section == ref.section)
    && (e.Failed? ==> e.failure.termId == ref.termId && e.failure.tab == ref.tab
                      && e.failure.section == ref.section && e.failure.labelText == ref.labelText)
  }

  /** The log describes the first `|log|` references. */
  ghost predicate LogFits(refs: seq<TermRef>, ckpt: Dict, log: seq<RefLog>) {
    |log| <= |refs| && forall i :: 0 <= i < |log| ==> EntryFits(refs[i], ckpt, log[..i], log[i])
  }

  /**
   * The cadence test `done_count > 0 and done_count % checkpoint_every == 0`. With
   * `checkpoint_every` 0 the remainder raises ZeroDivisionError as soon as the count is positive.
   */
  predicate CadenceRaises(done: nat, every: int) {
    done > 0 && every == 0
  }

  predicate CheckpointDue(done: nat, every: int) {
    done > 0 && every != 0 && done % every == 0
  }

  /** The checkpoint writes during the loop: after a reference that was not skipped, when the success count is a positive multiple of `every`. */
  function CheckpointSaves(ckpt: Dict, log: seq<RefLog>, every: int): seq<Save>
    requires DictValid(ckpt)
  {
    if log == [] then []
    else
      var n := |log| - 1;
      var before := CheckpointSaves(ckpt, log[..n], every);
      var done := |SavedRows(log)|;
      if !log[n].Skipped? && CheckpointDue(done, every) then before + [Save(done, Values(ckpt) + SavedRows(log))]
      else before
  }

  /** How the log's summaries grow by one entry. */
  lemma LogAppend(log: seq<RefLog>, e: RefLog)
    ensures SavedRows(log + [e]) == SavedRows(log) + (if e.Saved? then [e.row] else [])
    ensures SavedIds(log + [e]) == SavedIds(log) + (if e.Saved? then {e.row.termId} else {})
    ensures FailuresOf(log + [e]) == FailuresOf(log) + (if e.Failed? then [e.failure] else [])
    ensures SkippedCount(log + [e]) == SkippedCount(log) + (if e.Skipped? then 1 else 0)
  {
    assert (log + [e])[..|log|] == log;
  }

  /** How the checkpoint writes grow by one entry. */
  lemma SavesAppend(ckpt: Dict, log: seq<RefLog>, e: RefLog, every: int)
    requires DictValid(ckpt)
    ensures var done := |SavedRows(log + [e])|;
      CheckpointSaves(ckpt, log + [e], every) ==
        CheckpointSaves(ckpt, log, every)
        + (if !e.Skipped? && CheckpointDue(done, every) then [Save(done, Values(ckpt) + SavedRows(log + [e]))] else [])
  {
    assert (log + [e])[..|log|] == log;
  }

  /** Appending an entry that fits the next reference keeps the log fitting. */
  lemma LogFitsAppend(refs: seq<TermRef>, ckpt: Dict, log: seq<RefLog>, e: RefLog)
    requires LogFits(refs, ckpt, log) && |log| < |refs|
    requires EntryFits(refs[|log|], ckpt, log, e)
    ensures LogFits(refs, ckpt, log + [e])
  {
    var log' := log + [e];
    forall i | 0 <= i < |log'| ensures EntryFits(refs[i], ckpt, log'[..i], log'[i]) {
      if i < |log| {
        assert log'[..i] == log[..i];
      } else {
        assert log'[..i] == log;
      }
    }
  }

  lemma {:induction false} SavedRowsPrefix(log: seq<RefLog>, n: nat)
    requires n <= |log|
    ensures |SavedRows(log[..n])| <= |SavedRows(log)|
    ensures SavedRows(log[..n]) == SavedRows(log)[..|SavedRows(log[..n])|]
  {
    if n < |log| {
      var m := |log| - 1;
      assert log[..m][..n] == log[..n];
      SavedRowsPrefix(log[..m], n);
    } else {
      assert log[..n] == log;
    }
  }

  /**
   * Each checkpoint write inside the loop comes at a positive multiple of `every` successes
   * and writes the checkpoint's rows followed by the rows saved so far: a prefix of the final
   * rows. The success counts of the writes never decrease.
   */
  lemma {:induction false} CheckpointSavesProperties(ckpt: Dict, log: seq<RefLog>, every: int)
    requires DictValid(ckpt)
    ensures var saves, all := CheckpointSaves(ckpt, log, every), Values(ckpt) + SavedRows(log);
      (forall k :: 0 <= k < |saves| ==>
        saves[k].done > 0 && every != 0 && saves[k].done % every == 0 && saves[k].done <= |SavedRows(log)|
        && saves[k].rows == all[..|Values(ckpt)| + saves[k].done])
      && (forall k, l :: 0 <= k < l < |saves| ==> saves[k].done <= saves[l].done)
  {
    if log != [] {
      var n := |log| - 1;
      CheckpointSavesProperties(ckpt, log[..n], every);
      SavedRowsPrefix(log, n);
      assert log == log[..n] + [log[n]];
      LogAppend(log[..n], log[n]);
      SavesAppend(ckpt, log[..n], log[n], every);
      var all := Values(ckpt) + SavedRows(log);
      var allBefore := Values(ckpt) + SavedRows(log[..n]);
      assert allBefore == all[..|allBefore|];
      var before := CheckpointSaves(ckpt, log[..n], every);
      forall k | 0 <= k < |before|
        ensures before[k].rows == all[..|Values(ckpt)| + before[k].done]
      {
        assert allBefore[..|Values(ckpt)| + before[k].done] == all[..|Values(ckpt)| + before[k].done];
      }
      assert all[..|Values(ckpt)| + |SavedRows(log)|] == all;
    }
  }

  /** The log of a prefix of the references fits that prefix. */
  lemma LogFitsPrefix(refs: seq<TermRef>, ckpt: Dict, log: seq<RefLog>, n: nat)
    requires LogFits(refs, ckpt, log) && n <= |log|
    ensures LogFits(refs, ckpt, log[..n])
  {
    forall i | 0 <= i < n ensures EntryFits(refs[i], ckpt, log[..n][..i], log[..n][i]) {
      assert log[..n][..i] == log[..i];
    }
  }

  /** Every considered reference is skipped, saved or failed, once: the three counts add up. */
  lemma {:induction false} LogCounts(log: seq<RefLog>)
    ensures SkippedCount(log) + |SavedRows(log)| + |FailuresOf(log)| == |log|
  {
    if log != [] {
      LogCounts(log[..|log| - 1]);
    }
  }

  /** Every considered id ends up in the checkpoint, among the saved rows, or in the failure ledger. */
  lemma {:induction false} LogCovers(refs: seq<TermRef>, ckpt: Dict, log: seq<RefLog>)
    requires LogFits(refs, ckpt, log)
    ensures forall i :: 0 <= i < |log| ==> (refs[i].termId in ckpt.vals || refs[i].termId in SavedIds(log)
              || exists f :: f in FailuresOf(log) && f.termId == refs[i].termId)
  {
    if log != [] {
      var n := |log| - 1;
      LogFitsPrefix(refs, ckpt, log, n);
      LogCovers(refs, ckpt, log[..n]);
      assert log == log[..n] + [log[n]];
      LogAppend(log[..n], log[n]);
      if log[n].Failed? {
        assert log[n].failure in FailuresOf(log);
      }
      forall i | 0 <= i < n
        ensures refs[i].termId in ckpt.vals || refs[i].termId in SavedIds(log)
                || exists f :: f in FailuresOf(log) && f.termId == refs[i].termId
      {
        if !(refs[i].termId in ckpt.vals || refs[i].termId in SavedIds(log[..n])) {
          var f :| f in FailuresOf(log[..n]) && f.termId == refs[i].termId;
          assert f in FailuresOf(log);
        }
      }
    }
  }

  /** No id is saved twice, and none that the checkpoint already held. */
  lemma {:induction false} SavedIdsFresh(refs: seq<TermRef>, ckpt: Dict, log: seq<RefLog>)
    requires LogFits(refs, ckpt, log)
    ensures forall i, j :: 0 <= i < j < |SavedRows(log)| ==> SavedRows(log)[i].termId != SavedRows(log)[j].termId
    ensures forall r :: r in SavedRows(log) ==> r.termId !in ckpt.vals
  {
    if log != [] {
      var n := |log| - 1;
      LogFitsPrefix(refs, ckpt, log, n);
      SavedIdsFresh(refs, ckpt, log[..n]);
      assert log == log[..n] + [log[n]];
      LogAppend(log[..n], log[n]);
      assert EntryFits(refs[n], ckpt, log[..n], log[n]);
      if log[n].Saved? {
        var r := log[n].row;
        assert r.termId !in SavedIds(log[..n]);
        forall i | 0 <= i < |SavedRows(log[..n])| ensures SavedRows(log[..n])[i].termId != r.termId {
          assert SavedRows(log[..n])[i] in SavedRows(log[..n]);
        }
      }
    }
  }

  /**
   * The rows a crawl returns, the checkpoint's followed by the saved ones, have distinct
   * term ids, each row under its own id as a dictionary would hold them.
   */
  lemma FinalRowsDistinct(refs: seq<TermRef>, ckpt: Dict, log: seq<RefLog>)
    requires LogFits(refs, ckpt, log) && DictValid(ckpt) && KeyedByTermId(ckpt)
    ensures var all := Values(ckpt) + SavedRows(log);
      forall i, j :: 0 <= i < j < |all| ==> all[i].termId != all[j].termId
  {
    SavedIdsFresh(refs, ckpt, log);
    CheckpointRows(ckpt);
    DistinctIdsConcat(Values(ckpt), SavedRows(log));
  }

  /** The checkpoint's rows have distinct ids, each a key of the checkpoint. */
  lemma CheckpointRows(ckpt: Dict)
    requires DictValid(ckpt) && KeyedByTermId(ckpt)
    ensures forall i, j :: 0 <= i < j < |Values(ckpt)| ==> Values(ckpt)[i].termId != Values(ckpt)[j].termId
    ensures forall r :: r in Values(ckpt) ==> r.termId in ckpt.vals
  {
    var vs := Values(ckpt);
    forall i, j | 0 <= i < j < |vs| ensures vs[i].termId != vs[j].termId {
      assert vs[i] == ckpt.vals[ckpt.keys[i]] && vs[j] == ckpt.vals[ckpt.keys[j]];
    }
    forall r | r in vs ensures r.termId in ckpt.vals {
      var i :| 0 <= i < |vs| && vs[i] == r;
      assert vs[i] == ckpt.vals[ckpt.keys[i]];
    }
  }

  /** Two row lists with distinct ids, none shared, have distinct ids together. */
  lemma DistinctIdsConcat(a: seq<Row>, b: seq<Row>)
    requires forall i, j :: 0 <= i < j < |a| ==> a[i].termId != a[j].termId
    requires forall i, j :: 0 <= i < j < |b| ==> b[i].termId != b[j].termId
    requires forall x, y :: x in a && y in b ==> x.termId != y.termId
    ensures forall i, j :: 0 <= i < j < |a + b| ==> (a + b)[i].termId != (a + b)[j].termId
  {
    var all := a + b;
    forall i, j | 0 <= i < j < |all| ensures all[i].termId != all[j].termId {
      if j < |a| {
        assert all[i] == a[i] && all[j] == a[j];
      } else if i < |a| {
        assert all[i] == a[i] && all[j] == b[j - |a|];
      } else {
        assert all[i] == b[i - |a|] && all[j] == b[j - |a|];
      }
    }
  }

  /** The state of a crawl between references, as the log so far accounts for it. */
  ghost predicate Accounted(ckpt: Dict, log: seq<RefLog>, rowsById: Dict, already: set<string>, done: nat, failures: seq<Failure>) {
    DictValid(ckpt) && DictValid(rowsById) && already == rowsById.vals.Keys && already == ckpt.vals.Keys + SavedIds(log)
    && Values(rowsById) == Values(ckpt) + SavedRows(log) && failures == FailuresOf(log) && done == |SavedRows(log)|
  }

  /** A skipped reference changes nothing. */
  lemma AccountSkipped(ckpt: Dict, log: seq<RefLog>, rowsById: Dict, already: set<string>, done: nat, failures: seq<Failure>)
    requires Accounted(ckpt, log, rowsById, already, done, failures)
    ensures Accounted(ckpt, log + [Skipped], rowsById, already, done, failures)
  {
    LogAppend(log, Skipped);
  }

  /** A saved row under a new id goes last in the dictionary and counts as one more success. */
  lemma AccountSaved(ckpt: Dict, log: seq<RefLog>, rowsById: Dict, already: set<string>, done: nat, failures: seq<Failure>,
                     row: Row, attempts: nat)
    requires Accounted(ckpt, log, rowsById, already, done, failures) && row.termId !in already
    ensures Accounted(ckpt, log + [Saved(row, attempts)], Put(rowsById, row.termId, row), already + {row.termId}, done + 1, failures)
  {
    LogAppend(log, Saved(row, attempts));
    SavedValues(ckpt, log, rowsById, row);
    assert Put(rowsById, row.termId, row).vals.Keys == already + {row.termId};
  }

  /** The dictionary's values after storing a row under a new id are the saved rows and that row. */
  lemma SavedValues(ckpt: Dict, log: seq<RefLog>, rowsById: Dict, row: Row)
    requires DictValid(ckpt) && DictValid(rowsById) && Values(rowsById) == Values(ckpt) + SavedRows(log)
    requires row.termId !in rowsById.vals
    ensures Values(Put(rowsById, row.termId, row)) == Values(ckpt) + (SavedRows(log) + [row])
  {
    PutValues(rowsById, row.termId, row);
  }

  /** A failure is appended to the ledger. */
  lemma AccountFailed(ckpt: Dict, log: seq<RefLog>, rowsById: Dict, already: set<string>, done: nat, failures: seq<Failure>,
                      f: Failure, attempts: nat)
    requires Accounted(ckpt, log, rowsById, already, done, failures)
    ensures Accounted(ckpt, log + [Failed(f, attempts)], rowsById, already, done, failures + [f])
  {
    LogAppend(log, Failed(f, attempts));
  }
}
