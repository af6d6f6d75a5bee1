/**
 * The word manager: the crawled dictionary with local edits laid over it. Added words get
 * `local_` ids; edits of crawled words are kept as patches by id; deletions of crawled words
 * as a list of ids. The three are kept in the browser's storage and merged over the crawled
 * words in an insertion-ordered map keyed by id.
 */
module ManagerWord {
  import opened Text
  import opened WordIndex
  import opened WordJson
  import WordPage

  predicate IsLocal(id: string) { StartsWith(id, "local_") }

  /** The ids of the words. */
  function Ids(xs: seq<Word>): set<string> {
    if xs == [] then {} else {xs[0].id} + Ids(xs[1..])
  }

  lemma {:induction false} IdsSnoc(xs: seq<Word>, w: Word)
    ensures Ids(xs + [w]) == Ids(xs) + {w.id}
  {
    if xs != [] {
      assert (xs + [w])[1..] == xs[1..] + [w];
      IdsSnoc(xs[1..], w);
    }
  }

  /** No two words share an id: what a `Map` keyed by id holds. */
  predicate DistinctIds(xs: seq<Word>) {
    xs == [] || (xs[0].id !in Ids(xs[1..]) && DistinctIds(xs[1..]))
  }

  /** Every word's id is among the ids. */
  lemma {:induction false} InIds(xs: seq<Word>, w: Word)
    requires w in xs
    ensures w.id in Ids(xs)
  {
    if xs[0] != w {
      InIds(xs[1..], w);
    }
  }

  /** A word with a new id appended keeps the ids distinct. */
  lemma {:induction false} DistinctAppend(xs: seq<Word>, w: Word)
    requires DistinctIds(xs) && w.id !in Ids(xs)
    ensures DistinctIds(xs + [w])
  {
    if xs != [] {
      assert (xs + [w])[1..] == xs[1..] + [w];
      IdsSnoc(xs[1..], w);
      DistinctAppend(xs[1..], w);
    }
  }

  /** `byId.get(id)`: the first word with this id. */
  function Lookup(xs: seq<Word>, id: string): (r: Option<Word>)
    ensures r.Some? <==> id in Ids(xs)
    ensures r.Some? ==> r.value in xs && r.value.id == id
  {
    if xs == [] then None
    else if xs[0].id == id then Some(xs[0])
    else Lookup(xs[1..], id)
  }

  /** The last word with this id: the one a run of `Map.set` calls leaves. */
  function LastWith(ws: seq<Word>, id: string): (r: Option<Word>)
    ensures r.Some? <==> id in Ids(ws)
    ensures r.Some? ==> r.value in ws && r.value.id == id
  {
    if ws == [] then None
    else
      var n := |ws| - 1;
      assert ws == ws[..n] + [ws[n]];
      IdsSnoc(ws[..n], ws[n]);
      if ws[n].id == id then Some(ws[n]) else LastWith(ws[..n], id)
  }

  lemma {:induction false} LookupSnoc(xs: seq<Word>, w: Word, id: string)
    ensures Lookup(xs + [w], id) == if Lookup(xs, id).Some? then Lookup(xs, id) else if w.id == id then Some(w) else None
  {
    if xs != [] {
      assert (xs + [w])[1..] == xs[1..] + [w];
      LookupSnoc(xs[1..], w, id);
    }
  }

  lemma {:induction false} DistinctSnoc(xs: seq<Word>, w: Word)
    requires DistinctIds(xs + [w])
    ensures DistinctIds(xs) && w.id !in Ids(xs)
  {
    if xs != [] {
      assert (xs + [w])[1..] == xs[1..] + [w];
      IdsSnoc(xs[1..], w);
      DistinctSnoc(xs[1..], w);
    }
  }

  /** Where the ids are distinct, the last word with an id is the first. */
  lemma {:induction false} LastWithDistinct(xs: seq<Word>, id: string)
    requires DistinctIds(xs)
    ensures LastWith(xs, id) == Lookup(xs, id)
  {
    if xs != [] {
      var n := |xs| - 1;
      assert xs == xs[..n] + [xs[n]];
      DistinctSnoc(xs[..n], xs[n]);
      LookupSnoc(xs[..n], xs[n], id);
      LastWithDistinct(xs[..n], id);
    }
  }

  // ---------------------------------------------------------------------------------------
  // The insertion-ordered map

  /** `map.set(w.id, w)`: replace the word with that id where it stands, or append it. */
  function SetWord(xs: seq<Word>, w: Word): seq<Word>
  {
    if xs == [] then [w]
    else if xs[0].id == w.id then [w] + xs[1..]
    else [xs[0]] + SetWord(xs[1..], w)
  }

  lemma {:induction false} SetWordIds(xs: seq<Word>, w: Word)
    ensures Ids(SetWord(xs, w)) == Ids(xs) + {w.id}
  {
    if xs != [] && xs[0].id != w.id {
      SetWordIds(xs[1..], w);
    }
  }

  lemma {:induction false} SetWordLookup(xs: seq<Word>, w: Word, id: string)
    requires DistinctIds(xs)
    ensures DistinctIds(SetWord(xs, w))
    ensures Lookup(SetWord(xs, w), id) == if id == w.id then Some(w) else Lookup(xs, id)
  {
    if xs != [] && xs[0].id != w.id {
      SetWordLookup(xs[1..], w, id);
      SetWordIds(xs[1..], w);
    }
  }

  /** `map.set` for each word in turn; with `skipBlank`, words without an id are passed over. */
  function SetAll(xs: seq<Word>, ws: seq<Word>, skipBlank: bool): seq<Word>
  {
    if ws == [] then xs
    else
      var n := |ws| - 1;
      if skipBlank && ws[n].id == "" then SetAll(xs, ws[..n], skipBlank)
      else SetWord(SetAll(xs, ws[..n], skipBlank), ws[n])
  }

  lemma {:induction false} SetAllLookup(xs: seq<Word>, ws: seq<Word>, skipBlank: bool, id: string)
    requires DistinctIds(xs)
    ensures DistinctIds(SetAll(xs, ws, skipBlank))
    ensures Lookup(SetAll(xs, ws, skipBlank), id) ==
      if !(skipBlank && id == "") && LastWith(ws, id).Some? then LastWith(ws, id) else Lookup(xs, id)
  {
    if ws != [] {
      var n := |ws| - 1;
      SetAllLookup(xs, ws[..n], skipBlank, id);
      if !(skipBlank && ws[n].id == "") {
        SetWordLookup(SetAll(xs, ws[..n], skipBlank), ws[n], id);
      }
    }
  }

  /** `new Map(words.map(w => [w.id, w]))`: one entry per id, holding the last word with it. */
  function MapOf(words: seq<Word>): (r: seq<Word>)
  {
    SetAll([], words, false)
  }

  lemma MapOfLookup(words: seq<Word>, id: string)
    ensures DistinctIds(MapOf(words)) && Lookup(MapOf(words), id) == LastWith(words, id)
  {
    SetAllLookup([], words, false, id);
  }

  /** `map.delete(id)`. */
  function RemoveId(xs: seq<Word>, id: string): (r: seq<Word>)
    ensures Ids(r) == Ids(xs) - {id}
    ensures forall k :: 0 <= k < |r| ==> r[k] in xs
  {
    if xs == [] then []
    else if xs[0].id == id then RemoveId(xs[1..], id)
    else [xs[0]] + RemoveId(xs[1..], id)
  }

  lemma {:induction false} RemoveIdLookup(xs: seq<Word>, id: string, x: string)
    requires DistinctIds(xs)
    ensures DistinctIds(RemoveId(xs, id))
    ensures Lookup(RemoveId(xs, id), x) == if x == id then None else Lookup(xs, x)
  {
    if xs != [] {
      RemoveIdLookup(xs[1..], id, x);
    }
  }

  // ---------------------------------------------------------------------------------------
  // Edits

  /** The fields an edit of a crawled word stores. */
  datatype Patch = Patch(seg: Seg, term: string, en: string, body: seq<string>, updatedAt: string, indexKey: Option<string>)

  /** The edits kept in storage: added words (newest first), patches by id, deleted ids. */
  datatype Edits = Edits(added: seq<Word>, updated: map<string, Patch>, deleted: seq<string>)

  /** The index key is the one of the word's own segment and term. */
  predicate Consistent(w: Word) {
    w.indexKey == IndexKey(w.seg, w.term)
  }

  function PatchOf(w: Word): Patch {
    Patch(w.seg, w.term, w.en, w.body, w.updatedAt, w.indexKey)
  }

  /** `{ ...prev, ...patch }` with the index key computed again: only the id comes from `prev`. */
  function Patched(prev: Word, p: Patch): (r: Word)
    ensures r.id == prev.id && Consistent(r)
    ensures r.seg == p.seg && r.term == p.term && r.en == p.en && r.body == p.body && r.updatedAt == p.updatedAt
  {
    Word(prev.id, p.seg, p.term, p.en, p.updatedAt, p.body, IndexKey(p.seg, p.term))
  }

  /** Patching a consistent word with its own fields gives it back. */
  lemma PatchOfRoundTrip(prev: Word, w: Word)
    requires prev.id == w.id && Consistent(w)
    ensures Patched(prev, PatchOf(w)) == w
  {
  }

  /** The update patches, each applied to the entry with its id where it stands. */
  function ApplyUpdates(xs: seq<Word>, updated: map<string, Patch>): (r: seq<Word>)
    ensures Ids(r) == Ids(xs)
  {
    if xs == [] then []
    else [if xs[0].id in updated then Patched(xs[0], updated[xs[0].id]) else xs[0]] + ApplyUpdates(xs[1..], updated)
  }

  lemma {:induction false} ApplyUpdatesLookup(xs: seq<Word>, updated: map<string, Patch>, id: string)
    requires DistinctIds(xs)
    ensures DistinctIds(ApplyUpdates(xs, updated))
    ensures Lookup(ApplyUpdates(xs, updated), id) ==
      if Lookup(xs, id).None? then None
      else if id in updated then Some(Patched(Lookup(xs, id).value, updated[id]))
      else Lookup(xs, id)
  {
    if xs != [] {
      ApplyUpdatesLookup(xs[1..], updated, id);
    }
  }

  lemma {:induction false} ApplyUpdatesNone(xs: seq<Word>)
    ensures ApplyUpdates(xs, map[]) == xs
  {
    if xs != [] {
      ApplyUpdatesNone(xs[1..]);
    }
  }

  /** A patch for an id the entries do not have changes nothing. */
  lemma {:induction false} ApplyUpdatesAbsent(xs: seq<Word>, updated: map<string, Patch>, id: string, p: Patch)
    requires id !in Ids(xs)
    ensures ApplyUpdates(xs, updated[id := p]) == ApplyUpdates(xs, updated)
  {
    if xs != [] {
      ApplyUpdatesAbsent(xs[1..], updated, id, p);
    }
  }

  /** One more patch: the entry with its id is set to the patched word, in place. */
  lemma {:induction false} ApplyUpdatesOne(xs: seq<Word>, updated: map<string, Patch>, id: string, p: Patch)
    requires DistinctIds(xs) && id !in updated && id in Ids(xs)
    ensures Lookup(ApplyUpdates(xs, updated), id).Some?
    ensures SetWord(ApplyUpdates(xs, updated), Patched(Lookup(ApplyUpdates(xs, updated), id).value, p))
      == ApplyUpdates(xs, updated[id := p])
  {
    var ys := ApplyUpdates(xs, updated);
    if xs[0].id == id {
      ApplyUpdatesAbsent(xs[1..], updated, id, p);
    } else {
      ApplyUpdatesOne(xs[1..], updated, id, p);
    }
  }

  /** `for (const id of deleted) byId.delete(id)`. */
  function DropDeleted(xs: seq<Word>, deleted: seq<string>): seq<Word>
  {
    if deleted == [] then xs
    else RemoveId(DropDeleted(xs, deleted[..|deleted| - 1]), deleted[|deleted| - 1])
  }

  lemma {:induction false} DropDeletedLookup(xs: seq<Word>, deleted: seq<string>, id: string)
    requires DistinctIds(xs)
    ensures DistinctIds(DropDeleted(xs, deleted))
    ensures Lookup(DropDeleted(xs, deleted), id) == if id in deleted then None else Lookup(xs, id)
  {
    if deleted != [] {
      var n := |deleted| - 1;
      assert deleted == deleted[..n] + [deleted[n]];
      DropDeletedLookup(xs, deleted[..n], id);
      RemoveIdLookup(DropDeleted(xs, deleted[..n]), deleted[n], id);
    }
  }

  /** `applyEdits`: the patches on the crawled words, then the deletions, then the added words set by id. */
  function Merged(base: seq<Word>, e: Edits): seq<Word> {
    SetAll(DropDeleted(ApplyUpdates(MapOf(base), e.updated), e.deleted), e.added, true)
  }

  /** The entry the merge holds for an id, step by step. */
  function MergedEntry(base: seq<Word>, e: Edits, id: string): Option<Word> {
    if id != "" && LastWith(e.added, id).Some? then LastWith(e.added, id)
    else if id in e.deleted || LastWith(base, id).None? then None
    else if id in e.updated then Some(Patched(LastWith(base, id).value, e.updated[id]))
    else LastWith(base, id)
  }

  /**
   * What the merge holds for an id: the last added word with it; otherwise nothing when it is
   * deleted or no crawled word has it; otherwise the last crawled word with it, patched when
   * it has a patch. The entries have distinct ids.
   */
  lemma MergedLookup(base: seq<Word>, e: Edits, id: string)
    ensures DistinctIds(Merged(base, e))
    ensures Lookup(Merged(base, e), id) == MergedEntry(base, e, id)
  {
    MapOfLookup(base, id);
    var m := MapOf(base);
    ApplyUpdatesLookup(m, e.updated, id);
    var u := ApplyUpdates(m, e.updated);
    DropDeletedLookup(u, e.deleted, id);
    SetAllLookup(DropDeleted(u, e.deleted), e.added, true, id);
  }

  /** The patches with their id in `keys`. */
  function Restrict(updated: map<string, Patch>, keys: set<string>): map<string, Patch> {
    map k | k in updated && k in keys :: updated[k]
  }

  /** `applyEdits(baseWords)`: the crawled words in a map by id, then the three kinds of edit in turn. */
  method ApplyEdits(base: seq<Word>, e: Edits) returns (merged: seq<Word>)
    ensures merged == Merged(base, e)
  {
    var byId := SetEach([], base, false);
    MapOfLookup(base, "");
    var patched := PatchEach(byId, e.updated);
    var kept := DeleteEach(patched, e.deleted);
    merged := SetEach(kept, e.added, true);
  }

  /** `map.set` for each word in turn, passing over words without an id when `skipBlank`. */
  method SetEach(xs: seq<Word>, ws: seq<Word>, skipBlank: bool) returns (r: seq<Word>)
    ensures r == SetAll(xs, ws, skipBlank)
  {
    r := xs;
    var i := 0;
    while i < |ws|
      invariant i <= |ws| && r == SetAll(xs, ws[..i], skipBlank)
    {
      assert ws[..i + 1][..i] == ws[..i];
      if !(skipBlank && ws[i].id == "") {
        r := SetWord(r, ws[i]);
      }
      i := i + 1;
    }
    assert ws[..i] == ws;
  }

  /** For each patch, in no particular order: when the map has its id, the entry becomes the patched word. */
  method PatchEach(byId: seq<Word>, updated: map<string, Patch>) returns (patched: seq<Word>)
    requires DistinctIds(byId)
    ensures patched == ApplyUpdates(byId, updated)
  {
    ApplyUpdatesNone(byId);
    assert Restrict(updated, updated.Keys - updated.Keys) == map[];
    patched := byId;
    var todo := updated.Keys;
    while todo != {}
      invariant todo <= updated.Keys
      invariant patched == ApplyUpdates(byId, Restrict(updated, updated.Keys - todo))
      decreases todo
    {
      var id :| id in todo;
      var done := Restrict(updated, updated.Keys - todo);
      assert Restrict(updated, updated.Keys - (todo - {id})) == done[id := updated[id]];
      var prev := Lookup(patched, id);
      if prev.Some? {
        ApplyUpdatesOne(byId, done, id, updated[id]);
        patched := SetWord(patched, Patched(prev.value, updated[id]));
      } else {
        ApplyUpdatesAbsent(byId, done, id, updated[id]);
      }
      todo := todo - {id};
    }
    assert Restrict(updated, updated.Keys - todo) == updated;
  }

  /** `byId.delete(id)` for each deleted id. */
  method DeleteEach(xs: seq<Word>, deleted: seq<string>) returns (kept: seq<Word>)
    ensures kept == DropDeleted(xs, deleted)
  {
    kept := xs;
    var i := 0;
    while i < |deleted|
      invariant i <= |deleted| && kept == DropDeleted(xs, deleted[..i])
    {
      assert deleted[..i + 1][..i] == deleted[..i];
      kept := RemoveId(kept, deleted[i]);
      i := i + 1;
    }
    assert deleted[..i] == deleted;
  }

  // ---------------------------------------------------------------------------------------
  // Changing the edits

  /** Where the first word with this id stands: `findIndex(x => x.id === id)`. */
  function IndexOfId(xs: seq<Word>, id: string): (k: nat)
    requires id in Ids(xs)
    ensures k < |xs| && xs[k].id == id
  {
    if xs[0].id == id then 0 else 1 + IndexOfId(xs[1..], id)
  }

  lemma {:induction false} ReplaceLookup(xs: seq<Word>, k: nat, w: Word, id: string)
    requires DistinctIds(xs) && k < |xs| && xs[k].id == w.id
    ensures Ids(xs[k := w]) == Ids(xs) && DistinctIds(xs[k := w])
    ensures Lookup(xs[k := w], id) == if id == w.id then Some(w) else Lookup(xs, id)
  {
    if k > 0 {
      assert xs[k := w][1..] == xs[1..][k - 1 := w];
      ReplaceLookup(xs[1..], k - 1, w, id);
    }
  }

  /** `upsertWordLocal`: a local word replaces its earlier version or goes first; a crawled one becomes a patch. */
  function Upserted(e: Edits, w: Word): (r: Edits)
    ensures IsLocal(w.id) ==> r.updated == e.updated && r.deleted == e.deleted
    ensures !IsLocal(w.id) ==> r == e.(updated := e.updated[w.id := PatchOf(w)])
  {
    if IsLocal(w.id) then
      if w.id in Ids(e.added) then e.(added := e.added[IndexOfId(e.added, w.id) := w])
      else e.(added := [w] + e.added)
    else e.(updated := e.updated[w.id := PatchOf(w)])
  }

  /** `deleteWordLocal`: an empty id changes nothing; a local word leaves the added list; a crawled one is marked deleted and loses its patch. */
  function Deleted(e: Edits, id: string): (r: Edits)
    ensures id == "" ==> r == e
  {
    if id == "" then e
    else if IsLocal(id) then e.(added := RemoveId(e.added, id))
    else e.(deleted := if id in e.deleted then e.deleted else e.deleted + [id], updated := e.updated - {id})
  }

  /** The crawled words: ids from the crawled file, never local, each with its own index key. */
  predicate BaseOk(base: seq<Word>) {
    forall k :: 0 <= k < |base| ==> base[k].id != "" && !IsLocal(base[k].id) && Consistent(base[k])
  }

  /** The added words: local ids, one word per id, each with its own index key. */
  predicate AddedOk(e: Edits) {
    DistinctIds(e.added) && forall k :: 0 <= k < |e.added| ==> IsLocal(e.added[k].id) && Consistent(e.added[k])
  }

  /** A property of every id holds of each id in `Ids`. */
  lemma {:induction false} IdsAll(xs: seq<Word>, p: string -> bool, id: string)
    requires forall k :: 0 <= k < |xs| ==> p(xs[k].id)
    ensures id in Ids(xs) ==> p(id)
  {
    if xs != [] {
      IdsAll(xs[1..], p, id);
    }
  }

  lemma LocalOnlyAdded(e: Edits, id: string)
    requires AddedOk(e) && !IsLocal(id)
    ensures id !in Ids(e.added)
  {
    IdsAll(e.added, IsLocal, id);
  }

  lemma LocalNotCrawled(base: seq<Word>, id: string)
    requires BaseOk(base) && IsLocal(id)
    ensures LastWith(base, id).None?
  {
    IdsAll(base, x => !IsLocal(x), id);
  }

  /** Every entry of a merge is consistent when the crawled and added words are. */
  lemma MergedConsistent(base: seq<Word>, e: Edits, id: string)
    requires BaseOk(base) && AddedOk(e)
    ensures MergedEntry(base, e, id).Some? ==> Consistent(MergedEntry(base, e, id).value)
  {
    var a, b := LastWith(e.added, id), LastWith(base, id);
    assert a.Some? ==> a.value in e.added;
    assert b.Some? ==> b.value in base;
  }

  /** The added list after an upsert of a local word holds it under its id and is otherwise unchanged. */
  lemma UpsertedAdded(e: Edits, w: Word, x: string)
    requires AddedOk(e) && IsLocal(w.id) && Consistent(w)
    ensures AddedOk(Upserted(e, w))
    ensures LastWith(Upserted(e, w).added, x) == if x == w.id then Some(w) else LastWith(e.added, x)
  {
    var e2 := Upserted(e, w);
    if w.id in Ids(e.added) {
      var k := IndexOfId(e.added, w.id);
      ReplaceLookup(e.added, k, w, x);
    } else {
      assert e2.added[1..] == e.added;
    }
    LastWithDistinct(e.added, x);
    LastWithDistinct(e2.added, x);
  }

  /** After an upsert of a local word the merge holds it under its id and nothing else changes. */
  lemma UpsertLocalShows(base: seq<Word>, e: Edits, w: Word, x: string)
    requires BaseOk(base) && AddedOk(e) && IsLocal(w.id) && Consistent(w)
    ensures AddedOk(Upserted(e, w))
    ensures MergedEntry(base, Upserted(e, w), x) == if x == w.id then Some(w) else MergedEntry(base, e, x)
  {
    assert w.id != "";
    UpsertedAdded(e, w, x);
  }

  /** After an edit of a shown crawled word the merge holds the edited word and nothing else changes. */
  lemma UpsertCrawledShows(base: seq<Word>, e: Edits, w: Word, x: string)
    requires BaseOk(base) && AddedOk(e) && !IsLocal(w.id) && Consistent(w)
    requires MergedEntry(base, e, w.id).Some?
    ensures AddedOk(Upserted(e, w))
    ensures MergedEntry(base, Upserted(e, w), x) == if x == w.id then Some(w) else MergedEntry(base, e, x)
  {
    LocalOnlyAdded(e, w.id);
    PatchOfRoundTrip(LastWith(base, w.id).value, w);
  }

  /** After an upsert the merge holds the word under its id and nothing else changes. */
  lemma UpsertShows(base: seq<Word>, e: Edits, w: Word, x: string)
    requires BaseOk(base) && AddedOk(e) && Consistent(w)
    requires !IsLocal(w.id) ==> MergedEntry(base, e, w.id).Some?
    ensures AddedOk(Upserted(e, w))
    ensures MergedEntry(base, Upserted(e, w), x) == if x == w.id then Some(w) else MergedEntry(base, e, x)
  {
    if IsLocal(w.id) {
      UpsertLocalShows(base, e, w, x);
    } else {
      UpsertCrawledShows(base, e, w, x);
    }
  }

  /** Deleting a local word: it leaves the added list, and no crawled word has its id. */
  lemma DeleteLocalHides(base: seq<Word>, e: Edits, id: string, x: string)
    requires BaseOk(base) && AddedOk(e) && IsLocal(id)
    ensures AddedOk(Deleted(e, id))
    ensures MergedEntry(base, Deleted(e, id), x) == if x == id then None else MergedEntry(base, e, x)
  {
    RemovedAddedOk(e, id);
    LocalNotCrawled(base, id);
    DeletedLocalEntry(base, e, id, x);
  }

  lemma DeletedLocalEntry(base: seq<Word>, e: Edits, id: string, x: string)
    requires DistinctIds(e.added) && IsLocal(id) && LastWith(base, id).None?
    ensures MergedEntry(base, Deleted(e, id), x) == if x == id then None else MergedEntry(base, e, x)
  {
    var e2 := Deleted(e, id);
    assert e2 == e.(added := RemoveId(e.added, id));
    assert LastWith(e2.added, x) == if x == id then None else LastWith(e.added, x) by {
      RemoveIdLookup(e.added, id, x);
      LastWithDistinct(e.added, x);
      LastWithDistinct(e2.added, x);
    }
    MergedEntryOfAdded(base, e, e2, x);
  }

  /** Two edits that differ only in their added words merge alike where their last added words agree. */
  lemma MergedEntryOfAdded(base: seq<Word>, e: Edits, e2: Edits, x: string)
    requires e2 == e.(added := e2.added)
    ensures LastWith(e2.added, x) == LastWith(e.added, x) ==> MergedEntry(base, e2, x) == MergedEntry(base, e, x)
    ensures x != "" && LastWith(e2.added, x).None? && LastWith(base, x).None? ==> MergedEntry(base, e2, x) == None
  {
  }

  /** Dropping the words with one id from the added list keeps it well formed. */
  lemma RemovedAddedOk(e: Edits, id: string)
    requires AddedOk(e)
    ensures AddedOk(e.(added := RemoveId(e.added, id)))
  {
    var r := RemoveId(e.added, id);
    RemoveIdLookup(e.added, id, id);
    forall k | 0 <= k < |r| ensures IsLocal(r[k].id) && Consistent(r[k]) {
      assert r[k] in e.added;
      var j :| 0 <= j < |e.added| && e.added[j] == r[k];
    }
  }

  /** Where the ids are distinct, each word is the one found under its id. */
  lemma {:induction false} LookupDistinct(xs: seq<Word>, k: nat)
    requires DistinctIds(xs) && k < |xs|
    ensures Lookup(xs, xs[k].id) == Some(xs[k])
  {
    if k > 0 {
      assert xs[k] == xs[1..][k - 1];
      LookupDistinct(xs[1..], k - 1);
      assert xs[k].id in Ids(xs[1..]);
    }
  }

  /** After a delete the merge holds nothing under the id and nothing else changes. */
  lemma DeleteHides(base: seq<Word>, e: Edits, id: string, x: string)
    requires BaseOk(base) && AddedOk(e) && id != ""
    ensures AddedOk(Deleted(e, id))
    ensures MergedEntry(base, Deleted(e, id), x) == if x == id then None else MergedEntry(base, e, x)
  {
    if IsLocal(id) {
      DeleteLocalHides(base, e, id, x);
    } else {
      LocalOnlyAdded(e, id);
    }
  }

  /**
   * Merging the edits again over the merged words agrees with merging the new edits over the
   * crawled words, when only the added list grew: what the add dialog relies on.
   */
  lemma RemergeAgrees(base: seq<Word>, words: seq<Word>, e: Edits, e2: Edits, id: string)
    requires DistinctIds(words)
    requires forall x :: Lookup(words, x) == MergedEntry(base, e, x)
    requires e2.updated == e.updated && e2.deleted == e.deleted && Ids(e.added) <= Ids(e2.added)
    ensures Lookup(Merged(words, e2), id) == MergedEntry(base, e2, id)
  {
    MergedLookup(words, e2, id);
    LastWithDistinct(words, id);
    assert Lookup(words, id) == MergedEntry(base, e, id);
  }

  /** The add dialog's merge: the new word under its id, every other id as before, the edits still well formed. */
  lemma AddKeepsMerge(base: seq<Word>, words: seq<Word>, e: Edits, w: Word)
    requires BaseOk(base) && AddedOk(e) && DistinctIds(words)
    requires forall x :: Lookup(words, x) == MergedEntry(base, e, x)
    requires IsLocal(w.id) && Consistent(w) && w.id !in Ids(e.added)
    ensures var e2 := e.(added := [w] + e.added);
      AddedOk(e2) && DistinctIds(Merged(words, e2))
      && (forall x :: Lookup(Merged(words, e2), x) == MergedEntry(base, e2, x))
      && Lookup(Merged(words, e2), w.id) == Some(w)
      && (forall x :: x != w.id ==> Lookup(Merged(words, e2), x) == Lookup(words, x))
  {
    var e2 := e.(added := [w] + e.added);
    assert e2 == Upserted(e, w);
    assert e2.added[1..] == e.added;
    MergedLookup(words, e2, "");
    forall x ensures Lookup(Merged(words, e2), x) == MergedEntry(base, e2, x)
      && (x != w.id ==> Lookup(Merged(words, e2), x) == Lookup(words, x))
    {
      RemergeAgrees(base, words, e, e2, x);
      UpsertLocalShows(base, e, w, x);
    }
    UpsertLocalShows(base, e, w, w.id);
  }

  /** The edit dialog's update: the edited word under its id, every other id as before. */
  lemma EditKeepsMerge(base: seq<Word>, words: seq<Word>, e: Edits, w: Word)
    requires BaseOk(base) && AddedOk(e) && DistinctIds(words)
    requires forall x :: Lookup(words, x) == MergedEntry(base, e, x)
    requires Consistent(w) && Lookup(words, w.id).Some?
    ensures AddedOk(Upserted(e, w)) && DistinctIds(SetWord(words, w))
    ensures forall x :: Lookup(SetWord(words, w), x) == MergedEntry(base, Upserted(e, w), x)
    ensures Lookup(SetWord(words, w), w.id) == Some(w)
    ensures forall x :: x != w.id ==> Lookup(SetWord(words, w), x) == Lookup(words, x)
  {
    assert MergedEntry(base, e, w.id).Some?;
    SetWordLookup(words, w, w.id);
    UpsertShows(base, e, w, w.id);
    forall x ensures Lookup(SetWord(words, w), x) == MergedEntry(base, Upserted(e, w), x)
      && (x != w.id ==> Lookup(SetWord(words, w), x) == Lookup(words, x))
    {
      SetWordLookup(words, w, x);
      UpsertShows(base, e, w, x);
    }
  }

  // ---------------------------------------------------------------------------------------
  // Storage

  /** What `localStorage` holds under the edits key, as `JSON.parse` reads it. */
  datatype StoredEdits =
    | NoEdits
    | Unparsable
    | NotAnObject
    | EditsObject(added: Option<seq<Word>>, updated: Option<map<string, Patch>>, deleted: Option<seq<string>>)

  /** `loadEdits`: each field of a stored object when it has the right shape, else empty. */
  function LoadEdits(stored: StoredEdits): (r: Edits)
    ensures !stored.EditsObject? ==> r == Edits([], map[], [])
    ensures stored.EditsObject? ==>
      (stored.added.Some? ==> r.added == stored.added.value) && (stored.added.None? ==> r.added == [])
      && (stored.updated.Some? ==> r.updated == stored.updated.value) && (stored.updated.None? ==> r.updated == map[])
      && (stored.deleted.Some? ==> r.deleted == stored.deleted.value) && (stored.deleted.None? ==> r.deleted == [])
  {
    match stored
    case EditsObject(a, u, d) =>
      Edits(if a.Some? then a.value else [], if u.Some? then u.value else map[], if d.Some? then d.value else [])
    case _ => Edits([], map[], [])
  }

  /** `saveEdits`: the whole edits object. */
  function SaveEdits(e: Edits): StoredEdits {
    EditsObject(Some(e.added), Some(e.updated), Some(e.deleted))
  }

  lemma SavedEditsLoad(e: Edits)
    ensures LoadEdits(SaveEdits(e)) == e
  {
  }

  // ---------------------------------------------------------------------------------------
  // The page

  /** A word is listed in the segment and, under an index button, carries that index key. */
  predicate Listed(w: Word, seg: Seg, index: WordPage.IndexChoice) {
    w.seg == seg && (index.Button? ==> w.indexKey == index.key)
  }

  /** `getFilteredWords`, in map order. */
  function ListedWords(words: seq<Word>, seg: Seg, index: WordPage.IndexChoice): (r: seq<Word>)
    ensures forall w :: w in r <==> w in words && Listed(w, seg, index)
  {
    Filter(words, w => Listed(w, seg, index))
  }

  /** The word the add dialog saves: a local id, the trimmed term and gloss, the text's paragraphs, today's label. */
  function NewWord(seg: Seg, term: string, en: string, bodyText: string, today: JsDate, freshId: string): (w: Word)
    ensures IsLocal(w.id) && Consistent(w) && w.body == Paragraphs(bodyText)
  {
    Word("local_" + freshId, seg, term, en, FormatUpdatedAt(Some(today)), Paragraphs(bodyText), IndexKey(seg, term))
  }

  /** The manager page: the merged words, the edits, and the segment, index and selection on screen. */
  class WordManager {
    ghost const base: seq<Word>
    var edits: Edits
    var words: seq<Word>
    var seg: Seg
    var index: WordPage.IndexChoice
    var selected: Option<string>

    /** The words on the page are, id by id, the merge of the edits over the crawled words. */
    ghost predicate Valid()
      reads this
    {
      BaseOk(base) && AddedOk(edits) && DistinctIds(words)
      && forall x :: Lookup(words, x) == MergedEntry(base, edits, x)
    }

    /** The selected word, if any, is on the list on screen. */
    ghost predicate Shown()
      reads this
    {
      selected.Some? ==> selected.value in KeysOf(ListedWords(words, seg, index), IdOf)
    }

    /** `init` after a successful load: `rebuildStateFromBase`, Korean under "all", no selection. */
    constructor(base: seq<Word>, stored: StoredEdits)
      requires BaseOk(base) && AddedOk(LoadEdits(stored))
      ensures Valid() && this.base == base && edits == LoadEdits(stored)
      ensures seg == Ko && index == WordPage.All && selected.None?
    {
      this.base := base;
      edits := LoadEdits(stored);
      seg := Ko;
      index := WordPage.All;
      selected := None;
      new;
      words := RebuildFromBase(base, edits);
    }

    /** `renderList`: the listed words, the selection kept or moved to the first, none when empty. */
    method RenderList() returns (items: seq<Word>)
      modifies this`selected
      ensures items == ListedWords(words, seg, index)
      ensures selected == WordPage.Reselect(KeysOf(items, IdOf), old(selected)) && Shown()
    {
      items := ListedWords(words, seg, index);
      selected := WordPage.Reselect(KeysOf(items, IdOf), selected);
    }

    /** A segment tab: that segment under "all", the selection dropped and taken again from the list. */
    method ChooseSegment(s: Seg) returns (items: seq<Word>)
      modifies this`seg, this`index, this`selected
      ensures seg == s && index == WordPage.All && items == ListedWords(words, s, WordPage.All)
      ensures selected == WordPage.Reselect(KeysOf(items, IdOf), None) && Shown()
    {
      seg := s;
      index := WordPage.All;
      selected := None;
      items := RenderList();
    }

    /** An index button; the "all" button, or one without a key, lifts the index filter. */
    method ChooseIndex(key: string) returns (items: seq<Word>)
      modifies this`index, this`selected
      ensures (index.All? <==> key in {"all", ""}) && (index.Button? ==> index.key == Some(key))
      ensures items == ListedWords(words, seg, index)
      ensures selected == WordPage.Reselect(KeysOf(items, IdOf), old(selected)) && Shown()
    {
      index := if key in {"all", ""} then WordPage.All else WordPage.Button(Some(key));
      items := RenderList();
    }

    /** A click on a listed word selects it. */
    method ClickItem(id: string)
      modifies this`selected
      ensures selected == Some(id)
    {
      selected := Some(id);
    }

    /**
     * The add dialog's save: an empty trimmed term changes nothing; otherwise the new word goes
     * first in the added list, the edits are merged again over the words on the page, and the
     * new word is selected, then the list is drawn again.
     */
    method AddWord(s: Seg, termText: string, enText: string, bodyText: string, today: JsDate, freshId: string)
      returns (saved: bool, items: seq<Word>)
      requires Valid() && "local_" + freshId !in Ids(edits.added)
      modifies this`edits, this`words, this`selected
      ensures Valid()
      ensures saved <==> JsTrim(termText) != ""
      ensures !saved ==> edits == old(edits) && words == old(words) && selected == old(selected)
      ensures saved ==>
        var w := NewWord(s, JsTrim(termText), JsTrim(enText), bodyText, today, freshId);
        edits == old(edits).(added := [w] + old(edits.added))
        && words == Merged(old(words), edits)
        && Lookup(words, w.id) == Some(w)
        && (forall x :: x != w.id ==> Lookup(words, x) == Lookup(old(words), x))
        && items == ListedWords(words, seg, index)
        && selected == WordPage.Reselect(KeysOf(items, IdOf), Some(w.id))
    {
      var term := JsTrim(termText);
      if term == "" {
        return false, [];
      }
      var w := NewWord(s, term, JsTrim(enText), bodyText, today, freshId);
      AddKeepsMerge(base, words, edits, w);
      edits := edits.(added := [w] + edits.added);
      words := ApplyEdits(words, edits);
      selected := Some(w.id);
      items := RenderList();
      saved := true;
    }

    /**
     * The edit dialog's save for the selected word: nothing without a selection, for an id no
     * word has, or for an empty trimmed term; otherwise the word takes the new fields and
     * today's label, is kept as an upsert and set in the map where it stands.
     */
    method EditSelected(s: Seg, termText: string, enText: string, bodyText: string, today: JsDate)
      returns (saved: bool, items: seq<Word>)
      requires Valid()
      modifies this`edits, this`words, this`selected
      ensures Valid()
      ensures saved <==> (old(selected).Some? && old(selected).value != ""
        && Lookup(old(words), old(selected).value).Some? && JsTrim(termText) != "")
      ensures !saved ==> edits == old(edits) && words == old(words) && selected == old(selected)
      ensures saved ==>
        var id := old(selected).value;
        var next := Word(id, s, JsTrim(termText), JsTrim(enText), FormatUpdatedAt(Some(today)), Paragraphs(bodyText), IndexKey(s, JsTrim(termText)));
        edits == Upserted(old(edits), next)
        && words == SetWord(old(words), next)
        && Lookup(words, id) == Some(next)
        && (forall x :: x != id ==> Lookup(words, x) == Lookup(old(words), x))
        && items == ListedWords(words, seg, index)
        && selected == WordPage.Reselect(KeysOf(items, IdOf), Some(id))
    {
      if selected.None? || selected.value == "" {
        return false, [];
      }
      var id := selected.value;
      var w0 := Lookup(words, id);
      var term := JsTrim(termText);
      if w0.None? || term == "" {
        return false, [];
      }
      var next := Patched(w0.value, Patch(s, term, JsTrim(enText), Paragraphs(bodyText), FormatUpdatedAt(Some(today)), IndexKey(s, term)));
      EditKeepsMerge(base, words, edits, next);
      edits := Upserted(edits, next);
      words := SetWord(words, next);
      items := RenderList();
      saved := true;
    }

    /** `deleteWordLocal`: the edits lose the word; the words on the page are left until rebuilt. */
    method DeleteWordLocal(id: string)
      requires Valid()
      modifies this`edits
      ensures edits == Deleted(old(edits), id) && AddedOk(edits)
      ensures id != "" ==> forall x :: MergedEntry(base, edits, x) == if x == id then None else MergedEntry(base, old(edits), x)
    {
      if id == "" {
        return;
      }
      var e0 := edits;
      edits := Deleted(edits, id);
      DeleteHides(base, e0, id, "");
      forall x ensures MergedEntry(base, edits, x) == if x == id then None else MergedEntry(base, e0, x) {
        DeleteHides(base, e0, id, x);
      }
    }
  }

  /** The entries with their index keys computed again. */
  function RecomputeAll(xs: seq<Word>): (r: seq<Word>)
    ensures Ids(r) == Ids(xs)
  {
    if xs == [] then [] else [xs[0].(indexKey := IndexKey(xs[0].seg, xs[0].term))] + RecomputeAll(xs[1..])
  }

  lemma {:induction false} RecomputeAllLookup(xs: seq<Word>, id: string)
    requires DistinctIds(xs)
    ensures DistinctIds(RecomputeAll(xs))
    ensures Lookup(RecomputeAll(xs), id) == if Lookup(xs, id).None? then None
      else Some(Lookup(xs, id).value.(indexKey := IndexKey(Lookup(xs, id).value.seg, Lookup(xs, id).value.term)))
  {
    if xs != [] {
      RecomputeAllLookup(xs[1..], id);
    }
  }

  /** `rebuildStateFromBase`: the merge with every index key computed again; id by id, the merge itself. */
  method RebuildFromBase(base: seq<Word>, e: Edits) returns (words: seq<Word>)
    requires BaseOk(base) && AddedOk(e)
    ensures words == RecomputeAll(Merged(base, e)) && DistinctIds(words)
    ensures forall x :: Lookup(words, x) == MergedEntry(base, e, x)
  {
    var merged := ApplyEdits(base, e);
    words := RecomputeAll(merged);
    MergedLookup(base, e, "");
    RecomputeAllLookup(merged, "");
    forall x ensures Lookup(words, x) == MergedEntry(base, e, x) {
      MergedLookup(base, e, x);
      MergedConsistent(base, e, x);
      RecomputeAllLookup(merged, x);
    }
  }
}
