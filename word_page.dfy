/**
 * The economic-term dictionary pages: the list of words of one segment under one index
 * button, the selected word, and the bookmarks. `DictionaryPage` is the static page, which
 * keeps its bookmarks in the browser's storage; `ServicePage` is the service page, which
 * asks the server to add or cancel a bookmark.
 */
module WordPage {
  import opened Text
  import opened WordIndex

  /** A listed word: its id, its term and the segment it belongs to. */
  datatype Entry = Entry(id: string, term: string, seg: Seg)

  function EntryId(w: Entry): string { w.id }

  /** The chosen index button: "all", or the key of a button (null when none applies). */
  datatype IndexChoice = All | Button(key: Option<string>)

  /** The word with this id, the first one if several share it: `WORDS.find`. */
  function FindWord(words: seq<Entry>, id: string): (r: Option<Entry>)
    ensures r.Some? <==> id in KeysOf(words, EntryId)
    ensures r.Some? ==> r.value in words && r.value.id == id
    ensures r.Some? ==> exists i :: 0 <= i < |words| && words[i] == r.value && forall j :: 0 <= j < i ==> words[j].id != id
  {
    if words == [] then None
    else if words[0].id == id then Some(words[0])
    else
      var r := FindWord(words[1..], id);
      FindWordTail(words, id, r);
      r
  }

  /** A word found after a first word with another id is found in the whole list, and is still the first with its id. */
  lemma FindWordTail(words: seq<Entry>, id: string, r: Option<Entry>)
    requires words != [] && words[0].id != id
    requires r.Some? <==> id in KeysOf(words[1..], EntryId)
    requires r.Some? ==> exists i :: 0 <= i < |words[1..]| && words[1..][i] == r.value && forall j :: 0 <= j < i ==> words[1..][j].id != id
    ensures r.Some? <==> id in KeysOf(words, EntryId)
    ensures r.Some? ==> exists i :: 0 <= i < |words| && words[i] == r.value && forall j :: 0 <= j < i ==> words[j].id != id
  {
    assert KeysOf(words, EntryId) == [words[0].id] + KeysOf(words[1..], EntryId);
    if r.Some? {
      var i :| 0 <= i < |words[1..]| && words[1..][i] == r.value && forall j :: 0 <= j < i ==> words[1..][j].id != id;
      assert words[i + 1] == r.value;
      forall j | 0 <= j < i + 1 ensures words[j].id != id {
        if j > 0 {
          assert words[j] == words[1..][j - 1];
        }
      }
    }
  }

  // ---------------------------------------------------------------------------------------
  // Bookmarks kept in the browser

  /** What `localStorage` holds under the bookmark key, as `JSON.parse` reads it. */
  datatype Stored = Absent | Unparsable | JsonArray(ids: seq<string>) | OtherJson

  /** `loadBookmarks`: the stored array, or no bookmarks for anything else. */
  function LoadBookmarks(stored: Stored): seq<string> {
    if stored.JsonArray? then stored.ids else []
  }

  /** Saved bookmarks load back as they were. */
  lemma LoadSaved(bookmarks: seq<string>)
    ensures LoadBookmarks(JsonArray(bookmarks)) == bookmarks
    ensures forall s: Stored :: !s.JsonArray? ==> LoadBookmarks(s) == []
  {
  }

  /** `toggleBookmark` of the static pages: drop every copy of a bookmarked id, else put it first. */
  function Toggled(bookmarks: seq<string>, id: string): (r: seq<string>)
    ensures id in bookmarks ==> id !in r
    ensures id !in bookmarks ==> r == [id] + bookmarks
    ensures forall x :: x != id ==> (x in r <==> x in bookmarks)
  {
    if id in bookmarks then Filter(bookmarks, x => x != id) else [id] + bookmarks
  }

  /** Toggling twice restores whether each id is bookmarked, and restores the list itself when the id was absent. */
  lemma ToggleTwice(bookmarks: seq<string>, id: string)
    ensures forall x :: x in Toggled(Toggled(bookmarks, id), id) <==> x in bookmarks
    ensures id !in bookmarks ==> Toggled(Toggled(bookmarks, id), id) == bookmarks
  {
    if id !in bookmarks {
      FilterAllKept(bookmarks, id);
    }
  }

  lemma {:induction false} FilterAllKept(xs: seq<string>, id: string)
    requires id !in xs
    ensures Filter([id] + xs, x => x != id) == xs
  {
    assert ([id] + xs)[1..] == xs;
    FilterNoOp(xs, id);
  }

  lemma {:induction false} FilterNoOp(xs: seq<string>, id: string)
    requires id !in xs
    ensures Filter(xs, x => x != id) == xs
  {
    if xs != [] {
      FilterNoOp(xs[1..], id);
    }
  }

  // ---------------------------------------------------------------------------------------
  // The list of the static pages

  /** A word is listed when it belongs to the segment and, under a button, is filed under it. */
  predicate Listed(w: Entry, seg: Seg, index: IndexChoice) {
    w.seg == seg && (index.Button? ==> IndexKey(w.seg, w.term) == index.key)
  }

  /** `getFilteredWords`: the listed words, in page order. */
  function Filtered(words: seq<Entry>, seg: Seg, index: IndexChoice): (r: seq<Entry>)
    ensures forall w :: w in r <==> w in words && Listed(w, seg, index)
  {
    Filter(words, w => Listed(w, seg, index))
  }

  /** The selection `renderList` leaves: kept when listed, else the first item, and none for an empty list. */
  function Reselect(ids: seq<string>, selected: Option<string>): (r: Option<string>)
    ensures ids == [] <==> r.None?
    ensures r.Some? ==> r.value in ids
    ensures selected.Some? && selected.value in ids ==> r == selected
    ensures ids != [] && !(selected.Some? && selected.value in ids) ==> r == Some(ids[0])
  {
    if ids == [] then None
    else if selected.Some? && selected.value in ids then selected
    else Some(ids[0])
  }

  /** The static dictionary page: its words, bookmarks, segment, index button and selection. */
  class DictionaryPage {
    const words: seq<Entry>
    var bookmarks: seq<string>
    var stored: Stored
    var seg: Seg
    var index: IndexChoice
    var selected: Option<string>

    /** The selected word, if any, is in the list on screen. */
    ghost predicate Shown()
      reads this
    {
      selected.Some? ==> selected.value in KeysOf(Filtered(words, seg, index), EntryId)
    }

    /** The page opens on the Korean words under "all", with the stored bookmarks. */
    constructor(words: seq<Entry>, stored: Stored)
      ensures this.words == words && this.stored == stored && bookmarks == LoadBookmarks(stored)
      ensures seg == Ko && index == All && selected.None? && Shown()
    {
      this.words := words;
      this.stored := stored;
      bookmarks := LoadBookmarks(stored);
      seg := Ko;
      index := All;
      selected := None;
    }

    /** `toggleBookmark`: nothing for an empty id; otherwise toggle and save. */
    method ToggleBookmark(id: string)
      modifies this`bookmarks, this`stored
      ensures id == "" ==> bookmarks == old(bookmarks) && stored == old(stored)
      ensures id != "" ==> bookmarks == Toggled(old(bookmarks), id) && stored == JsonArray(bookmarks)
    {
      if id == "" {
        return;
      }
      bookmarks := Toggled(bookmarks, id);
      stored := JsonArray(bookmarks);
    }

    /** `renderList`: the listed words, with the selection kept or moved to the first of them. */
    method RenderList() returns (items: seq<Entry>)
      modifies this`selected
      ensures items == Filtered(words, seg, index)
      ensures selected == Reselect(KeysOf(items, EntryId), old(selected)) && Shown()
    {
      items := Filtered(words, seg, index);
      selected := Reselect(KeysOf(items, EntryId), selected);
    }

    /** A segment tab: that segment under "all", no selection until the list picks its first word. */
    method ChooseSegment(s: Seg) returns (items: seq<Entry>)
      modifies this`seg, this`index, this`selected
      ensures seg == s && index == All && items == Filtered(words, s, All)
      ensures selected == Reselect(KeysOf(items, EntryId), None) && Shown()
    {
      seg := s;
      index := All;
      selected := None;
      items := RenderList();
    }

    /** An index button; the "all" button lifts the index filter. */
    method ChooseIndex(key: string) returns (items: seq<Entry>)
      modifies this`index, this`selected
      ensures (index.All? <==> key == "all") && (index.Button? ==> index.key == Some(key))
      ensures items == Filtered(words, seg, index)
      ensures selected == Reselect(KeysOf(items, EntryId), old(selected)) && Shown()
    {
      index := if key == "all" then All else Button(Some(key));
      items := RenderList();
    }

    /** The star of a listed word: toggle its bookmark and redraw the list. */
    method ClickStar(id: string) returns (items: seq<Entry>)
      modifies this`bookmarks, this`stored, this`selected
      ensures id == "" ==> bookmarks == old(bookmarks) && stored == old(stored)
      ensures id != "" ==> bookmarks == Toggled(old(bookmarks), id) && stored == JsonArray(bookmarks)
      ensures items == Filtered(words, seg, index) && selected == Reselect(KeysOf(items, EntryId), old(selected)) && Shown()
    {
      ToggleBookmark(id);
      items := RenderList();
    }

    /** "Clear all" in the bookmark window: no bookmarks, saved. */
    method ClearBookmarks() returns (items: seq<Entry>)
      modifies this`bookmarks, this`stored, this`selected
      ensures bookmarks == [] && stored == JsonArray([]) && LoadBookmarks(stored) == []
      ensures items == Filtered(words, seg, index) && selected == Reselect(KeysOf(items, EntryId), old(selected)) && Shown()
    {
      bookmarks := [];
      stored := JsonArray([]);
      items := RenderList();
    }

    /**
     * A bookmark in the bookmark window: its word's segment under "all", with that word
     * selected and in the list; an id no word has changes nothing.
     */
    method OpenBookmark(id: string)
      modifies this`seg, this`index, this`selected
      ensures FindWord(words, id).None? ==> seg == old(seg) && index == old(index) && selected == old(selected)
      ensures FindWord(words, id).Some? ==>
        seg == FindWord(words, id).value.seg && index == All && selected == Some(id)
        && id in KeysOf(Filtered(words, seg, index), EntryId) && Shown()
    {
      var w := FindWord(words, id);
      if w.Some? {
        seg := w.value.seg;
        index := All;
        var items := RenderList();
        assert w.value in items;
        assert KeysOf(items, EntryId)[IndexOfEntry(items, w.value)] == id;
        selected := Some(id);
      }
    }
  }

  function IndexOfEntry(items: seq<Entry>, w: Entry): (k: nat)
    requires w in items
    ensures k < |items| && items[k] == w
  {
    if items[0] == w then 0 else 1 + IndexOfEntry(items[1..], w)
  }

  // ---------------------------------------------------------------------------------------
  // The service page

  /** `term.trim().toUpperCase()` up to its first character: what the service list compares. */
  function UpperFirst(term: string): (r: string)
    ensures JsTrim(term) == [] <==> r == []
  {
    var t := JsTrim(term);
    if t == [] then [] else JsUpper(t[0])
  }

  /**
   * The service list's index test: the initial of the trimmed, upper-cased term for Korean
   * words, its first character for the others.
   */
  predicate ServiceListed(w: Entry, seg: Seg, index: IndexChoice) {
    w.seg == seg
    && (index.Button? ==>
          if seg == Ko then
            (if KoIndexUntrimmed(UpperFirst(w.term)).Some? then Some([KoIndexUntrimmed(UpperFirst(w.term)).value]) else None) == index.key
          else
            UpperFirst(w.term) != [] && index.key == Some([UpperFirst(w.term)[0]]))
  }

  /** The service list files Korean words as the static pages do. */
  lemma ServiceKoreanIndex(term: string)
    ensures KoIndexUntrimmed(UpperFirst(term)) == KoIndexOf(term)
  {
    var t := JsTrim(term);
    if t != [] {
      JsUpperHangul(t[0]);
    }
  }

  function ServiceFiltered(words: seq<Entry>, seg: Seg, index: IndexChoice): (r: seq<Entry>)
    ensures forall w :: w in r <==> w in words && ServiceListed(w, seg, index)
  {
    Filter(words, w => ServiceListed(w, seg, index))
  }

  /** The service list keeps the selection of an empty list as it was. */
  function ServiceReselect(ids: seq<string>, selected: Option<string>): (r: Option<string>)
    ensures ids == [] ==> r == selected
    ensures ids != [] ==> r == Reselect(ids, selected)
  {
    if ids == [] then selected else Reselect(ids, selected)
  }

  /** What the server's answer to a toggle request turned out to be. */
  datatype ToggleReply = Unauthorized | Rejected | Accepted | NetworkError

  /** The bookmarks after the server accepted: ADD appends an absent id, CANCEL drops every copy. */
  function ServiceToggled(bookmarks: seq<string>, id: string): (r: seq<string>)
    ensures id in bookmarks ==> id !in r
    ensures id !in bookmarks ==> r == bookmarks + [id]
  {
    if id !in bookmarks then bookmarks + [id] else Filter(bookmarks, x => x != id)
  }

  /** The server-side toggle ends with the same bookmarked ids as the static pages' toggle. */
  lemma ServiceToggleSameIds(bookmarks: seq<string>, id: string)
    ensures forall x :: x in ServiceToggled(bookmarks, id) <==> x in Toggled(bookmarks, id)
  {
  }

  /** The index a chosen bookmark opens under, as written: the untrimmed term's initial for Korean words. */
  function OpenIndexAsWritten(w: Entry): IndexChoice {
    if w.seg == Ko then
      Button(if KoIndexUntrimmed(w.term).Some? then Some([KoIndexUntrimmed(w.term).value]) else None)
    else
      Button(Some(UpperFirst(w.term)))
  }

  /** The index a chosen bookmark opens under, computed from the trimmed term as the list does. */
  function OpenIndex(w: Entry): IndexChoice {
    if w.seg == Ko then
      Button(if KoIndexOf(w.term).Some? then Some([KoIndexOf(w.term).value]) else None)
    else
      Button(Some(UpperFirst(w.term)))
  }

  /** As written, a Korean word whose term starts with a space is missing from the list it opens. */
  lemma OpenedWordHiddenAsWritten()
    ensures var w := Entry("1", " \U{AC00}\U{B098}", Ko);
      !ServiceListed(w, w.seg, OpenIndexAsWritten(w)) && ServiceListed(w, w.seg, OpenIndex(w))
  {
    var w := Entry("1", " \U{AC00}\U{B098}", Ko);
    assert JsTrim(w.term) == w.term[1..];
    assert KoIndexUntrimmed(w.term).None?;
    assert KoIndexOf(w.term) == Some('\U{3131}');
  }

  /** Every word the service page loaded (its segment from `getSegment`) is listed under the index it opens at. */
  lemma OpenedWordListed(w: Entry)
    requires w.seg == GetSegment(w.term)
    ensures ServiceListed(w, w.seg, OpenIndex(w))
  {
    ServiceKoreanIndex(w.term);
    if w.seg != Ko {
      var t := JsTrim(w.term);
      assert t != [] && (IsAsciiLetter(t[0]) || IsDigit(t[0]));
    }
  }

  /** The service dictionary page: the loaded words, the server's bookmarks, segment, index and selection. */
  class ServicePage {
    const words: seq<Entry>
    var bookmarks: seq<string>
    var seg: Seg
    var index: IndexChoice
    var selected: Option<string>

    /** Every word's segment is the one `getSegment` gives its term, as `loadWords` sets it. */
    ghost predicate Loaded()
      reads this
    {
      forall k :: 0 <= k < |words| ==> words[k].seg == GetSegment(words[k].term)
    }

    constructor(words: seq<Entry>, bookmarks: seq<string>)
      requires forall k :: 0 <= k < |words| ==> words[k].seg == GetSegment(words[k].term)
      ensures this.words == words && this.bookmarks == bookmarks && Loaded()
      ensures seg == Ko && index == All && selected.None?
    {
      this.words := words;
      this.bookmarks := bookmarks;
      seg := Ko;
      index := All;
      selected := None;
    }

    /**
     * `toggleBookmark`: false with nothing changed for an empty id, a 401, any other failed
     * answer or a network error; on success the server-side toggle, and true.
     */
    method ToggleBookmark(id: string, reply: ToggleReply) returns (ok: bool)
      modifies this`bookmarks
      ensures ok <==> id != "" && reply == Accepted
      ensures ok ==> bookmarks == ServiceToggled(old(bookmarks), id)
      ensures !ok ==> bookmarks == old(bookmarks)
    {
      if id == "" {
        return false;
      }
      var willAdd := id !in bookmarks;
      if reply == Unauthorized {
        return false;
      }
      if reply == Accepted {
        if willAdd {
          if id !in bookmarks {
            bookmarks := bookmarks + [id];
          }
        } else {
          bookmarks := Filter(bookmarks, x => x != id);
        }
        return true;
      }
      return false;
    }

    /** `renderList` of the service page. */
    method RenderList() returns (items: seq<Entry>)
      modifies this`selected
      ensures items == ServiceFiltered(words, seg, index)
      ensures selected == ServiceReselect(KeysOf(items, EntryId), old(selected))
    {
      items := ServiceFiltered(words, seg, index);
      if items == [] {
        return;
      }
      selected := ServiceReselect(KeysOf(items, EntryId), selected);
    }

    /** A bookmark in the bookmark window, as written: the word's segment and its index from the untrimmed term. */
    method OpenBookmarkAsWritten(id: string) returns (items: seq<Entry>)
      modifies this`seg, this`index, this`selected
      ensures FindWord(words, id).None? ==> seg == old(seg) && index == old(index) && selected == old(selected)
      ensures FindWord(words, id).Some? ==> var w := FindWord(words, id).value;
        seg == w.seg && index == OpenIndexAsWritten(w) && items == ServiceFiltered(words, seg, index)
        && selected == ServiceReselect(KeysOf(items, EntryId), Some(id))
    {
      items := [];
      var w := FindWord(words, id);
      if w.Some? {
        selected := Some(id);
        seg := w.value.seg;
        index := OpenIndexAsWritten(w.value);
        items := RenderList();
      }
    }

    /** A bookmark in the bookmark window, with its index from the trimmed term: the word is then selected and listed. */
    method OpenBookmark(id: string) returns (items: seq<Entry>)
      requires Loaded()
      modifies this`seg, this`index, this`selected
      ensures FindWord(words, id).None? ==> seg == old(seg) && index == old(index) && selected == old(selected)
      ensures FindWord(words, id).Some? ==> var w := FindWord(words, id).value;
        seg == w.seg && index == OpenIndex(w) && items == ServiceFiltered(words, seg, index)
        && w in items && selected == Some(id)
    {
      items := [];
      var w := FindWord(words, id);
      if w.Some? {
        selected := Some(id);
        seg := w.value.seg;
        index := OpenIndex(w.value);
        var k := IndexOfEntry(words, w.value);
        OpenedWordListed(words[k]);
        items := RenderList();
        assert w.value in items;
        assert KeysOf(items, EntryId)[IndexOfEntry(items, w.value)] == id;
      }
    }
  }
}
