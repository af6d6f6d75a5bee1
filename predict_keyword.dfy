/**
 * The issue-keyword predictor: clean texts are read (by date range or by id), normalised,
 * buffered into batches, classified and written back to `news_info` as
 * `keywords = {label, model_version}`. The embedding model and the classifier are a
 * function `classify` from text to label; whether the update of a document succeeds is a
 * function `updateOk` of its id; the search and the `mget` responses are inputs.
 */
module PredictKeyword {
  import opened Text
  import opened Regex
  import opened CleanText
  import opened Calendar
  import SubKeywords

  const ModelVersion := "issue_classifier2_v2"

  // ---------------------------------------------------------------------------------------
  // normalize_for_predict

  /**
   * `normalize_for_predict`: strip; "" stays ""; otherwise every character outside
   * `0-9A-Za-z가-힣` and whitespace becomes a space, then whitespace runs collapse to one
   * space and the ends are stripped.
   */
  function NormalizeForPredict(text: Option<string>): string {
    var t := PyStrip(if text.Some? then text.value else "");
    if t == "" then "" else PyCollapse(SubAll(KeepChars, t))
  }

  /** Masking turns every character outside the kept set into a space. */
  lemma MaskKept(t: string)
    ensures AllChars(SubAll(KeepChars, t), Kept)
  {
    var masked := SubAll(KeepChars, t);
    SubSingle(NotKept, t, 0);
    forall i | 0 <= i < |masked| ensures Kept(masked[i]) {
      assert masked[i - 0] == (if InClass(NotKept, t[i]) then ' ' else t[i]);
      assert PySpace(' ');
    }
  }

  /** Masking leaves a text of clean characters unchanged. */
  lemma MaskFixesClean(c: string)
    requires AllChars(c, CleanChar)
    ensures SubAll(KeepChars, c) == c
  {
    var again := SubAll(KeepChars, c);
    SubSingle(NotKept, c, 0);
    forall i | 0 <= i < |c| ensures again[i] == c[i] {
      assert again[i - 0] == (if InClass(NotKept, c[i]) then ' ' else c[i]);
      assert CleanChar(c[i]);
    }
  }

  /** Any result holds only ASCII letters and digits, Hangul syllables and single inner spaces. */
  lemma NormalizeForPredictClean(text: Option<string>)
    ensures AllChars(NormalizeForPredict(text), CleanChar) && Collapsed(NormalizeForPredict(text), PySpace)
  {
    var t := PyStrip(if text.Some? then text.value else "");
    if t != "" {
      MaskKept(t);
      CollapseClean(SubAll(KeepChars, t), Kept);
    } else {
      assert PySpace(' ');
    }
  }

  /** A missing or blank text normalises to "", and normalising a normalised text changes nothing. */
  lemma NormalizeForPredictProperties(text: Option<string>)
    ensures text.None? || AllChars(text.value, PySpace) ==> NormalizeForPredict(text) == ""
    ensures NormalizeForPredict(Some(NormalizeForPredict(text))) == NormalizeForPredict(text)
  {
    var t := PyStrip(if text.Some? then text.value else "");
    if t != "" {
      var masked := SubAll(KeepChars, t);
      var c := PyCollapse(masked);
      NormalizeForPredictClean(text);
      CollapseProperties(masked, PySpace);
      if c != "" {
        StripTrimmed(c, PySpace);
        MaskFixesClean(c);
      }
    }
  }

  // ---------------------------------------------------------------------------------------
  // bulk_update_news_keywords and _flush_predict

  /** A text read for prediction: the document id and its `clean_text` (None when null). */
  datatype ScanDoc = ScanDoc(id: string, cleanText: Option<string>)

  /** A document whose normalised text is non-empty, with that text. */
  datatype Candidate = Candidate(id: string, text: string)

  /** One update action: `news_info/<id>` gets `keywords = {label, model_version}`. */
  datatype Update = Update(id: string, issue: string, modelVersion: string)

  /** Candidates whose update succeeds. */
  function CountUpdated(cands: seq<Candidate>, updateOk: string -> bool): (n: nat)
    ensures n <= |cands|
  {
    if cands == [] then 0
    else CountUpdated(cands[..|cands| - 1], updateOk) + (if updateOk(cands[|cands| - 1].id) then 1 else 0)
  }

  lemma {:induction false} CountUpdatedAppend(a: seq<Candidate>, b: seq<Candidate>, updateOk: string -> bool)
    ensures CountUpdated(a + b, updateOk) == CountUpdated(a, updateOk) + CountUpdated(b, updateOk)
    decreases |b|
  {
    if b != [] {
      var n := |b| - 1;
      CountUpdatedAppend(a, b[..n], updateOk);
      assert (a + b)[..|a + b| - 1] == a + b[..n];
      assert (a + b)[|a + b| - 1] == b[n];
    } else {
      assert a + b == a;
    }
  }

  const MaxPrintedFailures := 5

  /** The rows whose update succeeds. */
  function RowsUpdated(rows: seq<Update>, updateOk: string -> bool): (n: nat)
    ensures n <= |rows|
  {
    if rows == [] then 0
    else RowsUpdated(rows[..|rows| - 1], updateOk) + (if updateOk(rows[|rows| - 1].id) then 1 else 0)
  }

  /**
   * `bulk_update_news_keywords` for the rows of one batch: counts by the per-item ok flag,
   * printing at most five failures.
   */
  method BulkUpdateNewsKeywords(rows: seq<Update>, updateOk: string -> bool)
    returns (updated: nat, failed: nat, printed: nat)
    ensures updated + failed == |rows|
    ensures printed == if failed < MaxPrintedFailures then failed else MaxPrintedFailures
    ensures updated == RowsUpdated(rows, updateOk)
  {
    updated, failed, printed := 0, 0, 0;
    for i := 0 to |rows|
      invariant updated + failed == i
      invariant printed == if failed < MaxPrintedFailures then failed else MaxPrintedFailures
      invariant updated == RowsUpdated(rows[..i], updateOk)
    {
      assert rows[..i + 1][..i] == rows[..i];
      if updateOk(rows[i].id) {
        updated := updated + 1;
      } else {
        failed := failed + 1;
        if printed < MaxPrintedFailures {
          printed := printed + 1;
        }
      }
    }
    assert rows[..|rows|] == rows;
  }

  /** The update rows of a batch: each candidate with the label predicted for its text. */
  function UpdatesFor(batch: seq<Candidate>, classify: string -> string): (rows: seq<Update>)
    ensures |rows| == |batch|
    ensures forall i :: 0 <= i < |batch| ==> rows[i].id == batch[i].id && rows[i].issue == classify(batch[i].text)
  {
    seq(|batch|, i requires 0 <= i < |batch| => Update(batch[i].id, classify(batch[i].text), ModelVersion))
  }

  /** `_flush_predict`: predict a label per text and update the batch. */
  method FlushPredict(batch: seq<Candidate>, classify: string -> string, updateOk: string -> bool)
    returns (updated: nat, failed: nat)
    ensures updated == CountUpdated(batch, updateOk) && updated + failed == |batch|
  {
    var rows := UpdatesFor(batch, classify);
    var printed;
    updated, failed, printed := BulkUpdateNewsKeywords(rows, updateOk);
    UpdatesCounted(batch, classify, updateOk);
  }

  /** The updated rows of a batch are its candidates whose update succeeds: the label plays no part. */
  lemma {:induction false} UpdatesCounted(batch: seq<Candidate>, classify: string -> string, updateOk: string -> bool)
    ensures RowsUpdated(UpdatesFor(batch, classify), updateOk) == CountUpdated(batch, updateOk)
  {
    if batch != [] {
      var n := |batch| - 1;
      UpdatesCounted(batch[..n], classify, updateOk);
      assert UpdatesFor(batch, classify)[..n] == UpdatesFor(batch[..n], classify);
    }
  }

  // ---------------------------------------------------------------------------------------
  // The prediction loop shared by predict_issue_keyword_range and predict_issue_keyword_ids

  /** The documents kept for prediction, with their normalised texts, in order. */
  function Candidates(docs: seq<ScanDoc>): (r: seq<Candidate>)
    ensures |r| <= |docs|
  {
    if docs == [] then []
    else
      var d := docs[|docs| - 1];
      var text := NormalizeForPredict(d.cleanText);
      Candidates(docs[..|docs| - 1]) + (if text == "" then [] else [Candidate(d.id, text)])
  }

  /** The documents skipped because their text normalises to "". */
  function Empties(docs: seq<ScanDoc>): (n: nat)
  {
    if docs == [] then 0
    else Empties(docs[..|docs| - 1]) + (if NormalizeForPredict(docs[|docs| - 1].cleanText) == "" then 1 else 0)
  }

  /** Every document read is either skipped as empty or sent to a flush. */
  lemma {:induction false} ReadIsEmptyPlusSent(docs: seq<ScanDoc>)
    ensures Empties(docs) + |Candidates(docs)| == |docs|
  {
    if docs != [] {
      ReadIsEmptyPlusSent(docs[..|docs| - 1]);
    }
  }

  datatype Totals = Totals(read: nat, empty: nat, updated: nat, failed: nat)

  /** The effective batch size: `len(buf) >= batch_size` holds after every append when it is below 1. */
  function BatchSize(batchSize: int): (b: nat)
    ensures b >= 1
  {
    if batchSize < 1 then 1 else batchSize
  }

  /** The loop state: the flushed batches, the buffer and the update counts so far. */
  predicate Flushed(batches: seq<seq<Candidate>>, buf: seq<Candidate>, b: nat, updated: nat, failed: nat, updateOk: string -> bool) {
    |buf| < b
    && (forall k :: 0 <= k < |batches| ==> |batches[k]| == b)
    && updated == CountUpdated(Flatten(batches), updateOk) && updated + failed == |Flatten(batches)|
  }

  /** Flush `buf` as one more batch. */
  method FlushBatch(batches: seq<seq<Candidate>>, buf: seq<Candidate>, updated: nat, failed: nat,
                    classify: string -> string, updateOk: string -> bool)
    returns (batches': seq<seq<Candidate>>, updated': nat, failed': nat)
    requires updated == CountUpdated(Flatten(batches), updateOk) && updated + failed == |Flatten(batches)|
    ensures batches' == batches + [buf] && Flatten(batches') == Flatten(batches) + buf
    ensures updated' == CountUpdated(Flatten(batches'), updateOk) && updated' + failed' == |Flatten(batches')|
  {
    var u, f := FlushPredict(buf, classify, updateOk);
    FlattenAppend(batches, buf);
    CountUpdatedAppend(Flatten(batches), buf, updateOk);
    batches', updated', failed' := batches + [buf], updated + u, failed + f;
  }

  /** One kept document: append it to the buffer and flush when the buffer reaches `batch_size`. */
  method PushCandidate(batches: seq<seq<Candidate>>, buf: seq<Candidate>, updated: nat, failed: nat, c: Candidate,
                       batchSize: int, classify: string -> string, updateOk: string -> bool)
    returns (batches': seq<seq<Candidate>>, buf': seq<Candidate>, updated': nat, failed': nat)
    requires Flushed(batches, buf, BatchSize(batchSize), updated, failed, updateOk)
    ensures Flushed(batches', buf', BatchSize(batchSize), updated', failed', updateOk)
    ensures Flatten(batches') + buf' == Flatten(batches) + buf + [c]
  {
    buf' := buf + [c];
    if |buf'| >= batchSize {
      batches', updated', failed' := FlushBatch(batches, buf', updated, failed, classify, updateOk);
      buf' := [];
    } else {
      batches', updated', failed' := batches, updated, failed;
    }
  }

  /** The loop's state after reading the documents `seen`. */
  predicate Scanned(seen: seq<ScanDoc>, batches: seq<seq<Candidate>>, buf: seq<Candidate>, b: nat,
                    read: nat, empty: nat, updated: nat, failed: nat, updateOk: string -> bool) {
    read == |seen| && empty == Empties(seen) && Flatten(batches) + buf == Candidates(seen)
    && Flushed(batches, buf, b, updated, failed, updateOk)
  }

  /** One document of the loop: counted as read, then skipped as empty or pushed as a candidate. */
  method ScanOne(seen: seq<ScanDoc>, d: ScanDoc, batches: seq<seq<Candidate>>, buf: seq<Candidate>,
                 read: nat, empty: nat, updated: nat, failed: nat,
                 batchSize: int, classify: string -> string, updateOk: string -> bool)
    returns (batches': seq<seq<Candidate>>, buf': seq<Candidate>, read': nat, empty': nat, updated': nat, failed': nat)
    requires Scanned(seen, batches, buf, BatchSize(batchSize), read, empty, updated, failed, updateOk)
    ensures Scanned(seen + [d], batches', buf', BatchSize(batchSize), read', empty', updated', failed', updateOk)
  {
    assert (seen + [d])[..|seen|] == seen;
    read' := read + 1;
    var text := NormalizeForPredict(d.cleanText);
    if text == "" {
      batches', buf', empty', updated', failed' := batches, buf, empty + 1, updated, failed;
      return;
    }
    empty' := empty;
    batches', buf', updated', failed' := PushCandidate(batches, buf, updated, failed, Candidate(d.id, text),
                                                       batchSize, classify, updateOk);
  }

  /**
   * The buffered loop: read every document, skip the empty ones, flush whenever the buffer
   * reaches `batch_size` and once more for a non-empty remainder. `batches` are the flushed
   * buffers in order.
   */
  method PredictLoop(docs: seq<ScanDoc>, batchSize: int, classify: string -> string, updateOk: string -> bool)
    returns (totals: Totals, batches: seq<seq<Candidate>>)
    ensures totals.read == |docs| && totals.empty == Empties(docs)
    ensures batches == Chunks(Candidates(docs), BatchSize(batchSize))
    ensures totals.updated == CountUpdated(Candidates(docs), updateOk)
    ensures totals.updated + totals.failed == |Candidates(docs)|
  {
    var b := BatchSize(batchSize);
    var buf: seq<Candidate> := [];
    batches := [];
    var read, empty, updated, failed := 0, 0, 0, 0;
    for i := 0 to |docs|
      invariant Scanned(docs[..i], batches, buf, b, read, empty, updated, failed, updateOk)
    {
      assert docs[..i + 1] == docs[..i] + [docs[i]];
      batches, buf, read, empty, updated, failed :=
        ScanOne(docs[..i], docs[i], batches, buf, read, empty, updated, failed, batchSize, classify, updateOk);
    }
    assert docs[..|docs|] == docs;
    batches, updated, failed := FlushRest(batches, buf, b, updated, failed, classify, updateOk);
    totals := Totals(read, empty, updated, failed);
  }

  /** The final flush of a non-empty remainder; the batches are then the chunks of all candidates. */
  method FlushRest(batches: seq<seq<Candidate>>, buf: seq<Candidate>, b: nat, updated: nat, failed: nat,
                   classify: string -> string, updateOk: string -> bool)
    returns (batches': seq<seq<Candidate>>, updated': nat, failed': nat)
    requires b > 0 && Flushed(batches, buf, b, updated, failed, updateOk)
    ensures batches' == Chunks(Flatten(batches) + buf, b)
    ensures updated' == CountUpdated(Flatten(batches) + buf, updateOk) && updated' + failed' == |Flatten(batches) + buf|
  {
    ChunksOfBatches(batches, buf, b);
    if |buf| > 0 {
      batches', updated', failed' := FlushBatch(batches, buf, updated, failed, classify, updateOk);
    } else {
      assert Flatten(batches) + buf == Flatten(batches);
      batches', updated', failed' := batches, updated, failed;
    }
  }

  /** Every flushed batch is non-empty and at most `batch_size` long, and the batches together are the candidates. */
  lemma BatchesProperties(docs: seq<ScanDoc>, batchSize: int)
    ensures var bs := Chunks(Candidates(docs), BatchSize(batchSize));
      Flatten(bs) == Candidates(docs) && forall k :: 0 <= k < |bs| ==> 0 < |bs[k]| <= BatchSize(batchSize)
  {
    ChunksProperties(Candidates(docs), BatchSize(batchSize));
  }

  // ---------------------------------------------------------------------------------------
  // predict_issue_keyword_range

  datatype RangeReport = RangeReport(totals: Totals, totalNews: int, totalClean: int, missingClean: nat)

  /**
   * `predict_issue_keyword_range`: `docs` are what the scan of `clean_text` yields for the
   * range; `totalNews` and `totalClean` are the two range counts taken afterwards.
   */
  method PredictIssueKeywordRange(docs: seq<ScanDoc>, batchSize: int, classify: string -> string,
                                  updateOk: string -> bool, totalNews: int, totalClean: int)
    returns (report: RangeReport)
    ensures report.totals.read == |docs| && report.totals.empty == Empties(docs)
    ensures report.totals.updated + report.totals.failed == |docs| - Empties(docs)
    ensures report.missingClean == if totalNews > totalClean then totalNews - totalClean else 0
  {
    var totals, batches := PredictLoop(docs, batchSize, classify, updateOk);
    ReadIsEmptyPlusSent(docs);
    var missing := if totalNews - totalClean > 0 then totalNews - totalClean else 0;
    report := RangeReport(totals, totalNews, totalClean, missing);
  }

  // ---------------------------------------------------------------------------------------
  // fetch_clean_text_by_ids and predict_issue_keyword_ids

  /** One entry of an `mget` response. */
  datatype MgetDoc = MgetDoc(id: string, found: bool, cleanText: Option<string>)

  function CountMissing(docs: seq<MgetDoc>): (n: nat)
    ensures n <= |docs|
  {
    if docs == [] then 0 else CountMissing(docs[..|docs| - 1]) + (if docs[|docs| - 1].found then 0 else 1)
  }

  /** The found entries, in response order. */
  function FoundDocs(docs: seq<MgetDoc>): (r: seq<MgetDoc>)
    ensures |r| <= |docs|
  {
    if docs == [] then []
    else FoundDocs(docs[..|docs| - 1]) + (if docs[|docs| - 1].found then [docs[|docs| - 1]] else [])
  }

  /** Every returned entry is counted as missing or kept as found, and every kept one was found. */
  lemma {:induction false} MissingPlusFound(docs: seq<MgetDoc>)
    ensures CountMissing(docs) + |FoundDocs(docs)| == |docs|
    ensures forall k :: 0 <= k < |FoundDocs(docs)| ==> FoundDocs(docs)[k].found && FoundDocs(docs)[k] in docs
  {
    if docs != [] {
      MissingPlusFound(docs[..|docs| - 1]);
    }
  }

  lemma {:induction false} MgetAppend(a: seq<MgetDoc>, b: seq<MgetDoc>)
    ensures CountMissing(a + b) == CountMissing(a) + CountMissing(b)
    ensures FoundDocs(a + b) == FoundDocs(a) + FoundDocs(b)
    decreases |b|
  {
    if b != [] {
      var n := |b| - 1;
      MgetAppend(a, b[..n]);
      assert (a + b)[..|a + b| - 1] == a + b[..n];
      assert (a + b)[|a + b| - 1] == b[n];
    } else {
      assert a + b == a;
    }
  }

  /** The responses of the `mget` calls, one per chunk. */
  function Responses(chunks: seq<seq<string>>, mget: seq<string> -> seq<MgetDoc>): (r: seq<seq<MgetDoc>>)
    ensures |r| == |chunks|
  {
    seq(|chunks|, i requires 0 <= i < |chunks| => mget(chunks[i]))
  }

  /** All entries the `mget` calls return. `range(0, n, size)` is empty for a negative size. */
  function MgetDocs(docIds: seq<string>, mgetSize: int, mget: seq<string> -> seq<MgetDoc>): seq<MgetDoc>
    requires mgetSize != 0
  {
    if mgetSize < 0 then [] else Flatten(Responses(Chunks(docIds, mgetSize), mget))
  }

  /** The loop over one response. */
  method AbsorbResponse(missing: nat, found: seq<MgetDoc>, resp: seq<MgetDoc>)
    returns (missing': nat, found': seq<MgetDoc>)
    ensures missing' == missing + CountMissing(resp) && found' == found + FoundDocs(resp)
  {
    missing', found' := missing, found;
    for j := 0 to |resp|
      invariant missing' == missing + CountMissing(resp[..j]) && found' == found + FoundDocs(resp[..j])
    {
      assert resp[..j + 1][..j] == resp[..j];
      if !resp[j].found {
        missing' := missing' + 1;
        continue;
      }
      found' := found' + [resp[j]];
    }
    assert resp[..|resp|] == resp;
  }

  /**
   * `fetch_clean_text_by_ids`: one `mget` per chunk of ids; entries not found are counted,
   * found ones kept in response order. A chunk size of 0 raises in `range`.
   */
  method FetchCleanTextByIds(docIds: seq<string>, mgetSize: int, mget: seq<string> -> seq<MgetDoc>)
    returns (missing: nat, found: seq<MgetDoc>)
    requires mgetSize != 0
    ensures missing == CountMissing(MgetDocs(docIds, mgetSize, mget))
    ensures found == FoundDocs(MgetDocs(docIds, mgetSize, mget))
  {
    missing, found := 0, [];
    if mgetSize < 0 {
      return;
    }
    var chunks := Chunks(docIds, mgetSize);
    var resps := Responses(chunks, mget);
    for c := 0 to |chunks|
      invariant missing == CountMissing(Flatten(resps[..c])) && found == FoundDocs(Flatten(resps[..c]))
    {
      var resp := mget(chunks[c]);
      assert resps[..c + 1] == resps[..c] + [resp];
      FlattenAppend(resps[..c], resp);
      MgetAppend(Flatten(resps[..c]), resp);
      missing, found := AbsorbResponse(missing, found, resp);
    }
    assert resps[..|chunks|] == resps;
  }

  datatype IdsReport = IdsReport(inputIds: nat, missing: nat, totals: Totals)

  /** A found `mget` entry as a text to predict. */
  function AsScanDoc(d: MgetDoc): ScanDoc { ScanDoc(d.id, d.cleanText) }

  /**
   * `predict_issue_keyword_ids`: fetch the clean texts of the ids, then run the prediction
   * loop over the found ones.
   */
  method PredictIssueKeywordIds(docIds: seq<string>, batchSize: int, mgetSize: int,
                                mget: seq<string> -> seq<MgetDoc>, classify: string -> string, updateOk: string -> bool)
    returns (report: IdsReport)
    requires mgetSize != 0
    ensures report.inputIds == |docIds|
    ensures report.missing + report.totals.read == |MgetDocs(docIds, mgetSize, mget)|
    ensures report.totals.read == report.totals.empty + report.totals.updated + report.totals.failed
  {
    var missing, found := FetchCleanTextByIds(docIds, mgetSize, mget);
    MissingPlusFound(MgetDocs(docIds, mgetSize, mget));
    var docs := seq(|found|, i requires 0 <= i < |found| => AsScanDoc(found[i]));
    var totals, batches := PredictLoop(docs, batchSize, classify, updateOk);
    ReadIsEmptyPlusSent(docs);
    report := IdsReport(|docIds|, missing, totals);
  }

  /**
   * With a positive chunk size the `mget` calls cover the ids exactly once, in order, in
   * chunks of at most `mget_size`.
   */
  lemma MgetCoversIds(docIds: seq<string>, mgetSize: int)
    requires mgetSize > 0
    ensures Flatten(Chunks(docIds, mgetSize)) == docIds
    ensures forall k :: 0 <= k < |Chunks(docIds, mgetSize)| ==> 0 < |Chunks(docIds, mgetSize)[k]| <= mgetSize
  {
    ChunksProperties(docIds, mgetSize);
  }

  // ---------------------------------------------------------------------------------------
  // find_missing_keywords

  /**
   * The window `find_missing_keywords` searches for a `YYYY-MM-DD` date: the same one-day
   * window, midnight to midnight in UTC+09:00, as the analyzer's daily run. The year is at
   * least 1000 so that `%Y` writes four digits.
   */
  function MissingKeywordsWindow(date: Date): (w: (string, string))
    requires Valid(date) && 1000 <= date.year < 9999
  {
    (IsoDate(date) + "T00:00:00+09:00", IsoDate(NextDay(date)) + "T00:00:00+09:00")
  }

  lemma MissingKeywordsWindowOneDay(date: Date)
    requires Valid(date) && 1000 <= date.year < 9999
    ensures MissingKeywordsWindow(date) == (SubKeywords.StartAt(date), SubKeywords.EndAt(date))
    ensures var end := MissingKeywordsWindow(date).1;
      IsIsoShape(end[..10]) && ParseIsoDate(end[..10]) == NextDay(date)
  {
    SubKeywords.WindowIsOneDay(date);
  }
}
