/**
 * The batch side of the clean-text builder: classifying each source article, buffering the
 * derived records, flushing them in bulk create batches and tallying the per-item statuses.
 * The search index is replaced by the sequence of documents it returns and by the per-item
 * results the bulk helper yields.
 */
module CleanTextBuild {
  import opened Text
  import opened CleanText

  datatype CleanDoc = CleanDoc(id: string, date: string, cleanText: string)

  /** A `create` action of the bulk request. */
  datatype CreateAction = CreateAction(index: string, id: string, date: string, cleanText: string)

  /** The operation entry of one bulk result (the first of create/index/update/delete present). */
  datatype OpEntry = OpEntry(status: Option<int>, id: Option<string>)

  /** One `(ok, item)` pair yielded by the bulk helper. */
  datatype BulkItem = BulkItem(ok: bool, op: Option<OpEntry>)

  datatype Outcome = Created | Conflict | OtherError

  datatype FailedItem = FailedItem(id: Option<string>, status: Option<int>)

  datatype BulkSummary = BulkSummary(created: nat, conflict: nat, otherError: nat, failedItems: seq<FailedItem>)

  function StatusOf(item: BulkItem): Option<int> {
    if item.op.Some? then item.op.value.status else None
  }

  /** 201 Created and 409 Conflict (sections 15.3.2 and 15.5.10 of RFC 9110); anything else is an error. */
  function Classify(item: BulkItem): (o: Outcome)
  {
    if StatusOf(item) == Some(201) then Created
    else if StatusOf(item) == Some(409) then Conflict
    else OtherError
  }

  function FailureOf(item: BulkItem): FailedItem {
    FailedItem(if item.op.Some? then item.op.value.id else None, StatusOf(item))
  }

  /** Number of results with outcome `o`. */
  function CountOutcome(items: seq<BulkItem>, o: Outcome): (n: nat)
    ensures n <= |items|
  {
    if items == [] then 0
    else CountOutcome(items[..|items| - 1], o) + (if Classify(items[|items| - 1]) == o then 1 else 0)
  }

  /** The failure sample: error results in order, collected while fewer than `maxFail` are held. */
  function FailedSample(items: seq<BulkItem>, maxFail: int): seq<FailedItem>
  {
    if items == [] then []
    else
      var prev := FailedSample(items[..|items| - 1], maxFail);
      var last := items[|items| - 1];
      if Classify(last) == OtherError && |prev| < maxFail then prev + [FailureOf(last)] else prev
  }

  function Tally(items: seq<BulkItem>, maxFail: int): BulkSummary {
    BulkSummary(CountOutcome(items, Created), CountOutcome(items, Conflict),
                CountOutcome(items, OtherError), FailedSample(items, maxFail))
  }

  function ActionsFor(items: seq<CleanDoc>): (actions: seq<CreateAction>)
    ensures |actions| == |items|
    ensures forall i :: 0 <= i < |items| ==>
      actions[i] == CreateAction(CleanIndex, items[i].id, items[i].date, items[i].cleanText)
  {
    seq(|items|, i requires 0 <= i < |items| =>
      CreateAction(CleanIndex, items[i].id, items[i].date, items[i].cleanText))
  }

  /**
   * Bulk-create the items, given the results the bulk helper yields for them. An empty input
   * sends nothing and reports zeros; otherwise one create action per item is sent and the
   * results are tallied by status alone.
   */
  method BulkCreateCleanText(items: seq<CleanDoc>, results: seq<BulkItem>, maxFailCollect: int)
    returns (actions: seq<CreateAction>, r: BulkSummary)
    ensures items == [] ==> actions == [] && r == BulkSummary(0, 0, 0, [])
    ensures items != [] ==> actions == ActionsFor(items) && r == Tally(results, maxFailCollect)
  {
    if items == [] {
      return [], BulkSummary(0, 0, 0, []);
    }
    actions := [];
    for i := 0 to |items|
      invariant actions == ActionsFor(items[..i])
    {
      actions := actions + [CreateAction(CleanIndex, items[i].id, items[i].date, items[i].cleanText)];
    }
    assert items[..|items|] == items;
    var created, conflict, otherError := 0, 0, 0;
    var failed: seq<FailedItem> := [];
    for i := 0 to |results|
      invariant created == CountOutcome(results[..i], Created)
      invariant conflict == CountOutcome(results[..i], Conflict)
      invariant otherError == CountOutcome(results[..i], OtherError)
      invariant failed == FailedSample(results[..i], maxFailCollect)
    {
      assert results[..i + 1][..i] == results[..i];
      var item := results[i];
      var status := StatusOf(item);
      if status == Some(201) {
        created := created + 1;
      } else if status == Some(409) {
        conflict := conflict + 1;
      } else {
        otherError := otherError + 1;
        if |failed| < maxFailCollect {
          failed := failed + [FailureOf(item)];
        }
      }
    }
    assert results[..|results|] == results;
    r := BulkSummary(created, conflict, otherError, failed);
  }

  /** Every result lands in exactly one of the three outcomes. */
  lemma {:induction false} TallyTotal(items: seq<BulkItem>)
    ensures CountOutcome(items, Created) + CountOutcome(items, Conflict) + CountOutcome(items, OtherError) == |items|
  {
    if items != [] {
      TallyTotal(items[..|items| - 1]);
    }
  }

  /** The failure sample holds the first min(otherError, maxFail) error results. */
  lemma {:induction false} FailedSampleBound(items: seq<BulkItem>, maxFail: int)
    ensures |FailedSample(items, maxFail)| == Min(CountOutcome(items, OtherError), Max(maxFail, 0))
  {
    if items != [] {
      FailedSampleBound(items[..|items| - 1], maxFail);
    }
  }

  function Min(a: int, b: int): int { if a <= b then a else b }
  function Max(a: int, b: int): int { if a >= b then a else b }

  /** The `ok` flag plays no part: results with the same operation entries tally alike. */
  lemma {:induction false} TallyIgnoresOk(a: seq<BulkItem>, b: seq<BulkItem>, maxFail: int)
    requires |a| == |b| && forall i :: 0 <= i < |a| ==> a[i].op == b[i].op
    ensures Tally(a, maxFail) == Tally(b, maxFail)
  {
    if a != [] {
      TallyIgnoresOk(a[..|a| - 1], b[..|b| - 1], maxFail);
    }
  }

  lemma {:induction false} CountOutcomeAppend(a: seq<BulkItem>, b: seq<BulkItem>, o: Outcome)
    ensures CountOutcome(a + b, o) == CountOutcome(a, o) + CountOutcome(b, o)
    decreases |b|
  {
    if b == [] {
      assert a + b == a;
    } else {
      assert (a + b)[..|a + b| - 1] == a + b[..|b| - 1];
      CountOutcomeAppend(a, b[..|b| - 1], o);
    }
  }

  // ---------------------------------------------------------------------------------------
  // Building clean_text for a published_at range

  datatype SourceDoc = SourceDoc(id: string, publishedAt: Option<string>, title: Option<string>, body: Option<string>)

  /** Python truthiness of an optional string. */
  predicate Present(s: Option<string>) { s.Some? && s.value != "" }

  /** Empty or whitespace-only, so that it strips to "". */
  predicate Blank(s: string) { AllChars(s, PySpace) }

  function OrEmpty(s: Option<string>): string { if s.Some? then s.value else "" }

  datatype Skip = SkipMissingPublishedAt | SkipNoContent | SkipEmptyAfterNormalize

  /** What the range builder does with one article; the checks run in the order of `Skip`. */
  datatype Verdict = Skipped(why: Skip) | Derived(doc: CleanDoc)

  /**
   * The text normaliser the builders call. The builders are stated for any normaliser; the
   * one they run is `CleanText.NormalizeText` (see `TriageNormalized`).
   */
  type Normaliser = (string, string) -> string

  /** The range builder's checks on one article, in order, with `norm` applied to the stripped title and body. */
  function Triage(d: SourceDoc, norm: Normaliser): Verdict
  {
    var t := PyStrip(OrEmpty(d.title));
    var b := PyStrip(OrEmpty(d.body));
    if !Present(d.publishedAt) then Skipped(SkipMissingPublishedAt)
    else if t == "" && b == "" then Skipped(SkipNoContent)
    else
      var cleaned := norm(t, b);
      if cleaned == "" then Skipped(SkipEmptyAfterNormalize)
      else Derived(CleanDoc(d.id, d.publishedAt.value, cleaned))
  }

  /** Which check an article fails first, or the record it yields. */
  lemma TriageCases(d: SourceDoc, norm: Normaliser)
    ensures Triage(d, norm) == Skipped(SkipMissingPublishedAt) <==> !Present(d.publishedAt)
    ensures Triage(d, norm) == Skipped(SkipNoContent) <==>
      Present(d.publishedAt) && Blank(OrEmpty(d.title)) && Blank(OrEmpty(d.body))
    ensures Triage(d, norm) == Skipped(SkipEmptyAfterNormalize) <==>
      Present(d.publishedAt) && !(Blank(OrEmpty(d.title)) && Blank(OrEmpty(d.body)))
      && norm(PyStrip(OrEmpty(d.title)), PyStrip(OrEmpty(d.body))) == ""
    ensures Triage(d, norm).Derived? ==>
      Triage(d, norm).doc == CleanDoc(d.id, d.publishedAt.value, norm(PyStrip(OrEmpty(d.title)), PyStrip(OrEmpty(d.body))))
  {
  }

  /**
   * With the real normaliser, a derived record carries the normalised raw title and body,
   * which is a non-empty well-formed clean text.
   */
  lemma TriageNormalized(d: SourceDoc)
    ensures Triage(d, NormalizeText).Derived? ==>
      Triage(d, NormalizeText).doc.cleanText == NormalizeText(OrEmpty(d.title), OrEmpty(d.body))
      && Triage(d, NormalizeText).doc.cleanText != ""
      && WellFormed(Triage(d, NormalizeText).doc.cleanText)
  {
    var v := Triage(d, NormalizeText);
    if v.Derived? {
      var t := PyStrip(OrEmpty(d.title));
      var b := PyStrip(OrEmpty(d.body));
      assert v.doc.cleanText == NormalizeText(t, b);
      NormalizeTextStripped(OrEmpty(d.title), OrEmpty(d.body));
      NormalizeTextWellFormed(t, b);
    }
  }

  /** The verdict on each article, in reading order. */
  function Verdicts(docs: seq<SourceDoc>, norm: Normaliser): (vs: seq<Verdict>)
    ensures |vs| == |docs| && forall i :: 0 <= i < |docs| ==> vs[i] == Triage(docs[i], norm)
  {
    seq(|docs|, i requires 0 <= i < |docs| => Triage(docs[i], norm))
  }

  /** The records carried by the verdicts, in order. */
  function DerivedOf(vs: seq<Verdict>): seq<CleanDoc> {
    if vs == [] then []
    else DerivedOf(vs[..|vs| - 1]) + (if vs[|vs| - 1].Derived? then [vs[|vs| - 1].doc] else [])
  }

  /** The record a verdict carries, if any. */
  function RecordOf(v: Verdict): Option<CleanDoc> {
    if v.Derived? then Some(v.doc) else None
  }

  /** The present values, in order. */
  function Somes<T>(xs: seq<Option<T>>): (r: seq<T>)
    ensures |r| <= |xs|
  {
    if xs == [] then []
    else Somes(xs[..|xs| - 1]) + (if xs[|xs| - 1].Some? then [xs[|xs| - 1].value] else [])
  }

  lemma {:induction false} DerivedOfSomes(vs: seq<Verdict>, os: seq<Option<CleanDoc>>)
    requires |vs| == |os| && forall i :: 0 <= i < |vs| ==> os[i] == RecordOf(vs[i])
    ensures Somes(os) == DerivedOf(vs)
  {
    if vs != [] {
      DerivedOfSomes(vs[..|vs| - 1], os[..|os| - 1]);
    }
  }

  function DerivedDocs(docs: seq<SourceDoc>, norm: Normaliser): seq<CleanDoc> {
    DerivedOf(Verdicts(docs, norm))
  }

  function CountSkipped(vs: seq<Verdict>, why: Skip): nat {
    if vs == [] then 0
    else CountSkipped(vs[..|vs| - 1], why) + (if vs[|vs| - 1] == Skipped(why) then 1 else 0)
  }

  /** The stripped body is empty; noted whatever else happens to the article. */
  predicate NoBody(d: SourceDoc) { PyStrip(OrEmpty(d.body)) == "" }

  /** An article has no body exactly when its body is missing, empty or whitespace-only. */
  lemma NoBodyBlank(d: SourceDoc)
    ensures NoBody(d) <==> Blank(OrEmpty(d.body))
  {
  }

  function CountNoBody(docs: seq<SourceDoc>): nat {
    if docs == [] then 0
    else CountNoBody(docs[..|docs| - 1]) + (if NoBody(docs[|docs| - 1]) then 1 else 0)
  }

  /** Every article read lands in exactly one skip counter or among the derived records. */
  lemma {:induction false} TriageTotal(vs: seq<Verdict>)
    ensures CountSkipped(vs, SkipMissingPublishedAt) + CountSkipped(vs, SkipNoContent)
      + CountSkipped(vs, SkipEmptyAfterNormalize) + |DerivedOf(vs)| == |vs|
  {
    if vs != [] {
      var init, last := vs[..|vs| - 1], vs[|vs| - 1];
      TriageTotal(init);
      var one := if last.Derived? then 1 else 0;
      assert |DerivedOf(vs)| == |DerivedOf(init)| + one;
      match last
      case Derived(_) =>
      case Skipped(SkipMissingPublishedAt) =>
      case Skipped(SkipNoContent) =>
      case Skipped(SkipEmptyAfterNormalize) =>
    }
  }

  lemma {:induction false} DerivedOfPrefix(vs: seq<Verdict>, i: nat)
    requires i <= |vs|
    ensures |DerivedOf(vs[..i])| <= |DerivedOf(vs)|
    decreases |vs| - i
  {
    if i < |vs| {
      DerivedOfPrefix(vs, i + 1);
      assert vs[..i + 1][..i] == vs[..i];
    } else {
      assert vs[..i] == vs;
    }
  }

  /** The effective batch size: a flush happens as soon as the buffer holds this many records. */
  function FlushSize(batchSize: int): nat { if batchSize < 1 then 1 else batchSize }

  /** Batches of exactly `size` records, except a shorter non-empty last one. */
  predicate Batched<T>(batches: seq<seq<T>>, size: nat) {
    (forall k :: 0 <= k < |batches| - 1 ==> |batches[k]| == size)
    && (batches != [] ==> 0 < |batches[|batches| - 1]| <= size)
  }

  /** Full batches and a shorter buffer, sent last when it is not empty, make a batching. */
  lemma LastBatch<T>(batches: seq<seq<T>>, buffer: seq<T>, size: nat)
    requires forall k :: 0 <= k < |batches| ==> |batches[k]| == size
    requires |buffer| < size
    ensures Batched(batches, size) && (buffer != [] ==> Batched(batches + [buffer], size))
  {
    if buffer != [] {
      var b := batches + [buffer];
      forall k | 0 <= k < |b| - 1 ensures |b[k]| == size {
        assert b[k] == batches[k];
      }
    }
  }

  datatype RangeReport = RangeReport(
    totalRead: nat, totalBuffered: nat,
    skippedMissingPublishedAt: nat, skippedNoContent: nat, skippedEmptyAfterNormalize: nat,
    notedNoBody: nat, failedNormalizeException: nat,
    totalCreated: nat, totalConflict: nat, totalOtherError: nat,
    newsInRange: nat, cleanInRange: nat, missingClean: nat)

  /** Per-article counters of the range builder. */
  datatype Counters = Counters(read: nat, missingPublishedAt: nat, noContent: nat, emptyAfterNormalize: nat, noBody: nat)

  function CountersOf(docs: seq<SourceDoc>, vs: seq<Verdict>): Counters {
    Counters(|docs|, CountSkipped(vs, SkipMissingPublishedAt), CountSkipped(vs, SkipNoContent),
             CountSkipped(vs, SkipEmptyAfterNormalize), CountNoBody(docs))
  }

  /** The counters after one more article with verdict `v` and (un)empty body. */
  function Bump(c: Counters, v: Verdict, noBody: bool): Counters {
    Counters(c.read + 1,
      c.missingPublishedAt + (if v == Skipped(SkipMissingPublishedAt) then 1 else 0),
      c.noContent + (if v == Skipped(SkipNoContent) then 1 else 0),
      c.emptyAfterNormalize + (if v == Skipped(SkipEmptyAfterNormalize) then 1 else 0),
      c.noBody + (if noBody then 1 else 0))
  }

  /** Reading article `i` moves the counters and the derived records by that article alone. */
  lemma CountersStep(docs: seq<SourceDoc>, vs: seq<Verdict>, i: nat)
    requires i < |docs| == |vs|
    ensures CountersOf(docs[..i + 1], vs[..i + 1])
      == Bump(CountersOf(docs[..i], vs[..i]), vs[i], NoBody(docs[i]))
    ensures DerivedOf(vs[..i + 1]) == DerivedOf(vs[..i]) + Somes([RecordOf(vs[i])])
  {
    assert [RecordOf(vs[i])][..0] == [];
    assert docs[..i + 1][..i] == docs[..i];
    assert vs[..i + 1][..i] == vs[..i];
  }

  /**
   * Read one article: note an empty body, then run the checks in order and count the first
   * that fails, or derive its clean_text record.
   */
  method ReadDoc(d: SourceDoc, norm: Normaliser, c: Counters) returns (v: Verdict, c': Counters)
    ensures v == Triage(d, norm)
    ensures c' == Bump(c, v, NoBody(d))
  {
    c' := c.(read := c.read + 1);
    var t := PyStrip(OrEmpty(d.title));
    var b := PyStrip(OrEmpty(d.body));
    if b == "" {
      c' := c'.(noBody := c'.noBody + 1);
    }
    if !Present(d.publishedAt) {
      return Skipped(SkipMissingPublishedAt), c'.(missingPublishedAt := c'.missingPublishedAt + 1);
    }
    if t == "" && b == "" {
      return Skipped(SkipNoContent), c'.(noContent := c'.noContent + 1);
    }
    var cleaned := norm(t, b);
    if cleaned == "" {
      return Skipped(SkipEmptyAfterNormalize), c'.(emptyAfterNormalize := c'.emptyAfterNormalize + 1);
    }
    return Derived(CleanDoc(d.id, d.publishedAt.value, cleaned)), c';
  }

  /** Running bulk totals: the results of the records flushed so far, tallied by outcome. */
  datatype Totals = Totals(created: nat, conflict: nat, otherError: nat)

  function TotalsOf(results: seq<BulkItem>): Totals {
    Totals(CountOutcome(results, Created), CountOutcome(results, Conflict), CountOutcome(results, OtherError))
  }

  /** Send the buffer as one bulk create batch and add its tally to the running totals. */
  method Flush(buffer: seq<CleanDoc>, batches: seq<seq<CleanDoc>>, results: seq<BulkItem>, totals: Totals)
    returns (batches': seq<seq<CleanDoc>>, totals': Totals)
    requires buffer != [] && |Flatten(batches)| + |buffer| <= |results|
    requires totals == TotalsOf(results[..|Flatten(batches)|])
    ensures batches' == batches + [buffer] && Flatten(batches') == Flatten(batches) + buffer
    ensures totals' == TotalsOf(results[..|Flatten(batches')|])
  {
    var lo := |Flatten(batches)|;
    var chunk := results[lo..lo + |buffer|];
    var _, r := BulkCreateCleanText(buffer, chunk, 50);
    CountOutcomeAppend(results[..lo], chunk, Created);
    CountOutcomeAppend(results[..lo], chunk, Conflict);
    CountOutcomeAppend(results[..lo], chunk, OtherError);
    assert results[..lo] + chunk == results[..lo + |buffer|];
    totals' := Totals(totals.created + r.created, totals.conflict + r.conflict, totals.otherError + r.otherError);
    FlattenAppend(batches, buffer);
    batches' := batches + [buffer];
  }

  /**
   * Append a derived record to the buffer and flush the buffer as soon as it holds
   * `batchSize` records; a skipped article changes nothing.
   */
  /**
   * Between flushes: full batches sent, a buffer shorter than a batch, and the totals of the
   * bulk results of the records sent so far.
   */
  predicate Pending(batches: seq<seq<CleanDoc>>, buffer: seq<CleanDoc>, size: nat, results: seq<BulkItem>, totals: Totals) {
    |buffer| < size && (forall k :: 0 <= k < |batches| ==> |batches[k]| == size)
    && |Flatten(batches)| <= |results| && totals == TotalsOf(results[..|Flatten(batches)|])
  }

  method Absorb(rec: Option<CleanDoc>, batchSize: int, buffer: seq<CleanDoc>, batches: seq<seq<CleanDoc>>,
                results: seq<BulkItem>, totals: Totals)
    returns (buffer': seq<CleanDoc>, batches': seq<seq<CleanDoc>>, totals': Totals)
    requires Pending(batches, buffer, FlushSize(batchSize), results, totals)
    requires |Flatten(batches)| + |buffer| + |Somes([rec])| <= |results|
    ensures Flatten(batches') + buffer' == Flatten(batches) + buffer + Somes([rec])
    ensures Pending(batches', buffer', FlushSize(batchSize), results, totals')
  {
    buffer', batches', totals' := buffer, batches, totals;
    if rec.Some? {
      buffer' := buffer + [rec.value];
      if |buffer'| >= batchSize {
        assert |buffer'| == FlushSize(batchSize);
        batches', totals' := Flush(buffer', batches, results, totals);
        assert Flatten(batches') + [] == Flatten(batches) + buffer + [rec.value];
        buffer' := [];
      }
    }
  }

  /**
   * Build clean_text for the articles of a published_at range. `docs` are the articles the
   * range search returns, `results` the bulk result of each derived record in order, and
   * `newsInRange`/`cleanInRange` the two independent range counts taken before and after.
   */
  method BuildCleanTextRange(docs: seq<SourceDoc>, norm: Normaliser, results: seq<BulkItem>, batchSize: int,
                             newsInRange: nat, cleanInRange: nat)
    returns (batches: seq<seq<CleanDoc>>, rep: RangeReport)
    requires |results| == |DerivedDocs(docs, norm)|
    ensures Flatten(batches) == DerivedDocs(docs, norm)
    ensures Batched(batches, FlushSize(batchSize))
    ensures rep.totalRead == |docs| && rep.totalBuffered == |DerivedDocs(docs, norm)|
    ensures rep.skippedMissingPublishedAt == CountSkipped(Verdicts(docs, norm), SkipMissingPublishedAt)
    ensures rep.skippedNoContent == CountSkipped(Verdicts(docs, norm), SkipNoContent)
    ensures rep.skippedEmptyAfterNormalize == CountSkipped(Verdicts(docs, norm), SkipEmptyAfterNormalize)
    ensures rep.notedNoBody == CountNoBody(docs)
    ensures rep.failedNormalizeException == 0
    ensures rep.skippedMissingPublishedAt + rep.skippedNoContent + rep.skippedEmptyAfterNormalize
      + rep.failedNormalizeException + rep.totalBuffered == rep.totalRead
    ensures rep.totalCreated == CountOutcome(results, Created)
    ensures rep.totalConflict == CountOutcome(results, Conflict)
    ensures rep.totalOtherError == CountOutcome(results, OtherError)
    ensures rep.totalCreated + rep.totalConflict + rep.totalOtherError == rep.totalBuffered
    ensures rep.newsInRange == newsInRange && rep.cleanInRange == cleanInRange
    ensures rep.missingClean == Max(0, newsInRange - cleanInRange)
  {
    var counters, buffered, totals;
    batches, counters, buffered, totals := ReadRange(docs, norm, results, batchSize);
    TriageTotal(Verdicts(docs, norm));
    TallyTotal(results);
    rep := RangeReport(counters.read, buffered, counters.missingPublishedAt, counters.noContent,
                       counters.emptyAfterNormalize, counters.noBody, 0,
                       totals.created, totals.conflict, totals.otherError,
                       newsInRange, cleanInRange, Max(0, newsInRange - cleanInRange));
  }

  /** The scan loop of the range build and the last flush: the batches sent, the counters and the bulk totals. */
  method ReadRange(docs: seq<SourceDoc>, norm: Normaliser, results: seq<BulkItem>, batchSize: int)
    returns (batches: seq<seq<CleanDoc>>, counters: Counters, buffered: nat, totals: Totals)
    requires |results| == |DerivedDocs(docs, norm)|
    ensures Flatten(batches) == DerivedDocs(docs, norm) && Batched(batches, FlushSize(batchSize))
    ensures counters == CountersOf(docs, Verdicts(docs, norm)) && buffered == |DerivedDocs(docs, norm)|
    ensures totals == TotalsOf(results)
  {
    ghost var vs := Verdicts(docs, norm);
    batches := [];
    var buffer: seq<CleanDoc> := [];
    counters := Counters(0, 0, 0, 0, 0);
    buffered := 0;
    totals := Totals(0, 0, 0);
    for i := 0 to |docs|
      invariant Flatten(batches) + buffer == DerivedOf(vs[..i])
      invariant Pending(batches, buffer, FlushSize(batchSize), results, totals)
      invariant counters == CountersOf(docs[..i], vs[..i])
      invariant buffered == |DerivedOf(vs[..i])|
    {
      CountersStep(docs, vs, i);
      DerivedOfPrefix(vs, i + 1);
      var v;
      v, counters := ReadDoc(docs[i], norm, counters);
      buffer, batches, totals := Absorb(RecordOf(v), batchSize, buffer, batches, results, totals);
      if v.Derived? {
        buffered := buffered + 1;
      }
    }
    assert vs[..|docs|] == vs && docs[..|docs|] == docs;
    LastBatch(batches, buffer, FlushSize(batchSize));
    if buffer != [] {
      batches, totals := Flush(buffer, batches, results, totals);
    }
    assert results[..|Flatten(batches)|] == results;
  }

  // ---------------------------------------------------------------------------------------
  // Building clean_text for a list of ids

  /**
   * The by-ids builder's checks on one fetched article: a missing or empty published_at, or
   * a title and a body that are both missing or empty (not stripped), skip it; otherwise the
   * raw title and body are normalised and an empty result skips it too.
   */
  function DeriveByIds(d: SourceDoc, norm: Normaliser): Option<CleanDoc> {
    if !Present(d.publishedAt) || (!Present(d.title) && !Present(d.body)) then None
    else
      var cleaned := norm(OrEmpty(d.title), OrEmpty(d.body));
      if cleaned == "" then None else Some(CleanDoc(d.id, d.publishedAt.value, cleaned))
  }

  function ByIdsRecords(hits: seq<SourceDoc>, norm: Normaliser): (os: seq<Option<CleanDoc>>)
    ensures |os| == |hits| && forall i :: 0 <= i < |hits| ==> os[i] == DeriveByIds(hits[i], norm)
  {
    seq(|hits|, i requires 0 <= i < |hits| => DeriveByIds(hits[i], norm))
  }

  /**
   * With the real normaliser, the by-ids gate and the range builder's checks derive the same
   * record from an article (whitespace-only fields are skipped by one as "no content" and by
   * the other as "empty after normalize").
   */
  lemma ByIdsAgreesWithRange(d: SourceDoc)
    ensures DeriveByIds(d, NormalizeText) == RecordOf(Triage(d, NormalizeText))
  {
    var title, body := OrEmpty(d.title), OrEmpty(d.body);
    if Present(d.publishedAt) && (Present(d.title) || Present(d.body)) {
      NormalizeTextStripped(title, body);
      if PyStrip(title) == "" && PyStrip(body) == "" {
        NormalizeTextBlank("", "");
      }
    }
  }

  /** Over a whole search response, the by-ids builder derives exactly the range builder's records. */
  lemma ByIdsRecordsAgree(hits: seq<SourceDoc>)
    ensures Somes(ByIdsRecords(hits, NormalizeText)) == DerivedDocs(hits, NormalizeText)
  {
    var os, vs := ByIdsRecords(hits, NormalizeText), Verdicts(hits, NormalizeText);
    forall i | 0 <= i < |hits| ensures os[i] == RecordOf(vs[i]) {
      ByIdsAgreesWithRange(hits[i]);
    }
    DerivedOfSomes(vs, os);
  }

  /**
   * Build clean_text for the given ids. An empty id list returns at once without a search;
   * otherwise `hits` are the articles the ids search returns and `results` the bulk result of
   * each derived record in order.
   */
  method BuildCleanTextByIds(docIds: seq<string>, hits: seq<SourceDoc>, norm: Normaliser,
                             results: seq<BulkItem>, batchSize: int)
    returns (searched: bool, batches: seq<seq<CleanDoc>>, totals: Totals)
    requires |results| == |Somes(ByIdsRecords(hits, norm))|
    ensures searched <==> docIds != []
    ensures docIds == [] ==> batches == [] && totals == Totals(0, 0, 0)
    ensures docIds != [] ==> Flatten(batches) == Somes(ByIdsRecords(hits, norm)) && totals == TotalsOf(results)
    ensures Batched(batches, FlushSize(batchSize))
  {
    if docIds == [] {
      return false, [], Totals(0, 0, 0);
    }
    searched := true;
    batches, totals := SendHits(hits, norm, results, batchSize);
  }

  /** The loop of the by-ids build over the search hits and the last flush: the batches sent and the bulk totals. */
  method SendHits(hits: seq<SourceDoc>, norm: Normaliser, results: seq<BulkItem>, batchSize: int)
    returns (batches: seq<seq<CleanDoc>>, totals: Totals)
    requires |results| == |Somes(ByIdsRecords(hits, norm))|
    ensures Flatten(batches) == Somes(ByIdsRecords(hits, norm)) && totals == TotalsOf(results)
    ensures Batched(batches, FlushSize(batchSize))
  {
    ghost var os := ByIdsRecords(hits, norm);
    batches := [];
    var buffer: seq<CleanDoc> := [];
    totals := Totals(0, 0, 0);
    for i := 0 to |hits|
      invariant Flatten(batches) + buffer == Somes(os[..i])
      invariant Pending(batches, buffer, FlushSize(batchSize), results, totals)
    {
      SomesStep(os, i);
      var rec := DeriveByIds(hits[i], norm);
      assert rec == os[i];
      ghost var sent := Flatten(batches) + buffer;
      buffer, batches, totals := Absorb(rec, batchSize, buffer, batches, results, totals);
      assert Flatten(batches) + buffer == sent + Somes([os[i]]);
    }
    assert os[..|hits|] == os;
    LastBatch(batches, buffer, FlushSize(batchSize));
    if buffer != [] {
      batches, totals := Flush(buffer, batches, results, totals);
    }
    assert results[..|Flatten(batches)|] == results;
  }

  /** One more element of `xs` adds its value, if any, and stays within the whole. */
  lemma SomesStep<T>(xs: seq<Option<T>>, i: nat)
    requires i < |xs|
    ensures Somes(xs[..i + 1]) == Somes(xs[..i]) + Somes([xs[i]])
    ensures |Somes(xs[..i + 1])| <= |Somes(xs)|
  {
    assert xs[..i + 1] == xs[..i] + [xs[i]];
    SomesAppend(xs[..i], xs[i]);
    SomesPrefix(xs, i + 1);
  }

  lemma SomesAppend<T>(xs: seq<Option<T>>, x: Option<T>)
    ensures Somes(xs + [x]) == Somes(xs) + Somes([x])
  {
    assert (xs + [x])[..|xs|] == xs;
    assert [x][..0] == [];
  }

  lemma {:induction false} SomesPrefix<T>(xs: seq<Option<T>>, i: nat)
    requires i <= |xs|
    ensures |Somes(xs[..i])| <= |Somes(xs)|
    decreases |xs| - i
  {
    if i < |xs| {
      SomesPrefix(xs, i + 1);
      assert xs[..i + 1] == xs[..i] + [xs[i]];
      SomesAppend(xs[..i], xs[i]);
    } else {
      assert xs[..i] == xs;
    }
  }
}
