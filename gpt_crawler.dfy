/**
 * The lenient crawler of the economic-term dictionary. A term's detail is saved as soon as
 * the pane shows a non-empty title whose signature differs from the last saved one; there is
 * no check against the listed label, and the texts saved are read again after the wait.
 */
module GptCrawler {
  import opened Text
  import opened WordDic

  // ---------------------------------------------------------------------------------------
  // wait_detail_loaded

  /** The signature `{dt}||{dd[:80]}`. */
  function Sig(dt: string, dd: string): string {
    dt + "||" + Prefix(dd, 80)
  }

  /** The `ready` condition: a non-empty title and a signature different from the previous one. */
  predicate Ready(d: Detail, prevSig: string) {
    d.dt != "" && Sig(d.dt, d.dd) != prevSig
  }

  /**
   * For titles without `|`, equal signatures mean equal titles and equal first 80 characters
   * of the bodies: a detail is taken for the previous one only when it shows the same term
   * with the same opening.
   */
  lemma SigSeparatesBarFreeTitles(dt1: string, dd1: string, dt2: string, dd2: string)
    requires '|' !in dt1 && '|' !in dt2
    ensures Sig(dt1, dd1) == Sig(dt2, dd2) <==> dt1 == dt2 && Prefix(dd1, 80) == Prefix(dd2, 80)
  {
    var x, y := "||" + Prefix(dd1, 80), "||" + Prefix(dd2, 80);
    assert Sig(dt1, dd1) == dt1 + x && Sig(dt2, dd2) == dt2 + y;
    if Sig(dt1, dd1) == Sig(dt2, dd2) {
      SplitAtFirstBar(dt1, x, dt2, y);
      assert Prefix(dd1, 80) == x[2..] && Prefix(dd2, 80) == y[2..];
    }
  }

  /** A title that contains `|` can make a different detail carry the previous signature. */
  lemma SigCollidesOnBarTitles()
    ensures Sig("a|", "|b") == Sig("a", "||b") && Detail("a|", "|b") != Detail("a", "||b")
  {
  }

  /** The detail just saved is stale: it is never ready again against its own signature. */
  lemma StaleNeverReady(d: Detail)
    ensures !Ready(d, Sig(d.dt, d.dd))
  {
  }

  /** `WebDriverWait(...).until(ready)` over the details the pane shows while waiting: the first ready one, or a timeout. */
  function FirstReady(polls: seq<Detail>, prevSig: string): (r: Option<Detail>)
    ensures r.Some? ==> exists i :: 0 <= i < |polls| && polls[i] == r.value && Ready(r.value, prevSig)
                                    && forall j :: 0 <= j < i ==> !Ready(polls[j], prevSig)
    ensures r.None? <==> forall i :: 0 <= i < |polls| ==> !Ready(polls[i], prevSig)
  {
    if polls == [] then None
    else if Ready(polls[0], prevSig) then Some(polls[0])
    else
      var r := FirstReady(polls[1..], prevSig);
      assert forall i :: 1 <= i < |polls| ==> polls[i] == polls[1..][i - 1];
      r
  }

  // ---------------------------------------------------------------------------------------
  // One attempt of crawl_all

  /**
   * What one attempt sees: the details shown while waiting, the texts read at the end of
   * the wait (whose signature is returned), and the texts read again for the row.
   */
  datatype Observation = Observation(polls: seq<Detail>, sigRead: Detail, rowRead: Detail)

  /** The signature an attempt's wait returns. */
  function SigRead(obs: Observation): string {
    Sig(obs.sigRead.dt, obs.sigRead.dd)
  }

  /**
   * One attempt: on a timeout nothing changes and the attempt fails; otherwise the new
   * previous signature is the one read at the end of the wait and the row holds the texts
   * read after it.
   */
  function TryOnce(prevSig: string, obs: Observation): (r: Option<(string, Detail)>)
    ensures r.None? <==> forall i :: 0 <= i < |obs.polls| ==> !Ready(obs.polls[i], prevSig)
    ensures r.Some? ==> r.value.1 == obs.rowRead && r.value.0 == SigRead(obs)
  {
    if FirstReady(obs.polls, prevSig).None? then None
    else Some((SigRead(obs), obs.rowRead))
  }

  /**
   * When the pane does not change after the wait, so that both reads see the first ready
   * detail, the saved row is ready against the previous signature and the new signature is
   * its own, different from the previous one; the same detail is then stale for the next
   * reference.
   */
  lemma StablePaneSaved(prevSig: string, obs: Observation)
    requires FirstReady(obs.polls, prevSig) == Some(obs.sigRead) && obs.rowRead == obs.sigRead
    ensures TryOnce(prevSig, obs).Some?
    ensures var (sig, d) := TryOnce(prevSig, obs).value;
      d == obs.rowRead && Ready(d, prevSig) && sig == Sig(d.dt, d.dd) && sig != prevSig && !Ready(d, sig)
  {
  }

  /**
   * The retry loop for the `i`-th considered reference. `observe(i, attempt)` is what attempt
   * number `attempt` (from 1) sees. A save comes at the first attempt whose wait succeeds; a
   * failure means every wait timed out, and leaves the previous signature alone.
   */
  method ProcessRef(ref: TermRef, i: nat, prevSig: string, observe: (nat, nat) -> Observation, retries: int)
    returns (prevSig': string, entry: RefLog)
    ensures entry.Saved? || entry.Failed?
    ensures entry.Saved? ==>
      1 <= entry.attempts <= retries
      && FirstReady(observe(i, entry.attempts).polls, prevSig).Some?
      && (forall a :: 1 <= a < entry.attempts ==> FirstReady(observe(i, a).polls, prevSig).None?)
      && entry.row == Row(ref.termId, observe(i, entry.attempts).rowRead.dt, observe(i, entry.attempts).rowRead.dd, ref.tab, ref.section)
      && prevSig' == SigRead(observe(i, entry.attempts))
    ensures entry.Failed? ==>
      entry.attempts == (if retries > 0 then retries else 0) && prevSig' == prevSig
      && (forall a :: 1 <= a <= retries ==> FirstReady(observe(i, a).polls, prevSig).None?)
      && entry.failure == Failure(ref.termId, ref.tab, ref.section, ref.labelText, if retries > 0 then TimedOut else NoError)
  {
    prevSig' := prevSig;
    var lastErr := NoError;
    var attempt := 1;
    while attempt <= retries
      invariant 1 <= attempt && (retries >= 1 ==> attempt <= retries + 1) && (retries < 1 ==> attempt == 1)
      invariant forall a :: 1 <= a < attempt ==> FirstReady(observe(i, a).polls, prevSig).None?
      invariant lastErr == (if attempt > 1 then TimedOut else NoError)
      decreases retries - attempt
    {
      var got := TryOnce(prevSig, observe(i, attempt));
      if got.Some? {
        prevSig' := got.value.0;
        var d := got.value.1;
        entry := Saved(Row(ref.termId, d.dt, d.dd, ref.tab, ref.section), attempt);
        return;
      }
      lastErr := TimedOut;
      attempt := attempt + 1;
    }
    entry := Failed(Failure(ref.termId, ref.tab, ref.section, ref.labelText, lastErr), if retries > 0 then retries else 0);
  }

  // ---------------------------------------------------------------------------------------
  // crawl_all

  /** The previous signature after the entries `log`: the one of the last save, or empty before any. */
  function LastSig(log: seq<RefLog>, observe: (nat, nat) -> Observation): string {
    if log == [] then ""
    else
      var n := |log| - 1;
      if log[n].Saved? then SigRead(observe(n, log[n].attempts)) else LastSig(log[..n], observe)
  }

  lemma LastSigAppend(log: seq<RefLog>, e: RefLog, observe: (nat, nat) -> Observation)
    ensures LastSig(log + [e], observe) == if e.Saved? then SigRead(observe(|log|, e.attempts)) else LastSig(log, observe)
  {
    var log' := log + [e];
    assert log'[|log'| - 1] == e;
    assert log'[..|log'| - 1] == log;
  }

  /**
   * What the crawl promises about the `i`-th considered reference, given the signature
   * `prevSig` left by the entries before it: a saved row comes from the first attempt, of at
   * most `retries`, whose wait saw a ready detail, and holds the texts read after that
   * wait; a failure used up every attempt and no wait saw a ready detail.
   */
  ghost predicate EntryOk(e: RefLog, i: nat, prevSig: string, observe: (nat, nat) -> Observation, retries: int) {
    (e.Saved? ==>
      1 <= e.attempts <= retries
      && FirstReady(observe(i, e.attempts).polls, prevSig).Some?
      && (forall a :: 1 <= a < e.attempts ==> FirstReady(observe(i, a).polls, prevSig).None?)
      && Detail(e.row.keyword, e.row.content) == observe(i, e.attempts).rowRead)
    && (e.Failed? ==>
      e.attempts == (if retries > 0 then retries else 0)
      && (forall a :: 1 <= a <= retries ==> FirstReady(observe(i, a).polls, prevSig).None?)
      && e.failure.error == (if retries > 0 then TimedOut else NoError))
  }

  /** Every entry of the log is as promised, each judged against the signature the entries before it left. */
  ghost predicate LogOk(log: seq<RefLog>, observe: (nat, nat) -> Observation, retries: int) {
    forall i :: 0 <= i < |log| ==> EntryOk(log[i], i, LastSig(log[..i], observe), observe, retries)
  }

  lemma LogOkAppend(log: seq<RefLog>, e: RefLog, observe: (nat, nat) -> Observation, retries: int)
    requires LogOk(log, observe, retries) && EntryOk(e, |log|, LastSig(log, observe), observe, retries)
    ensures LogOk(log + [e], observe, retries)
  {
    var log' := log + [e];
    forall i | 0 <= i < |log'| ensures EntryOk(log'[i], i, LastSig(log'[..i], observe), observe, retries) {
      if i < |log| {
        assert log'[..i] == log[..i];
      } else {
        assert log'[..i] == log;
      }
    }
  }

  /** The body of the loop for the `i`-th considered reference, up to the checkpoint write. */
  method CrawlStep(ref: TermRef, i: nat, ghost ckpt: Dict, ghost log: seq<RefLog>, rowsById: Dict, already: set<string>, prevSig: string,
                   done: nat, failures: seq<Failure>, observe: (nat, nat) -> Observation, retries: int)
    returns (entry: RefLog, rowsById': Dict, already': set<string>, prevSig': string, done': nat, failures': seq<Failure>)
    requires Accounted(ckpt, log, rowsById, already, done, failures)
    ensures EntryFits(ref, ckpt, log, entry)
    ensures Accounted(ckpt, log + [entry], rowsById', already', done', failures')
    ensures EntryOk(entry, i, prevSig, observe, retries)
    ensures prevSig' == if entry.Saved? then SigRead(observe(i, entry.attempts)) else prevSig
  {
    rowsById', already', prevSig', done', failures' := rowsById, already, prevSig, done, failures;
    if ref.termId in already {
      entry := Skipped;
      AccountSkipped(ckpt, log, rowsById, already, done, failures);
    } else {
      prevSig', entry := ProcessRef(ref, i, prevSig, observe, retries);
      if entry.Saved? {
        AccountSaved(ckpt, log, rowsById, already, done, failures, entry.row, entry.attempts);
        rowsById' := Put(rowsById, ref.termId, entry.row);
        already' := already + {ref.termId};
        done' := done + 1;
      } else {
        AccountFailed(ckpt, log, rowsById, already, done, failures, entry.failure, entry.attempts);
        failures' := failures + [entry.failure];
      }
    }
  }

  /** What the loop of `crawl_all` keeps after the first `|log|` considered references. */
  ghost predicate CrawlInv(considered: seq<TermRef>, ckpt: Dict, log: seq<RefLog>, rowsById: Dict, already: set<string>,
                           prevSig: string, done: nat, failures: seq<Failure>, saves: seq<Save>,
                           observe: (nat, nat) -> Observation, retries: int, every: int)
  {
    LogFits(considered, ckpt, log)
    && Accounted(ckpt, log, rowsById, already, done, failures)
    && saves == CheckpointSaves(ckpt, log, every)
    && prevSig == LastSig(log, observe)
    && LogOk(log, observe, retries)
  }

  /**
   * Where the crawl stands on the ZeroDivisionError of a zero cadence: it has raised exactly
   * when the cadence is 0 and a row was saved, and then the one saved row is the last entry.
   */
  ghost predicate RaiseState(log: seq<RefLog>, every: int, raised: bool) {
    (raised <==> every == 0 && SavedRows(log) != [])
    && (raised ==> |SavedRows(log)| == 1 && |log| > 0 && log[|log| - 1].Saved?)
  }

  /** One more entry after a crawl that has not raised: it raises exactly at the first saved row of a zero cadence. */
  lemma RaiseStep(log: seq<RefLog>, e: RefLog, every: int)
    requires RaiseState(log, every, false)
    ensures RaiseState(log + [e], every, !e.Skipped? && CadenceRaises(|SavedRows(log + [e])|, every))
  {
    LogAppend(log, e);
  }

  /** One pass of the loop of `crawl_all`: the reference's entry, then the cadence test and a checkpoint write when due. */
  method CrawlOne(considered: seq<TermRef>, ghost ckpt: Dict, log: seq<RefLog>, rowsById: Dict, already: set<string>,
                  prevSig: string, done: nat, failures: seq<Failure>, saves: seq<Save>,
                  observe: (nat, nat) -> Observation, retries: int, every: int)
    returns (entry: RefLog, rowsById': Dict, already': set<string>, prevSig': string, done': nat,
             failures': seq<Failure>, saves': seq<Save>, raised: bool)
    requires |log| < |considered| && RaiseState(log, every, false)
    requires CrawlInv(considered, ckpt, log, rowsById, already, prevSig, done, failures, saves, observe, retries, every)
    ensures CrawlInv(considered, ckpt, log + [entry], rowsById', already', prevSig', done', failures', saves', observe, retries, every)
    ensures RaiseState(log + [entry], every, raised)
    ensures Values(rowsById') == Values(ckpt) + SavedRows(log + [entry]) && done' == |SavedRows(log + [entry])|
  {
    var i := |log|;
    entry, rowsById', already', prevSig', done', failures' :=
      CrawlStep(considered[i], i, ckpt, log, rowsById, already, prevSig, done, failures, observe, retries);
    SavesAppend(ckpt, log, entry, every);
    LogFitsAppend(considered, ckpt, log, entry);
    LastSigAppend(log, entry, observe);
    LogOkAppend(log, entry, observe, retries);
    RaiseStep(log, entry, every);
    raised := !entry.Skipped? && CadenceRaises(done', every);
    saves' := saves;
    if !entry.Skipped? && CheckpointDue(done', every) {
      saves' := saves + [Save(done', Values(rowsById'))];
    }
  }

  /** Before the first reference: nothing logged, the checkpoint's rows and ids, no signature yet. */
  lemma CrawlStart(considered: seq<TermRef>, ckpt: Dict, observe: (nat, nat) -> Observation, retries: int, every: int)
    requires DictValid(ckpt)
    ensures CrawlInv(considered, ckpt, [], ckpt, ckpt.vals.Keys, "", 0, [], [], observe, retries, every)
    ensures RaiseState([], every, false)
  {
    assert SavedRows([]) == [] && SavedIds([]) == {} && FailuresOf([]) == [];
  }

  /** When the loop stops, by the end of the references or by the raise, what the invariant says of the log. */
  lemma CrawlDone(considered: seq<TermRef>, ckpt: Dict, log: seq<RefLog>, rowsById: Dict, already: set<string>,
                  prevSig: string, done: nat, failures: seq<Failure>, saves: seq<Save>,
                  observe: (nat, nat) -> Observation, retries: int, every: int, raised: bool)
    requires CrawlInv(considered, ckpt, log, rowsById, already, prevSig, done, failures, saves, observe, retries, every)
    requires RaiseState(log, every, raised) && (raised || |log| == |considered|)
    ensures LogFits(considered, ckpt, log) && LogOk(log, observe, retries)
    ensures Values(rowsById) == Values(ckpt) + SavedRows(log) && failures == FailuresOf(log)
    ensures done == |SavedRows(log)| && saves == CheckpointSaves(ckpt, log, every)
  {
  }

  /**
   * `crawl_all`: load the checkpoint, then for each of the first `total` references skip it
   * if its id is already saved, else run its attempts, record a row or a failure, and write
   * the checkpoint when the success count is a positive multiple of `checkpointEvery`;
   * write it once more at the end and return its rows and the failures. With
   * `checkpointEvery` 0 the cadence test raises ZeroDivisionError right after the first saved
   * row (`raised`): the crawl stops there and the final checkpoint is not written.
   * `observe(i, attempt)` is what that attempt for the `i`-th considered reference sees. The
   * previous signature each reference is judged against is the one left by the last save
   * before it.
   */
  method CrawlAll(refs: seq<TermRef>, file: CheckpointFile, limit: Option<int>, observe: (nat, nat) -> Observation,
                  retries: int, checkpointEvery: int)
    returns (rows: seq<Row>, failures: seq<Failure>, log: seq<RefLog>, saves: seq<Save>, raised: bool)
    ensures var ckpt, considered := LoadedCheckpoint(file), PyTake(refs, CrawlTotal(limit, |refs|));
      LogFits(considered, ckpt, log)
      && (raised <==> checkpointEvery == 0 && SavedRows(log) != [])
      && (raised ==> |SavedRows(log)| == 1 && |log| > 0 && log[|log| - 1].Saved?)
      && (!raised ==> |log| == |considered|)
      && rows == Values(ckpt) + SavedRows(log) && failures == FailuresOf(log)
      && saves == CheckpointSaves(ckpt, log, checkpointEvery) + (if raised then [] else [Save(|SavedRows(log)|, rows)])
    ensures LogOk(log, observe, retries)
  {
    var ckpt := LoadCheckpoint(file);
    var considered := PyTake(refs, CrawlTotal(limit, |refs|));
    rows, failures, log, saves, raised := CrawlRefs(considered, ckpt, observe, retries, checkpointEvery);
  }

  /** The loop of `crawl_all` over the considered references, from the loaded checkpoint `ckpt`, and the final write. */
  method CrawlRefs(considered: seq<TermRef>, ckpt: Dict, observe: (nat, nat) -> Observation, retries: int, checkpointEvery: int)
    returns (rows: seq<Row>, failures: seq<Failure>, log: seq<RefLog>, saves: seq<Save>, raised: bool)
    requires DictValid(ckpt)
    ensures LogFits(considered, ckpt, log) && RaiseState(log, checkpointEvery, raised)
    ensures !raised ==> |log| == |considered|
    ensures rows == Values(ckpt) + SavedRows(log) && failures == FailuresOf(log)
    ensures saves == CheckpointSaves(ckpt, log, checkpointEvery) + (if raised then [] else [Save(|SavedRows(log)|, rows)])
    ensures LogOk(log, observe, retries)
  {
    var rowsById := ckpt;
    var already := ckpt.vals.Keys;
    var prevSig := "";
    var done: nat := 0;
    failures, log, saves, raised := [], [], [], false;
    var i := 0;
    CrawlStart(considered, ckpt, observe, retries, checkpointEvery);
    while i < |considered| && !raised
      invariant 0 <= i <= |considered| && |log| == i && RaiseState(log, checkpointEvery, raised)
      invariant CrawlInv(considered, ckpt, log, rowsById, already, prevSig, done, failures, saves, observe, retries, checkpointEvery)
    {
      var entry;
      entry, rowsById, already, prevSig, done, failures, saves, raised :=
        CrawlOne(considered, ckpt, log, rowsById, already, prevSig, done, failures, saves, observe, retries, checkpointEvery);
      log := log + [entry];
      i := i + 1;
    }
    CrawlDone(considered, ckpt, log, rowsById, already, prevSig, done, failures, saves, observe, retries, checkpointEvery, raised);
    rows := Values(rowsById);
    if !raised {
      saves := saves + [Save(done, rows)];
    }
  }
}
