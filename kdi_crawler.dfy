/**
 * The strict crawler of the economic-term dictionary. A term's detail is saved only once the
 * wait has seen a non-empty title matching the listed label, a body of the minimum length,
 * and a signature different from the last saved one, and only if the title read after the
 * wait still matches the label. A title that keeps repeating triggers a page refresh that
 * forgets the last signature.
 */
module KdiCrawler {
  import opened Text
  import opened WordDic

  // ---------------------------------------------------------------------------------------
  // wait_detail_strict

  /** The signature `{_norm(dt)}||{_norm(dd)[:120]}`. */
  function Sig(dt: string, dd: string): string {
    Norm(dt) + "||" + Prefix(Norm(dd), 120)
  }

  /** The `ready` condition: a title, a body of `minLen` characters, a title matching the label, and a new signature. */
  predicate Ready(d: Detail, expected: string, prevSig: string, minLen: int) {
    d.dt != "" && |d.dd| >= minLen && IsKeywordMatch(expected, d.dt) && Sig(d.dt, d.dd) != prevSig
  }

  /** A signature is never empty; details whose normalised titles differ have different signatures. */
  lemma SigSeparatesTitles(dt1: string, dd1: string, dt2: string, dd2: string)
    ensures Sig(dt1, dd1) != ""
    ensures Sig(dt1, dd1) == Sig(dt2, dd2) ==> Norm(dt1) == Norm(dt2)
  {
    var a, b := Norm(dt1), Norm(dt2);
    NormHasNoBar(dt1);
    NormHasNoBar(dt2);
    var x, y := "||" + Prefix(Norm(dd1), 120), "||" + Prefix(Norm(dd2), 120);
    assert Sig(dt1, dd1) == a + x && Sig(dt2, dd2) == b + y;
    if a + x == b + y {
      SplitAtFirstBar(a, x, b, y);
    }
  }

  /**
   * After a detail is saved its signature is the previous one, so the same detail seen again
   * is not ready for any label: a stale pane never verifies. A detail whose normalised title
   * differs from the saved one is ready exactly when its title is non-empty, its body long
   * enough and its title matches the label.
   */
  lemma StaleNeverReady(saved: Detail, d: Detail, expected: string, minLen: int)
    ensures !Ready(saved, expected, Sig(saved.dt, saved.dd), minLen)
    ensures Norm(d.dt) != Norm(saved.dt) ==>
      (Ready(d, expected, Sig(saved.dt, saved.dd), minLen) <==> d.dt != "" && |d.dd| >= minLen && IsKeywordMatch(expected, d.dt))
  {
    SigSeparatesTitles(d.dt, d.dd, saved.dt, saved.dd);
  }

  /** `WebDriverWait(...).until(ready)` over the details the pane shows while waiting: the first ready one, or a timeout. */
  function FirstReady(polls: seq<Detail>, expected: string, prevSig: string, minLen: int): (r: Option<Detail>)
    ensures r.Some? ==> exists i :: 0 <= i < |polls| && polls[i] == r.value && Ready(r.value, expected, prevSig, minLen)
                                    && forall j :: 0 <= j < i ==> !Ready(polls[j], expected, prevSig, minLen)
    ensures r.None? <==> forall i :: 0 <= i < |polls| ==> !Ready(polls[i], expected, prevSig, minLen)
  {
    if polls == [] then None
    else if Ready(polls[0], expected, prevSig, minLen) then Some(polls[0])
    else
      var r := FirstReady(polls[1..], expected, prevSig, minLen);
      assert forall i :: 1 <= i < |polls| ==> polls[i] == polls[1..][i - 1];
      r
  }

  // ---------------------------------------------------------------------------------------
  // One attempt of crawl_all_strict

  /** What one attempt sees: the details shown while waiting, then the texts read after the wait. */
  datatype Observation = Observation(polls: seq<Detail>, after: Detail)

  /** The state carried from attempt to attempt: the last signature, and the repeated-title detector. */
  datatype Scan = Scan(prevSig: string, lastDtNorm: string, sameDtCount: int)

  datatype Attempt = WaitTimedOut | Stuck | Mismatch(dt: string) | Got(detail: Detail)

  /**
   * One attempt: wait, then count a repeated normalised title; refresh when the count reaches
   * the threshold; re-check the title read after the wait against the label; otherwise save.
   */
  function StrictAttempt(s: Scan, expected: string, obs: Observation, minLen: int, threshold: int): (r: (Scan, Attempt))
    ensures r.1.WaitTimedOut? <==> FirstReady(obs.polls, expected, s.prevSig, minLen).None?
    ensures r.1.WaitTimedOut? ==> r.0 == s
    ensures !r.1.WaitTimedOut? ==> r.0.lastDtNorm == Norm(obs.after.dt)
    ensures r.1.Stuck? ==> r.0.prevSig == "" && r.0.sameDtCount == 0
    ensures r.1.Mismatch? ==> r.0.prevSig == s.prevSig && r.1.dt == obs.after.dt && !IsKeywordMatch(expected, obs.after.dt)
    ensures r.1.Got? ==> r.1.detail == obs.after && IsKeywordMatch(expected, obs.after.dt)
                         && r.0.prevSig == Sig(obs.after.dt, obs.after.dd)
  {
    if FirstReady(obs.polls, expected, s.prevSig, minLen).None? then (s, WaitTimedOut)
    else
      var d := obs.after;
      var dtNorm := Norm(d.dt);
      var count := if dtNorm == s.lastDtNorm then s.sameDtCount + 1 else 0;
      if count >= threshold then (Scan("", dtNorm, 0), Stuck)
      else if !IsKeywordMatch(expected, d.dt) then (Scan(s.prevSig, dtNorm, count), Mismatch(d.dt))
      else (Scan(Sig(d.dt, d.dd), dtNorm, count), Got(d))
  }

  /**
   * The repeat rule: after a successful wait, the attempt is a refresh exactly when the
   * count of consecutive equal normalised titles reaches the threshold. A new title restarts
   * the count at zero, so with a positive threshold it never refreshes, and with a
   * non-positive one every successful wait refreshes and nothing is ever saved.
   */
  lemma StuckRule(s: Scan, expected: string, obs: Observation, minLen: int, threshold: int)
    requires FirstReady(obs.polls, expected, s.prevSig, minLen).Some?
    ensures var r, count := StrictAttempt(s, expected, obs, minLen, threshold), if Norm(obs.after.dt) == s.lastDtNorm then s.sameDtCount + 1 else 0;
      (r.1.Stuck? <==> count >= threshold) && (!r.1.Stuck? ==> r.0.sameDtCount == count)
  {
  }

  /**
   * When the pane does not change after the wait, so that the texts read afterwards are the
   * first ready ones, the re-check never fails and a saved detail meets all four conditions
   * against the signature before the attempt.
   */
  lemma StablePaneVerified(s: Scan, expected: string, obs: Observation, minLen: int, threshold: int)
    requires FirstReady(obs.polls, expected, s.prevSig, minLen) == Some(obs.after)
    ensures !StrictAttempt(s, expected, obs, minLen, threshold).1.Mismatch?
    ensures StrictAttempt(s, expected, obs, minLen, threshold).1.Got? ==> Ready(obs.after, expected, s.prevSig, minLen)
  {
  }

  /**
   * The retry loop for the `i`-th considered reference. `observe(i, attempt)` is what
   * attempt number `attempt` (from 1) sees; `refreshes` counts the page refreshes the repeat
   * detector made.
   */
  method ProcessRefStrict(ref: TermRef, i: nat, scan: Scan, observe: (nat, nat) -> Observation, retries: int, minLen: int, threshold: int)
    returns (scan': Scan, entry: RefLog, refreshes: nat)
    ensures entry.Saved? || entry.Failed?
    ensures entry.Saved? ==>
      1 <= entry.attempts <= retries && refreshes < entry.attempts
      && entry.row == Row(ref.termId, observe(i, entry.attempts).after.dt, observe(i, entry.attempts).after.dd, ref.tab, ref.section)
      && IsKeywordMatch(ref.labelText, entry.row.keyword)
      && scan'.prevSig == Sig(entry.row.keyword, entry.row.content)
    ensures entry.Failed? ==>
      entry.attempts == (if retries > 0 then retries else 0) && refreshes <= entry.attempts
      && entry.failure == Failure(ref.termId, ref.tab, ref.section, ref.labelText, entry.failure.error)
      && scan'.prevSig == (if refreshes > 0 then "" else scan.prevSig)
      && (entry.failure.error == NoError <==> refreshes == entry.attempts)
  {
    scan', refreshes := scan, 0;
    var lastErr := NoError;
    var attempt := 1;
    while attempt <= retries
      invariant 1 <= attempt && (retries >= 1 ==> attempt <= retries + 1) && (retries < 1 ==> attempt == 1)
      invariant refreshes <= attempt - 1
      invariant scan'.prevSig == (if refreshes > 0 then "" else scan.prevSig)
      invariant lastErr == NoError <==> refreshes == attempt - 1
      decreases retries - attempt
    {
      var (next, outcome) := StrictAttempt(scan', ref.labelText, observe(i, attempt), minLen, threshold);
      scan' := next;
      match outcome {
        case WaitTimedOut =>
          lastErr := TimedOut;
        case Stuck =>
          refreshes := refreshes + 1;
        case Mismatch(dt) =>
          lastErr := IntegrityFail(ref.labelText, dt);
        case Got(d) =>
          entry := Saved(Row(ref.termId, d.dt, d.dd, ref.tab, ref.section), attempt);
          return;
      }
      attempt := attempt + 1;
    }
    entry := Failed(Failure(ref.termId, ref.tab, ref.section, ref.labelText, lastErr), if retries > 0 then retries else 0);
  }

  // ---------------------------------------------------------------------------------------
  // crawl_all_strict

  /**
   * What the crawl promises about the `i`-th considered reference: a saved row took between
   * one and `retries` attempts, its title matches the listed label, and it is the text read
   * after the wait of its last attempt; a failure used up every attempt.
   */
  ghost predicate EntryOk(ref: TermRef, e: RefLog, i: nat, observe: (nat, nat) -> Observation, retries: int) {
    (e.Saved? ==>
      1 <= e.attempts <= retries && IsKeywordMatch(ref.labelText, e.row.keyword)
      && Detail(e.row.keyword, e.row.content) == observe(i, e.attempts).after)
    && (e.Failed? ==> e.attempts == (if retries > 0 then retries else 0))
  }

  /** The body of the loop for the `i`-th considered reference, up to the checkpoint write. */
  method CrawlStep(ref: TermRef, i: nat, ghost ckpt: Dict, ghost log: seq<RefLog>, rowsById: Dict, already: set<string>, scan: Scan,
                   done: nat, failures: seq<Failure>, observe: (nat, nat) -> Observation, retries: int, minLen: int, threshold: int)
    returns (entry: RefLog, rowsById': Dict, already': set<string>, scan': Scan, done': nat, failures': seq<Failure>)
    requires Accounted(ckpt, log, rowsById, already, done, failures)
    ensures EntryFits(ref, ckpt, log, entry)
    ensures Accounted(ckpt, log + [entry], rowsById', already', done', failures')
    ensures EntryOk(ref, entry, i, observe, retries)
  {
    rowsById', already', scan', done', failures' := rowsById, already, scan, done, failures;
    if ref.termId in already {
      entry := Skipped;
      AccountSkipped(ckpt, log, rowsById, already, done, failures);
    } else {
      var refreshes;
      scan', entry, refreshes := ProcessRefStrict(ref, i, scan, observe, retries, minLen, threshold);
      if entry.Saved? {
        AccountSaved(ckpt, log, rowsById, already, done, failures, entry.row, entry.attempts);
        rowsById' := Put(rowsById, ref.termId, entry.row);
        already' := already + {ref.termId};
        done' := done + 1;
      } else {
        AccountFailed(ckpt, log, rowsById, already, done, failures, entry.failure, entry.attempts);
        failures' := failures + [entry.failure];
      }
    }
  }

  /** What the loop of `crawl_all_strict` keeps after the first `|log|` considered references. */
  ghost predicate StrictInv(considered: seq<TermRef>, ckpt: Dict, log: seq<RefLog>, rowsById: Dict, already: set<string>,
                            done: nat, failures: seq<Failure>, saves: seq<Save>,
                            observe: (nat, nat) -> Observation, retries: int, every: int)
  {
    LogFits(considered, ckpt, log)
    && Accounted(ckpt, log, rowsById, already, done, failures)
    && saves == CheckpointSaves(ckpt, log, every)
    && forall j :: 0 <= j < |log| ==> EntryOk(considered[j], log[j], j, observe, retries)
  }

  /**
   * Where the crawl stands on the ZeroDivisionError of a zero cadence: it has raised exactly
   * when the cadence is 0 and a row was saved, and then the one saved row is the last entry.
   */
  ghost predicate RaiseState(log: seq<RefLog>, every: int, raised: bool) {
    (raised <==> every == 0 && SavedRows(log) != [])
    && (raised ==> |SavedRows(log)| == 1 && |log| > 0 && log[|log| - 1].Saved?)
  }

  /** One more entry after a crawl that has not raised: it raises exactly at the first saved row of a zero cadence. */
  lemma RaiseStep(log: seq<RefLog>, e: RefLog, every: int)
    requires RaiseState(log, every, false)
    ensures RaiseState(log + [e], every, !e.Skipped? && CadenceRaises(|SavedRows(log + [e])|, every))
  {
    LogAppend(log, e);
  }

  /** One pass of the loop of `crawl_all_strict`: the reference's entry, then the cadence test. */
  method StrictOne(considered: seq<TermRef>, i: nat, ghost ckpt: Dict, ghost log: seq<RefLog>, rowsById: Dict, already: set<string>,
                   scan: Scan, done: nat, failures: seq<Failure>, saves: seq<Save>,
                   observe: (nat, nat) -> Observation, retries: int, every: int, minLen: int, threshold: int)
    returns (entry: RefLog, rowsById': Dict, already': set<string>, scan': Scan, done': nat,
             failures': seq<Failure>, saves': seq<Save>, raised: bool)
    requires i == |log| < |considered| && RaiseState(log, every, false)
    requires StrictInv(considered, ckpt, log, rowsById, already, done, failures, saves, observe, retries, every)
    ensures StrictInv(considered, ckpt, log + [entry], rowsById', already', done', failures', saves', observe, retries, every)
    ensures RaiseState(log + [entry], every, raised)
  {
    entry, rowsById', already', scan', done', failures' :=
      CrawlStep(considered[i], i, ckpt, log, rowsById, already, scan, done, failures, observe, retries, minLen, threshold);
    SavesAppend(ckpt, log, entry, every);
    LogFitsAppend(considered, ckpt, log, entry);
    RaiseStep(log, entry, every);
    raised := !entry.Skipped? && CadenceRaises(done', every);
    saves' := saves;
    if !entry.Skipped? && CheckpointDue(done', every) {
      saves' := saves + [Save(done', Values(rowsById'))];
    }
  }

  /**
   * `crawl_all_strict`: load the checkpoint, then for each of the first `total` references
   * skip it if its id is already saved, else run its attempts, record a row or a failure,
   * and write the checkpoint when the success count is a positive multiple of
   * `checkpointEvery`; write it once more at the end and return its rows and the failures.
   * With `checkpointEvery` 0 the cadence test raises ZeroDivisionError right after the first
   * saved row (`raised`): the crawl stops there and the final checkpoint is not written.
   * `observe(i, attempt)` is what that attempt for the `i`-th considered reference sees.
   */
  method CrawlAllStrict(refs: seq<TermRef>, file: CheckpointFile, limit: Option<int>, observe: (nat, nat) -> Observation,
                        retries: int, checkpointEvery: int, minLen: int, threshold: int)
    returns (rows: seq<Row>, failures: seq<Failure>, log: seq<RefLog>, saves: seq<Save>, raised: bool)
    ensures var ckpt, considered := LoadedCheckpoint(file), PyTake(refs, CrawlTotal(limit, |refs|));
      LogFits(considered, ckpt, log)
      && (raised <==> checkpointEvery == 0 && SavedRows(log) != [])
      && (raised ==> |SavedRows(log)| == 1 && |log| > 0 && log[|log| - 1].Saved?)
      && (!raised ==> |log| == |considered|)
      && rows == Values(ckpt) + SavedRows(log) && failures == FailuresOf(log)
      && saves == CheckpointSaves(ckpt, log, checkpointEvery) + (if raised then [] else [Save(|SavedRows(log)|, rows)])
    ensures forall i :: 0 <= i < |log| ==> EntryOk(PyTake(refs, CrawlTotal(limit, |refs|))[i], log[i], i, observe, retries)
  {
    var ckpt := LoadCheckpoint(file);
    var considered := PyTake(refs, CrawlTotal(limit, |refs|));
    var rowsById := ckpt;
    var already := ckpt.vals.Keys;
    var scan := Scan("", "", 0);
    var done: nat := 0;
    failures, log, saves, raised := [], [], [], false;
    var i := 0;
    while i < |considered| && !raised
      invariant 0 <= i <= |considered| && |log| == i && RaiseState(log, checkpointEvery, raised)
      invariant StrictInv(considered, ckpt, log, rowsById, already, done, failures, saves, observe, retries, checkpointEvery)
    {
      var entry;
      entry, rowsById, already, scan, done, failures, saves, raised :=
        StrictOne(considered, i, ckpt, log, rowsById, already, scan, done, failures, saves, observe, retries, checkpointEvery, minLen, threshold);
      log := log + [entry];
      i := i + 1;
    }
    rows := Values(rowsById);
    if !raised {
      saves := saves + [Save(done, rows)];
    }
  }
}
