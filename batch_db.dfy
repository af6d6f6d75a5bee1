/**
 * The crawler's batch-run bookkeeping: the `work_at` date and timestamp conversions, and the
 * `batch_runs` table that a run inserts itself into (state 300, still running) and updates
 * when it ends. The database is modelled as a map from run id to row with an auto-increment
 * counter; the connection, transactions and SQL text are not modelled.
 */
module BatchDb {
  import opened Text
  import opened Calendar

  // ---------------------------------------------------------------------------------------
  // _work_at_to_sql_date

  /**
   * `_work_at_to_sql_date`: a missing or blank value raises; eight ASCII digits `YYYYMMDD`
   * become `YYYY-MM-DD`; anything else is returned stripped.
   */
  function WorkAtToSqlDate(workAt: Option<string>): (r: Result<string>)
  {
    var w := PyStrip(if workAt.Some? then workAt.value else "");
    if w == "" then Err("work_at is required")
    else if |w| == 8 && AllDigits(w) then Ok(w[..4] + "-" + w[4..6] + "-" + w[6..8])
    else Ok(w)
  }

  /** The conversion raises exactly for a missing value or one made only of whitespace. */
  lemma WorkAtRequired(workAt: Option<string>)
    ensures WorkAtToSqlDate(workAt).Err? <==> workAt.None? || AllChars(workAt.value, PySpace)
  {
  }

  /**
   * A compact `YYYYMMDD` (after stripping) gets a dash after the year and after the month;
   * taking the dashes out gives the digits back, and a compact valid date reads back as that date.
   */
  lemma WorkAtCompact(workAt: string)
    requires var w := PyStrip(workAt); |w| == 8 && AllDigits(w)
    ensures var w, r := PyStrip(workAt), WorkAtToSqlDate(Some(workAt));
      r.Ok? && IsIsoShape(r.value) && r.value[..4] + r.value[5..7] + r.value[8..] == w
    ensures forall d :: (Valid(d) && d.year < 10000 && PyStrip(workAt) == Pad(d.year, 4) + Pad(d.month, 2) + Pad(d.day, 2)
                         ==> WorkAtToSqlDate(Some(workAt)) == Ok(IsoDate(d)))
  {
    var w := PyStrip(workAt);
    var s := w[..4] + "-" + w[4..6] + "-" + w[6..8];
    assert s[..4] == w[..4] && s[5..7] == w[4..6] && s[8..] == w[6..8];
    assert s[..4] + s[5..7] + s[8..] == w;
    forall d | Valid(d) && d.year < 10000 && w == Pad(d.year, 4) + Pad(d.month, 2) + Pad(d.day, 2)
      ensures s == IsoDate(d)
    {
      assert w[..4] == Pad(d.year, 4) && w[4..6] == Pad(d.month, 2) && w[6..8] == Pad(d.day, 2);
    }
  }

  /** Any other non-blank value is passed on stripped, with no other change. */
  lemma WorkAtOther(workAt: string)
    requires var w := PyStrip(workAt); w != "" && !(|w| == 8 && AllDigits(w))
    ensures WorkAtToSqlDate(Some(workAt)) == Ok(PyStrip(workAt))
    ensures PySpace(workAt[0]) || PySpace(workAt[|workAt| - 1]) || WorkAtToSqlDate(Some(workAt)) == Ok(workAt)
  {
    if !PySpace(workAt[0]) && !PySpace(workAt[|workAt| - 1]) {
      StripTrimmed(workAt, PySpace);
    }
  }

  /** Converting an already converted value changes nothing. */
  lemma WorkAtIdempotent(workAt: Option<string>)
    requires WorkAtToSqlDate(workAt).Ok?
    ensures WorkAtToSqlDate(Some(WorkAtToSqlDate(workAt).value)) == WorkAtToSqlDate(workAt)
  {
    var w := PyStrip(if workAt.Some? then workAt.value else "");
    var s := WorkAtToSqlDate(workAt).value;
    if |w| == 8 && AllDigits(w) {
      assert s[0] == w[0] && s[9] == w[7];
      StripTrimmed(s, PySpace);
    } else {
      StripIdempotent(if workAt.Some? then workAt.value else "", PySpace);
    }
  }

  // ---------------------------------------------------------------------------------------
  // _naive_datetime

  /** A timestamp: the wall-clock date and second of the day, and the UTC offset in minutes when aware. */
  datatype DateTime = DateTime(date: Date, second: int, offset: Option<int>)

  /** `_naive_datetime`: None stays None, an aware value loses its zone, a naive one is kept. */
  function NaiveDatetime(dt: Option<DateTime>): (r: Option<DateTime>)
  {
    match dt
    case None => None
    case Some(t) => if t.offset.Some? then Some(t.(offset := None)) else Some(t)
  }

  /**
   * The zone is dropped without shifting: date and second of the day are the wall-clock ones
   * of the input, and the result is naive. A naive input comes back unchanged.
   */
  lemma NaiveKeepsWallClock(dt: Option<DateTime>)
    ensures NaiveDatetime(dt).None? <==> dt.None?
    ensures dt.Some? ==> var r := NaiveDatetime(dt).value;
      r.offset.None? && r.date == dt.value.date && r.second == dt.value.second
    ensures dt.Some? && dt.value.offset.None? ==> NaiveDatetime(dt) == dt
    ensures NaiveDatetime(NaiveDatetime(dt)) == NaiveDatetime(dt)
  {
  }

  // ---------------------------------------------------------------------------------------
  // The batch_runs table

  /** Run states written by the crawler: 200 success, 300 running or partly failed, 400 error. */
  const StateRunning := 300

  datatype BatchRun = BatchRun(
    jobName: string,
    workAt: string,
    startAt: Option<DateTime>,
    endAt: Option<DateTime>,
    stateCode: int,
    message: Option<string>,
    createdAt: DateTime,
    updatedAt: DateTime)

  class BatchRuns {
    var rows: map<int, BatchRun>
    var nextId: int

    /** Auto-increment ids: every stored id is positive and below the next one to hand out. */
    ghost predicate Valid()
      reads this
    {
      nextId >= 1 && forall id :: id in rows ==> 1 <= id < nextId
    }

    constructor ()
      ensures Valid() && rows == map[] && nextId == 1
    {
      rows := map[];
      nextId := 1;
    }

    /**
     * `create_batch_run`: convert `work_at` (raising before any write), then insert one row
     * under a new id with state 300, no end time and no message, and return that id. `now`
     * is the database's `NOW()`.
     */
    method CreateBatchRun(jobName: string, workAt: Option<string>, startAt: Option<DateTime>, now: DateTime)
      returns (r: Result<int>)
      requires Valid()
      modifies this
      ensures Valid()
      ensures WorkAtToSqlDate(workAt).Err? ==> r.Err? && rows == old(rows) && nextId == old(nextId)
      ensures WorkAtToSqlDate(workAt).Ok? ==>
        r.Ok? && r.value !in old(rows)
        && rows == old(rows)[r.value := BatchRun(jobName, WorkAtToSqlDate(workAt).value, NaiveDatetime(startAt),
                                                 None, StateRunning, None, now, now)]
    {
      var sqlDate := WorkAtToSqlDate(workAt);
      if sqlDate.Err? {
        return Err(sqlDate.error);
      }
      var id := nextId;
      rows := rows[id := BatchRun(jobName, sqlDate.value, NaiveDatetime(startAt), None, StateRunning, None, now, now)];
      nextId := nextId + 1;
      r := Ok(id);
    }

    /**
     * `finish_batch_run`: the row with `run_id`, if any, gets the end time (made naive), the
     * state and the message; an unknown id updates no row.
     */
    method FinishBatchRun(runId: int, endAt: Option<DateTime>, stateCode: int, message: Option<string>, now: DateTime)
      requires Valid()
      modifies this
      ensures Valid() && nextId == old(nextId)
      ensures runId !in old(rows) ==> rows == old(rows)
      ensures runId in old(rows) ==>
        rows == old(rows)[runId := old(rows)[runId].(endAt := NaiveDatetime(endAt), stateCode := stateCode,
                                                    message := message, updatedAt := now)]
    {
      if runId in rows {
        rows := rows[runId := rows[runId].(endAt := NaiveDatetime(endAt), stateCode := stateCode,
                                           message := message, updatedAt := now)];
      }
    }
  }

  /** Creating a run and finishing it leaves one new row, carrying the final state and the original start. */
  method CreateThenFinish(jobName: string, workAt: string, startAt: DateTime, endAt: DateTime, stateCode: int, now: DateTime)
    returns (run: Option<BatchRun>)
    requires PyStrip(workAt) != ""
    ensures run.Some? && run.value.stateCode == stateCode && run.value.endAt == Some(endAt.(offset := None))
    ensures run.Some? && run.value.startAt == Some(startAt.(offset := None)) && run.value.jobName == jobName
  {
    var table := new BatchRuns();
    var id := table.CreateBatchRun(jobName, Some(workAt), Some(startAt), now);
    assert id.Ok?;
    table.FinishBatchRun(id.value, Some(endAt), stateCode, None, now);
    assert id.value in table.rows;
    run := Some(table.rows[id.value]);
  }
}
