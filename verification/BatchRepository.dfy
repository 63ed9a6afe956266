/**
 * The repository over the two batch tables and the use cases that call it,
 * run by one caller at a time. Each method is tied to the statement functions
 * whose interleavings BatchPipeline studies.
 */
module BatchRepository {
  import opened Common
  import opened BatchTables
  import opened BatchStatements

  class BatchOperationRepository {
    var jobs: map<nat, Job>
    var rows: map<nat, Row>
    var nextJob: nat
    var nextRow: nat

    ghost function Tables(): Db
      reads this
    {
      Db(jobs, rows, nextJob, nextRow)
    }

    constructor ()
      ensures Tables() == EmptyDb
    {
      jobs, rows, nextJob, nextRow := map[], map[], 0, 0;
    }

    method CreateJobWithRows(mode: Mode, entityIds: seq<string>, now: int) returns (jobId: nat, rowIds: seq<nat>)
      modifies this
      ensures Tables() == BatchTables.CreateJobWithRows(old(Tables()), mode, entityIds, now)
      ensures jobId == old(nextJob) && |rowIds| == |entityIds|
      ensures forall i :: 0 <= i < |rowIds| ==> rowIds[i] == old(nextRow) + i
    {
      jobId := nextJob;
      var first, status := nextRow, if mode.Sync? then JobRunning else JobPending;
      jobs := jobs[jobId := Job(mode, status, |entityIds|, 0, 0, 0, 0, false)];
      rows := rows + map i | i in Interval(first, |entityIds|) ::
        Row(jobId, entityIds[i - first], RowPending, 0, false, now);
      rowIds := seq(|entityIds|, (i: nat) => first + i);
      nextJob, nextRow := jobId + 1, first + |entityIds|;
    }

    method FindJob(jobId: nat) returns (job: Option<Job>)
      ensures job == if jobId in jobs then Some(jobs[jobId]) else None
    {
      job := if jobId in jobs then Some(jobs[jobId]) else None;
    }

    method MarkJobRunning(jobId: nat)
      modifies this
      ensures Tables() == BatchTables.MarkJobRunning(old(Tables()), jobId)
    {
      if jobId in jobs && jobs[jobId].status.JobPending? && !jobs[jobId].cancelRequested {
        jobs := jobs[jobId := jobs[jobId].(status := JobRunning)];
      }
    }

    method UpdateIfOpen(jobId: nat, status: JobStatus) returns (count: nat)
      modifies this
      ensures Tables() == CloseJob(old(Tables()), jobId, status)
      ensures count == if CanClose(old(Tables()), jobId) then 1 else 0
    {
      count := 0;
      if jobId in jobs && !Terminal(jobs[jobId].status) {
        jobs := jobs[jobId := jobs[jobId].(status := status)];
        count := 1;
      }
    }

    /** Read, derive the verdict, CAS; answers the job only to the caller that closed it. */
    method FinaliseJob(jobId: nat) returns (closed: Option<Job>)
      modifies this
      ensures jobId !in old(jobs) ==> Tables() == old(Tables()) && closed.None?
      ensures jobId in old(jobs) ==> Tables() == CloseJob(old(Tables()), jobId, VerdictOfHeader(old(jobs)[jobId]))
      ensures closed == if CanClose(old(Tables()), jobId) then Some(jobs[jobId]) else None
    {
      closed := None;
      if jobId in jobs {
        var job := jobs[jobId];
        var status :=
          if job.failed == 0 then Completed else if job.success > 0 then CompletedWithErrors else JobFailed;
        var count := UpdateIfOpen(jobId, status);
        if count == 1 {
          closed := Some(job.(status := status));
        }
      }
    }

    method FinaliseCancelled(jobId: nat) returns (closed: Option<Job>)
      modifies this
      ensures Tables() == CloseJob(old(Tables()), jobId, Cancelled)
      ensures closed == if CanClose(old(Tables()), jobId) then Some(jobs[jobId]) else None
    {
      var count := UpdateIfOpen(jobId, Cancelled);
      closed := if count == 1 then Some(jobs[jobId]) else None;
    }

    method MarkJobFailed(jobId: nat)
      modifies this
      ensures Tables() == CloseJob(old(Tables()), jobId, JobFailed)
    {
      var _ := UpdateIfOpen(jobId, JobFailed);
    }

    method SetCancelRequested(jobId: nat)
      modifies this
      ensures Tables() == BatchTables.SetCancelRequested(old(Tables()), jobId)
    {
      if jobId in jobs {
        jobs := jobs[jobId := jobs[jobId].(cancelRequested := true)];
      }
    }

    method IsCancelRequested(jobId: nat) returns (b: bool)
      ensures b == (jobId in jobs && jobs[jobId].cancelRequested)
    {
      b := jobId in jobs && jobs[jobId].cancelRequested;
    }

    method PendingRowIds(jobId: nat) returns (ids: set<nat>)
      ensures ids == WithStatus(rows, jobId, RowPending)
    {
      ids := set id | id in rows && rows[id].job == jobId && rows[id].status.RowPending?;
    }

    method ClaimRow(rowId: nat, now: int) returns (token: Option<nat>)
      modifies this
      ensures Tables() == BatchTables.ClaimRow(old(Tables()), rowId, now)
      ensures token == if CanClaim(old(Tables()), rowId) then Some(rows[rowId].token) else None
    {
      token := None;
      if rowId in rows && rows[rowId].status.RowPending? {
        var row := rows[rowId];
        rows := rows[rowId := row.(status := Processing, token := row.token + 1, updatedAt := now)];
        token := Some(row.token + 1);
      }
    }

    method SettleRow(rowId: nat, jobId: nat, claimToken: int, outcome: Outcome, now: int) returns (landed: bool)
      modifies this
      ensures Tables() == BatchTables.SettleRow(old(Tables()), rowId, jobId, claimToken, outcome, now)
      ensures landed == CanSettle(old(Tables()), rowId, jobId, claimToken)
    {
      landed := false;
      if jobId in jobs && rowId in rows && rows[rowId].status.Processing? && rows[rowId].token == claimToken {
        rows := rows[rowId := rows[rowId].(status := outcome, updatedAt := now)];
        var job := jobs[jobId];
        job := job.(processed := job.processed + 1);
        match outcome {
          case Success => job := job.(success := job.success + 1);
          case RowFailed => job := job.(failed := job.failed + 1);
          case Skipped => job := job.(skipped := job.skipped + 1);
        }
        jobs := jobs[jobId := job];
        landed := true;
      }
    }

    /** Hand back the stuck rows of open jobs. */
    method HandBackStuckRows(cutoff: int, now: int) returns (reset: nat)
      modifies this`rows
      ensures Tables() == BatchTables.ResetStuckRows(old(Tables()), cutoff, now)
      ensures reset == |HandedBack(old(Tables()), cutoff)|
    {
      var stuck := set id | id in rows && rows[id].status.Processing? && rows[id].updatedAt < cutoff &&
                            rows[id].job in jobs && !Terminal(jobs[rows[id].job].status);
      StuckAreHandedBack(Tables(), cutoff);
      assert stuck == set id | id in rows && Stuck(Tables(), id, cutoff);
      rows := map id | id in rows ::
        if id in stuck then rows[id].(status := RowPending, token := rows[id].token + 1, updatedAt := now) else rows[id];
      reset := |stuck|;
    }

    /** Close the orphans of finished jobs. */
    method AbandonOrphanedRows(now: int)
      modifies this`rows
      ensures Tables() == BatchTables.AbandonOrphanedRows(old(Tables()), now)
    {
      rows := map id | id in rows ::
        if rows[id].status.Processing? && rows[id].job in jobs && Terminal(jobs[rows[id].job].status)
        then rows[id].(status := Skipped, abandoned := true, updatedAt := now) else rows[id];
    }

    /** Both statements, row by row, and how many rows were handed back. */
    method ResetStuckRows(cutoff: int, now: int) returns (reset: nat)
      modifies this`rows
      ensures Tables() == BatchTables.AbandonOrphanedRows(BatchTables.ResetStuckRows(old(Tables()), cutoff, now), now)
      ensures rows.Keys == old(rows).Keys
      ensures forall id :: id in old(rows) ==> rows[id] == SweptRow(old(Tables()), old(rows)[id], cutoff, now)
      ensures reset == |HandedBack(old(Tables()), cutoff)|
    {
      SweepWrites(Tables(), cutoff, now);
      reset := HandBackStuckRows(cutoff, now);
      AbandonOrphanedRows(now);
    }

    /** Rewrites the headers that differ from row truth, and says how many. */
    method RecountJobCounters() returns (rewritten: nat)
      modifies this
      ensures Tables() == BatchTables.RecountJobCounters(old(Tables()))
      ensures rewritten == |set j | j in old(jobs) && BatchTables.RecountJobCounters(old(Tables())).jobs[j] != old(jobs)[j]|
      ensures BatchTables.Inv(old(Tables())) ==> rewritten == 0 && Tables() == old(Tables())
    {
      ghost var before := Tables();
      var after := map j | j in jobs ::
        if !Terminal(jobs[j].status) && RowsOf(rows, j) != {} then Recounted(rows, j, jobs[j]) else jobs[j];
      assert after == BatchTables.RecountJobCounters(before).jobs;
      var differing := set j | j in jobs && after[j] != jobs[j];
      jobs := after;
      rewritten := |differing|;
      if BatchTables.Inv(before) {
        RecountIsIdentity(before);
        assert differing == {};
      }
      assert differing == set j | j in before.jobs && BatchTables.RecountJobCounters(before).jobs[j] != before.jobs[j];
    }
  }

  // ----- one caller at a time -----

  /** One row handled by one worker; `cancelArrives` says whether a cancel request lands right after the claim. */
  ghost function RowAlone(db: Db, j: nat, id: nat, outcome: Outcome, cancelArrives: bool, now: int): Db {
    if (j in db.jobs && db.jobs[j].cancelRequested) || !CanClaim(db, id) then db
    else
      var claimed := ClaimRow(db, id, now);
      var token := db.rows[id].token + 1;
      if cancelArrives && j in db.jobs
      then SettleRow(SetCancelRequested(claimed, j), id, j, token, Skipped, now)
      else SettleRow(claimed, id, j, token, outcome, now)
  }

  datatype RowVerdict = ProcessedRow | SkippedClaim | CancelledRow

  /**
   * One row: cancel check, claim, second cancel check, handler, settlement.
   * The handler's answer is `outcome`.
   */
  method ProcessRow(repo: BatchOperationRepository, jobId: nat, rowId: nat, outcome: Outcome, cancelArrives: bool, now: int)
    returns (verdict: RowVerdict)
    modifies repo
    ensures repo.Tables() == RowAlone(old(repo.Tables()), jobId, rowId, outcome, cancelArrives, now)
    ensures verdict.CancelledRow? <==>
              jobId in old(repo.jobs) &&
              (old(repo.jobs)[jobId].cancelRequested || (cancelArrives && CanClaim(old(repo.Tables()), rowId)))
    ensures verdict.SkippedClaim? ==> repo.Tables() == old(repo.Tables())
    ensures jobId in old(repo.jobs) && rowId in old(repo.rows) ==>
              var was := old(repo.rows)[rowId];
              var taken := !old(repo.jobs)[jobId].cancelRequested && was.status == RowPending;
              && (verdict == SkippedClaim <==> !old(repo.jobs)[jobId].cancelRequested && was.status != RowPending)
              && repo.rows == (if taken then old(repo.rows)[rowId := Row(was.job, was.entity, if cancelArrives then Skipped else outcome,
                                                                         was.token + 1, was.abandoned, now)]
                               else old(repo.rows))
  {
    var cancelled := repo.IsCancelRequested(jobId);
    if cancelled {
      return CancelledRow;
    }
    var token := repo.ClaimRow(rowId, now);
    if token.None? {
      return SkippedClaim;
    }
    if cancelArrives {
      repo.SetCancelRequested(jobId);
    }
    cancelled := repo.IsCancelRequested(jobId);
    if cancelled {
      var _ := repo.SettleRow(rowId, jobId, token.value, Skipped, now);
      return CancelledRow;
    }
    var _ := repo.SettleRow(rowId, jobId, token.value, outcome, now);
    return ProcessedRow;
  }

  lemma RowAloneFrame(db: Db, j: nat, id: nat, outcome: Outcome, now: int)
    requires j in db.jobs && id in db.rows
    ensures var d := RowAlone(db, j, id, outcome, false, now);
            && d.rows.Keys == db.rows.Keys
            && (forall k :: k in db.rows && k != id ==> d.rows[k] == db.rows[k])
            && (if !db.jobs[j].cancelRequested && db.rows[id].status.RowPending?
                then d.rows[id].status == outcome else d.rows[id] == db.rows[id])
            && d.jobs.Keys == db.jobs.Keys
            && d.jobs[j].cancelRequested == db.jobs[j].cancelRequested
            && d.jobs[j].status == db.jobs[j].status
  {
  }

  lemma TwoStatementsKeepInv(db: Db, first: Op, second: Op)
    requires Inv(db) && Legal(db, first) && Legal(Do(db, first), second)
    ensures Inv(Do(Do(db, first), second)) && Evolves(db, Do(Do(db, first), second))
  {
    DoKeepsInv(db, first);
    DoKeepsInv(Do(db, first), second);
    EvolvesTransitive(db, Do(db, first), Do(Do(db, first), second));
  }

  lemma RowAloneIsTwoStatements(db: Db, j: nat, id: nat, outcome: Outcome, now: int) returns (first: Op, second: Op)
    requires j in db.jobs && id in db.rows && db.rows[id].job == j
    ensures Legal(db, first) && Legal(Do(db, first), second)
    ensures RowAlone(db, j, id, outcome, false, now) == Do(Do(db, first), second)
  {
    if db.jobs[j].cancelRequested || !CanClaim(db, id) {
      first, second := OpNone, OpNone;
    } else {
      first, second := OpClaim(id, now), OpSettle(id, j, db.rows[id].token + 1, outcome, now);
    }
  }

  lemma RowAloneKeepsInv(db: Db, j: nat, id: nat, outcome: Outcome, now: int)
    requires Inv(db) && j in db.jobs && id in db.rows && db.rows[id].job == j
    ensures Inv(RowAlone(db, j, id, outcome, false, now))
    ensures Evolves(db, RowAlone(db, j, id, outcome, false, now))
  {
    var first, second := RowAloneIsTwoStatements(db, j, id, outcome, now);
    TwoStatementsKeepInv(db, first, second);
  }

  lemma CountedMeansSettled(db: Db, j: nat)
    requires Inv(db) && CanClose(db, j)
    ensures db.jobs[j].processed >= db.jobs[j].total <==> AllSettled(db.rows, j)
  {
    RowTruth(db, j);
    SubsetSize(SettledRows(db.rows, j), RowsOf(db.rows, j));
    if AllSettled(db.rows, j) {
      assert SettledRows(db.rows, j) == RowsOf(db.rows, j);
    } else {
      var id :| id in db.rows && db.rows[id].job == j && !SettledStatus(db.rows[id].status);
      assert id in RowsOf(db.rows, j) && id !in SettledRows(db.rows, j);
    }
  }

  lemma WaitingOrHeld(rows: map<nat, Row>, j: nat)
    ensures var waits := exists id :: id in rows && rows[id].job == j && rows[id].status == RowPending;
            var held := exists id :: id in rows && rows[id].job == j && rows[id].status == Processing;
            (AllSettled(rows, j) <==> !waits && !held) && (WithStatus(rows, j, Processing) == {} <==> !held)
  {
    if id :| id in rows && rows[id].job == j && rows[id].status == Processing {
      assert id in WithStatus(rows, j, Processing);
    }
  }

  /** The status a worker closes an open job with once its chunk is done, if any. */
  ghost function ClosingStatus(db: Db, j: nat): Option<JobStatus> {
    if !CanClose(db, j) then None
    else if AllSettled(db.rows, j) then Some(VerdictOfRows(db.rows, j))
    else if db.jobs[j].cancelRequested && WithStatus(db.rows, j, Processing) == {} then Some(Cancelled)
    else None
  }

  lemma NothingInFlight(db: Db, j: nat)
    requires Inv(db) && CanClose(db, j)
    ensures db.jobs[j].processed + |WithStatus(db.rows, j, RowPending)| >= db.jobs[j].total
            <==> WithStatus(db.rows, j, Processing) == {}
  {
    RowTruth(db, j);
    RowsSplit(db.rows, j);
  }

  lemma ClosingKeepsInv(db: Db, j: nat)
    requires Inv(db)
    ensures ClosingStatus(db, j).Some? ==>
              var d := CloseJob(db, j, ClosingStatus(db, j).value);
              Inv(d) && Evolves(db, d) && d.rows == db.rows
  {
    if ClosingStatus(db, j).Some? {
      DoKeepsInv(db, OpClose(j, ClosingStatus(db, j).value));
    }
  }

  /**
   * After a chunk: close the job with the verdict of its rows when all are
   * settled, as CANCELLED when a cancel is wanted and nothing is in flight, and
   * leave it alone otherwise.
   */
  method FinaliseIfComplete(repo: BatchOperationRepository, jobId: nat) returns (finalised: Option<Job>)
    requires Inv(repo.Tables())
    modifies repo
    ensures var before, status := old(repo.Tables()), ClosingStatus(old(repo.Tables()), jobId);
            && repo.Tables() == (if status.Some? then CloseJob(before, jobId, status.value) else before)
            && finalised == (if status.Some? then Some(repo.jobs[jobId]) else None)
    ensures IsOpen(old(repo.Tables()), jobId) ==>
              var rows := old(repo.rows);
              var waits := exists id :: id in rows && rows[id].job == jobId && rows[id].status == RowPending;
              var held := exists id :: id in rows && rows[id].job == jobId && rows[id].status == Processing;
              repo.jobs[jobId].status ==
                if !waits && !held then VerdictOfRows(rows, jobId)
                else if old(repo.jobs)[jobId].cancelRequested && !held then Cancelled
                else old(repo.jobs)[jobId].status
    ensures !IsOpen(old(repo.Tables()), jobId) ==> repo.Tables() == old(repo.Tables()) && finalised.None?
  {
    ghost var db := repo.Tables();
    WaitingOrHeld(db.rows, jobId);
    finalised := None;
    var job := repo.FindJob(jobId);
    if job.Some? && !Terminal(job.value.status) {
      CountedMeansSettled(db, jobId);
      HeaderVerdictIsRowVerdict(db, jobId);
      if job.value.processed >= job.value.total {
        finalised := repo.FinaliseJob(jobId);
      } else if job.value.cancelRequested {
        var pending := repo.PendingRowIds(jobId);
        NothingInFlight(db, jobId);
        if job.value.processed + |pending| >= job.value.total {
          finalised := repo.FinaliseCancelled(jobId);
        }
      }
    }
  }

  ghost predicate ChunkDone(before: map<nat, Row>, after: map<nat, Row>, ids: seq<nat>, outcome: nat -> Outcome) {
    && after.Keys == before.Keys
    && forall id :: id in before ==>
         if id in ids && before[id].status.RowPending? then after[id].status == outcome(id) else after[id] == before[id]
  }

  lemma ChunkDoneExtends(before: map<nat, Row>, mid: map<nat, Row>, after: map<nat, Row>, ids: seq<nat>, id: nat,
                         outcome: nat -> Outcome)
    requires ChunkDone(before, mid, ids, outcome) && id in before && after.Keys == mid.Keys
    requires forall k :: k in mid && k != id ==> after[k] == mid[k]
    requires if mid[id].status.RowPending? then after[id].status == outcome(id) else after[id] == mid[id]
    ensures ChunkDone(before, after, ids + [id], outcome)
  {
  }

  /** A worker moves no row of a job that has been asked to cancel. */
  ghost predicate ChunkMoved(start: Db, rows: map<nat, Row>, j: nat, ids: seq<nat>, outcome: nat -> Outcome)
    requires j in start.jobs
  {
    ChunkDone(start.rows, rows, if start.jobs[j].cancelRequested then [] else ids, outcome)
  }

  /** Where a worker alone stands after the rows `ids` of its chunk. */
  ghost predicate ChunkProgress(start: Db, db: Db, j: nat, ids: seq<nat>, outcome: nat -> Outcome) {
    && Inv(db) && Evolves(start, db) && j in start.jobs
    && db.jobs[j].cancelRequested == start.jobs[j].cancelRequested
    && db.jobs[j].status == MarkJobRunning(start, j).jobs[j].status
    && ChunkMoved(start, db.rows, j, ids, outcome)
  }

  lemma MarkJobRunningKeepsInv(db: Db, j: nat)
    requires Inv(db)
    ensures Inv(MarkJobRunning(db, j)) && Evolves(db, MarkJobRunning(db, j))
  {
    assert MarkJobRunning(db, j) == Do(db, OpMarkRunning(j));
    DoKeepsInv(db, OpMarkRunning(j));
  }

  lemma ChunkStarts(start: Db, db: Db, j: nat, outcome: nat -> Outcome)
    requires j in start.jobs && db == MarkJobRunning(start, j) && Inv(db) && Evolves(start, db)
    ensures ChunkProgress(start, db, j, [], outcome)
  {
  }

  lemma ChunkAdvances(start: Db, db: Db, j: nat, ids: seq<nat>, id: nat, outcome: nat -> Outcome, now: int)
    requires ChunkProgress(start, db, j, ids, outcome)
    requires id in start.rows && start.rows[id].job == j
    ensures ChunkProgress(start, RowAlone(db, j, id, outcome(id), false, now), j, ids + [id], outcome)
  {
    var d := RowAlone(db, j, id, outcome(id), false, now);
    RowAloneFrame(db, j, id, outcome(id), now);
    RowAloneKeepsInv(db, j, id, outcome(id), now);
    EvolvesTransitive(start, db, d);
    if !start.jobs[j].cancelRequested {
      ChunkDoneExtends(start.rows, db.rows, d.rows, ids, id, outcome);
    }
  }

  /** An open job is closed by its worker: nothing is left to do, or a cancel is wanted and nothing is in flight. */
  ghost predicate WorkerCloses(start: Db, rows: map<nat, Row>, j: nat)
    requires j in start.jobs
  {
    !Terminal(start.jobs[j].status) &&
    (AllSettled(rows, j) || (start.jobs[j].cancelRequested && WithStatus(rows, j, Processing) == {}))
  }

  /** What a worker alone leaves behind, whatever state it finds the job in. */
  ghost predicate ChunkResult(start: Db, db: Db, j: nat, ids: seq<nat>, outcome: nat -> Outcome)
    requires j in start.jobs
  {
    && Inv(db) && Evolves(start, db) && j in db.jobs
    && ChunkMoved(start, db.rows, j, ids, outcome)
    && db.jobs[j].status ==
       if !WorkerCloses(start, db.rows, j) then MarkJobRunning(start, j).jobs[j].status
       else if AllSettled(db.rows, j) then VerdictOfRows(db.rows, j)
       else Cancelled
  }

  lemma ChunkEnds(start: Db, db: Db, j: nat, ids: seq<nat>, outcome: nat -> Outcome)
    requires ChunkProgress(start, db, j, ids, outcome)
    ensures ClosingStatus(db, j).Some? <==> WorkerCloses(start, db.rows, j)
    ensures var status := ClosingStatus(db, j);
            ChunkResult(start, if status.Some? then CloseJob(db, j, status.value) else db, j, ids, outcome)
  {
    VerdictIsTerminal(db.rows, j);
    ClosingKeepsInv(db, j);
    if ClosingStatus(db, j).Some? {
      EvolvesTransitive(start, db, CloseJob(db, j, ClosingStatus(db, j).value));
    }
  }

  method ProcessNext(repo: BatchOperationRepository, jobId: nat, id: nat, outcome: nat -> Outcome, now: int,
                     ghost start: Db, ghost done: seq<nat>)
    returns (verdict: RowVerdict)
    requires ChunkProgress(start, repo.Tables(), jobId, done, outcome)
    requires id in start.rows && start.rows[id].job == jobId
    modifies repo
    ensures ChunkProgress(start, repo.Tables(), jobId, done + [id], outcome)
    ensures verdict.CancelledRow? <==> start.jobs[jobId].cancelRequested
  {
    ChunkAdvances(start, repo.Tables(), jobId, done, id, outcome, now);
    verdict := ProcessRow(repo, jobId, id, outcome(id), false, now);
  }

  /** The loop of a chunk, without its header and its closing decision. */
  method ProcessRows(repo: BatchOperationRepository, jobId: nat, rowIds: seq<nat>, outcome: nat -> Outcome, now: int, ghost start: Db)
    requires ChunkProgress(start, repo.Tables(), jobId, [], outcome)
    requires forall id :: id in rowIds ==> id in start.rows && start.rows[id].job == jobId
    modifies repo
    ensures ChunkProgress(start, repo.Tables(), jobId, rowIds, outcome)
  {
    var i := 0;
    assert rowIds[..0] == [];
    while i < |rowIds|
      invariant 0 <= i <= |rowIds|
      invariant start.jobs[jobId].cancelRequested ==> i == 0
      invariant ChunkProgress(start, repo.Tables(), jobId, rowIds[..i], outcome)
    {
      var verdict := ProcessNext(repo, jobId, rowIds[i], outcome, now, start, rowIds[..i]);
      assert rowIds[..i + 1] == rowIds[..i] + [rowIds[i]];
      if verdict.CancelledRow? {
        break;
      }
      i := i + 1;
    }
    assert !start.jobs[jobId].cancelRequested ==> rowIds[..i] == rowIds;
  }

  /**
   * A worker alone with a chunk, in whatever state it finds the job: unless a
   * cancel was requested, every row of the chunk that was waiting ends with its
   * handler's outcome, and no other row moves. An open job is then closed exactly
   * when nothing of it is left unsettled, with the verdict of its rows, or when a
   * cancel was requested and nothing is in flight, as CANCELLED.
   */
  method ProcessChunk(repo: BatchOperationRepository, jobId: nat, rowIds: seq<nat>, outcome: nat -> Outcome, now: int)
    returns (finalised: Option<Job>)
    requires Inv(repo.Tables())
    requires jobId in repo.jobs
    requires forall id :: id in rowIds ==> id in repo.rows && repo.rows[id].job == jobId
    modifies repo
    ensures ChunkResult(old(repo.Tables()), repo.Tables(), jobId, rowIds, outcome)
    ensures finalised == if WorkerCloses(old(repo.Tables()), repo.rows, jobId) then Some(repo.jobs[jobId]) else None
  {
    ghost var start := repo.Tables();
    repo.MarkJobRunning(jobId);
    MarkJobRunningKeepsInv(start, jobId);
    ChunkStarts(start, repo.Tables(), jobId, outcome);
    ProcessRows(repo, jobId, rowIds, outcome, now, start);
    ChunkEnds(start, repo.Tables(), jobId, rowIds, outcome);
    finalised := FinaliseIfComplete(repo, jobId);
  }

  datatype CreateError = NoRecords | TooManyRecords | NotEnqueued

  predicate Blank(id: string) {
    forall c :: c in id ==> IsSpace(c)
  }

  ghost predicate Distinct<T>(s: seq<T>) {
    forall i, k :: 0 <= i < k < |s| ==> s[i] != s[k]
  }

  /** Each entry stands in the order in which the input first names it. */
  ghost predicate InFirstOrder(entities: seq<string>, input: seq<string>) {
    forall i, k :: 0 <= i < k < |entities| ==> NamedBefore(input, entities[i], entities[k])
  }

  ghost predicate NamedBefore(input: seq<string>, a: string, b: string) {
    exists p :: 0 <= p < |input| && input[p] == a && b !in input[..p + 1]
  }

  lemma NamedBeforeGrows(input: seq<string>, more: string, a: string, b: string)
    requires NamedBefore(input, a, b)
    ensures NamedBefore(input + [more], a, b)
  {
    var p :| 0 <= p < |input| && input[p] == a && b !in input[..p + 1];
    assert (input + [more])[..p + 1] == input[..p + 1];
  }

  lemma NewNameIsLast(input: seq<string>, more: string, a: string)
    requires a in input && more !in input
    ensures NamedBefore(input + [more], a, more)
  {
    var p :| 0 <= p < |input| && input[p] == a;
    assert (input + [more])[..p + 1] == input[..p + 1];
  }

  lemma FirstOrderGrows(entities: seq<string>, input: seq<string>, more: string)
    requires InFirstOrder(entities, input) && forall id :: id in entities ==> id in input
    ensures InFirstOrder(entities, input + [more])
    ensures more !in input ==> InFirstOrder(entities + [more], input + [more])
  {
    forall i, k | 0 <= i < k < |entities|
      ensures NamedBefore(input + [more], entities[i], entities[k])
    {
      NamedBeforeGrows(input, more, entities[i], entities[k]);
    }
    if more !in input {
      forall i | 0 <= i < |entities|
        ensures NamedBefore(input + [more], entities[i], more)
      {
        NewNameIsLast(input, more, entities[i]);
      }
    }
  }

  /** `[...new Set(ids.filter(nonBlank))]`. */
  method SelectEntities(input: seq<string>) returns (entities: seq<string>)
    ensures Distinct(entities)
    ensures forall id :: id in entities <==> id in input && !Blank(id)
    ensures InFirstOrder(entities, input)
  {
    entities := [];
    for i := 0 to |input|
      invariant Distinct(entities)
      invariant forall id :: id in entities <==> id in input[..i] && !Blank(id)
      invariant InFirstOrder(entities, input[..i])
    {
      FirstOrderGrows(entities, input[..i], input[i]);
      assert input[..i + 1] == input[..i] + [input[i]];
      if !Blank(input[i]) && input[i] !in entities {
        entities := entities + [input[i]];
      }
    }
    assert input[..|input|] == input;
  }

  /** A job just created: one waiting row per entity, numbered from `first`. */
  ghost predicate JustCreated(db: Db, j: nat, first: nat, mode: Mode, entities: seq<string>) {
    && j in db.jobs && db.jobs[j].total == |entities| && !db.jobs[j].cancelRequested
    && db.jobs[j].status == (if mode.Sync? then JobRunning else JobPending)
    && RowsOf(db.rows, j) == Interval(first, |entities|)
    && forall id :: id in RowsOf(db.rows, j) ==> db.rows[id].entity == entities[id - first] && db.rows[id].status.RowPending?
  }

  lemma NextJobIsFresh(db: Db)
    requires WellFormed(db)
    ensures db.nextJob !in db.jobs
    ensures forall id :: id in db.rows ==> db.rows[id].job != db.nextJob
  {
  }

  lemma RowsOfFreshJob(db: Db, entities: seq<string>, now: int)
    requires forall id :: id in db.rows ==> db.rows[id].job != db.nextJob
    ensures RowsOf(db.rows + AddedRows(db, entities, now), db.nextJob) == Interval(db.nextRow, |entities|)
  {
  }

  lemma CreatedRowsFacts(db: Db, mode: Mode, entities: seq<string>, now: int)
    requires forall id :: id in db.rows ==> db.rows[id].job != db.nextJob
    ensures JustCreated(CreateJobWithRows(db, mode, entities, now), db.nextJob, db.nextRow, mode, entities)
  {
    RowsOfFreshJob(db, entities, now);
  }

  /** One row per entity, and no other row. */
  ghost predicate OneRowPerEntity(rows: map<nat, Row>, j: nat, entities: seq<string>) {
    && (forall id :: id in RowsOf(rows, j) ==> rows[id].entity in entities)
    && (forall e :: e in entities ==> exists id :: id in RowsOf(rows, j) && rows[id].entity == e)
    && (forall a, b :: a in RowsOf(rows, j) && b in RowsOf(rows, j) && a != b ==> rows[a].entity != rows[b].entity)
  }

  lemma CreatedOneRowPerEntity(db: Db, j: nat, first: nat, mode: Mode, entities: seq<string>)
    requires JustCreated(db, j, first, mode, entities) && Distinct(entities)
    ensures OneRowPerEntity(db.rows, j, entities)
  {
    forall e | e in entities
      ensures exists id :: id in RowsOf(db.rows, j) && db.rows[id].entity == e
    {
      var i :| 0 <= i < |entities| && entities[i] == e;
      assert first + i in RowsOf(db.rows, j);
    }
  }

  lemma OneRowPerEntityStable(a: Db, b: Db, j: nat, entities: seq<string>)
    requires Evolves(a, b) && j in a.jobs && OneRowPerEntity(a.rows, j, entities)
    ensures OneRowPerEntity(b.rows, j, entities) && RowsOf(b.rows, j) == RowsOf(a.rows, j)
  {
    SettledRowsGrow(a, b, j);
    forall e | e in entities
      ensures exists id :: id in RowsOf(b.rows, j) && b.rows[id].entity == e
    {
      var id :| id in RowsOf(a.rows, j) && a.rows[id].entity == e;
      assert id in RowsOf(b.rows, j) && b.rows[id].entity == e;
    }
  }

  /** A job created by one submission: finished in place when small; when large waiting for the queue, or FAILED over waiting rows. */
  ghost predicate Submitted(db: Db, j: nat, entities: seq<string>, syncThreshold: nat, enqueued: bool, outcome: nat -> Outcome) {
    && j in db.jobs && db.jobs[j].total == |entities|
    && OneRowPerEntity(db.rows, j, entities)
    && if |entities| <= syncThreshold
       then AllSettled(db.rows, j) && db.jobs[j].status == VerdictOfRows(db.rows, j) &&
            (forall id :: id in RowsOf(db.rows, j) ==> db.rows[id].status == outcome(id))
       else db.jobs[j].status == (if enqueued then JobPending else JobFailed) && RowsOf(db.rows, j) == WithStatus(db.rows, j, RowPending)
  }

  lemma ChunkDoneSettles(before: map<nat, Row>, after: map<nat, Row>, j: nat, ids: seq<nat>, outcome: nat -> Outcome)
    requires ChunkDone(before, after, ids, outcome) && RowsOf(after, j) == RowsOf(before, j)
    requires forall id :: id in RowsOf(before, j) ==> id in ids && before[id].status.RowPending?
    ensures forall id :: id in RowsOf(after, j) ==> after[id].status == outcome(id)
    ensures AllSettled(after, j)
  {
    forall id | id in after && after[id].job == j
      ensures after[id].status == outcome(id)
    {
      assert id in RowsOf(after, j);
    }
  }

  lemma SyncSubmission(created: Db, db: Db, j: nat, first: nat, entities: seq<string>, ids: seq<nat>,
                       syncThreshold: nat, enqueued: bool, outcome: nat -> Outcome)
    requires JustCreated(created, j, first, Sync, entities) && Distinct(entities) && |entities| <= syncThreshold
    requires forall id :: id in RowsOf(created.rows, j) ==> id in ids
    requires Evolves(created, db) && ChunkDone(created.rows, db.rows, ids, outcome)
    requires AllSettled(db.rows, j) ==> db.jobs[j].status == VerdictOfRows(db.rows, j)
    ensures Submitted(db, j, entities, syncThreshold, enqueued, outcome)
  {
    CreatedOneRowPerEntity(created, j, first, Sync, entities);
    OneRowPerEntityStable(created, db, j, entities);
    ChunkDoneSettles(created.rows, db.rows, j, ids, outcome);
  }

  lemma AsyncSubmission(created: Db, j: nat, first: nat, entities: seq<string>, syncThreshold: nat, enqueued: bool, outcome: nat -> Outcome)
    requires JustCreated(created, j, first, Async, entities) && Distinct(entities) && |entities| > syncThreshold
    ensures Submitted(if enqueued then created else CloseJob(created, j, JobFailed), j, entities, syncThreshold, enqueued, outcome)
  {
    CreatedOneRowPerEntity(created, j, first, Async, entities);
    AllJustWait(created, j, first, entities);
  }

  lemma AllJustWait(db: Db, j: nat, first: nat, entities: seq<string>)
    requires JustCreated(db, j, first, Async, entities)
    ensures RowsOf(db.rows, j) == WithStatus(db.rows, j, RowPending)
  {
    forall id | id in RowsOf(db.rows, j)
      ensures db.rows[id].status == RowPending
    {
    }
  }

  lemma RowIdsAreTheRows(first: nat, n: nat, rowIds: seq<nat>)
    requires |rowIds| == n && forall i :: 0 <= i < n ==> rowIds[i] == first + i
    ensures forall id :: id in rowIds <==> id in Interval(first, n)
  {
    forall id | id in Interval(first, n)
      ensures id in rowIds
    {
      assert rowIds[id - first] == id;
    }
  }

  /**
   * Creating a batch job in SYNC mode runs the worker in place: the answer is a
   * finished job with one settled row per distinct record, never an open one.
   * Larger selections are left PENDING for the queue; if the queue cannot be
   * reached the job is closed as FAILED, its rows stay PENDING, and the caller is told.
   */
  method CreateBatchOperation(repo: BatchOperationRepository, input: seq<string>, maxRecords: nat, syncThreshold: nat,
                              enqueued: bool, outcome: nat -> Outcome, now: int)
    returns (answer: Result<nat, CreateError>, entities: seq<string>)
    requires Inv(repo.Tables())
    modifies repo
    ensures Distinct(entities) && forall id :: id in entities <==> id in input && !Blank(id)
    ensures InFirstOrder(entities, input)
    ensures answer == if |entities| == 0 then Err(NoRecords)
                      else if |entities| > maxRecords then Err(TooManyRecords)
                      else if |entities| > syncThreshold && !enqueued then Err(NotEnqueued)
                      else Ok(old(repo.nextJob))
    ensures Inv(repo.Tables())
    ensures if answer.Ok? || answer == Err(NotEnqueued)
            then old(repo.nextJob) !in old(repo.jobs) && Submitted(repo.Tables(), old(repo.nextJob), entities, syncThreshold, enqueued, outcome)
            else repo.Tables() == old(repo.Tables())
  {
    entities := SelectEntities(input);
    if |entities| == 0 {
      return Err(NoRecords), entities;
    }
    if |entities| > maxRecords {
      return Err(TooManyRecords), entities;
    }
    var mode := if |entities| <= syncThreshold then Sync else Async;
    var j, rowIds := CreateJob(repo, mode, entities, now);
    if mode.Sync? {
      RunInPlace(repo, j, rowIds, entities, syncThreshold, enqueued, outcome, now);
      return Ok(j), entities;
    }
    HandOver(repo, j, entities, syncThreshold, enqueued, outcome);
    return if enqueued then Ok(j) else Err(NotEnqueued), entities;
  }

  /** ASYNC mode: the job waits for its chunks, or is closed because they could not be sent. */
  method HandOver(repo: BatchOperationRepository, j: nat, ghost entities: seq<string>, ghost syncThreshold: nat, enqueued: bool,
                  ghost outcome: nat -> Outcome)
    requires Inv(repo.Tables()) && Distinct(entities) && |entities| > syncThreshold
    requires exists first :: JustCreated(repo.Tables(), j, first, Async, entities)
    modifies repo
    ensures Inv(repo.Tables()) && Submitted(repo.Tables(), j, entities, syncThreshold, enqueued, outcome)
  {
    ghost var first :| JustCreated(repo.Tables(), j, first, Async, entities);
    ghost var created := repo.Tables();
    if !enqueued {
      AbandonSubmission(repo, j);
    }
    AsyncSubmission(created, j, first, entities, syncThreshold, enqueued, outcome);
  }

  /** The queue could not be reached: the job is closed, and nothing else changes. */
  method AbandonSubmission(repo: BatchOperationRepository, j: nat)
    requires Inv(repo.Tables()) && CanClose(repo.Tables(), j)
    modifies repo
    ensures Inv(repo.Tables())
    ensures repo.Tables() == CloseJob(old(repo.Tables()), j, JobFailed) && repo.jobs[j].status.JobFailed?
    ensures repo.rows == old(repo.rows) && repo.jobs[j].total == old(repo.jobs)[j].total
  {
    DoKeepsInv(repo.Tables(), OpClose(j, JobFailed));
    repo.MarkJobFailed(j);
  }

  method CreateJob(repo: BatchOperationRepository, mode: Mode, entities: seq<string>, now: int)
    returns (j: nat, rowIds: seq<nat>)
    requires Inv(repo.Tables())
    modifies repo
    ensures Inv(repo.Tables())
    ensures j == old(repo.nextJob) && j !in old(repo.jobs)
    ensures JustCreated(repo.Tables(), j, old(repo.nextRow), mode, entities)
    ensures forall id :: id in rowIds <==> id in RowsOf(repo.rows, j)
  {
    DoKeepsInv(repo.Tables(), OpCreate(mode, entities, now));
    NextJobIsFresh(repo.Tables());
    CreatedRowsFacts(repo.Tables(), mode, entities, now);
    ghost var first := repo.nextRow;
    j, rowIds := repo.CreateJobWithRows(mode, entities, now);
    RowIdsAreTheRows(first, |entities|, rowIds);
  }

  /** SYNC mode: the same worker, called in place. */
  method RunInPlace(repo: BatchOperationRepository, j: nat, rowIds: seq<nat>, ghost entities: seq<string>,
                    ghost syncThreshold: nat, ghost enqueued: bool, outcome: nat -> Outcome, now: int)
    requires Inv(repo.Tables()) && Distinct(entities) && |entities| <= syncThreshold
    requires exists first :: JustCreated(repo.Tables(), j, first, Sync, entities)
    requires forall id :: id in rowIds <==> id in RowsOf(repo.rows, j)
    modifies repo
    ensures Inv(repo.Tables()) && Submitted(repo.Tables(), j, entities, syncThreshold, enqueued, outcome)
  {
    ghost var first :| JustCreated(repo.Tables(), j, first, Sync, entities);
    ghost var created := repo.Tables();
    var _ := ProcessChunk(repo, j, rowIds, outcome, now);
    SyncSubmission(created, repo.Tables(), j, first, entities, rowIds, syncThreshold, enqueued, outcome);
  }
}
