/** The batch statements row by row and job by job, on the columns. */
module BatchStatements {
  import opened Common
  import opened BatchTables
  import opened BatchPipeline

  predicate IsOpen(db: Db, j: nat) {
    j in db.jobs && db.jobs[j].status in {JobPending, JobRunning}
  }

  // ----- rows -----

  /** A claim takes exactly the named row, if it waits, under its next token and the present time. */
  lemma ClaimWrites(db: Db, id: nat, now: int, k: nat)
    requires k in db.rows
    ensures var after := Do(db, OpClaim(id, now)); var was := db.rows[k];
            && after.jobs == db.jobs && after.rows.Keys == db.rows.Keys
            && after.rows[k] == (if k == id && was.status == RowPending
                                 then Row(was.job, was.entity, Processing, was.token + 1, was.abandoned, now) else was)
  {
  }

  /** A settlement lands on the named row if and only if it is held under the presented token; only then the header counts it. */
  lemma SettleWrites(db: Db, id: nat, j: nat, token: int, outcome: Outcome, now: int, k: nat)
    requires k in db.rows && j in db.jobs
    ensures var after := Do(db, OpSettle(id, j, token, outcome, now)); var was := db.rows[k]; var job := db.jobs[j];
            var lands := id in db.rows && db.rows[id].status == Processing && db.rows[id].token == token;
            && after.rows.Keys == db.rows.Keys && after.jobs.Keys == db.jobs.Keys
            && after.rows[k] == (if lands && k == id then Row(was.job, was.entity, outcome, was.token, was.abandoned, now) else was)
            && after.jobs[j] == (if !lands then job
                                 else Job(job.mode, job.status, job.total, job.processed + 1,
                                          job.success + if outcome == Success then 1 else 0,
                                          job.failed + if outcome == RowFailed then 1 else 0,
                                          job.skipped + if outcome == Skipped then 1 else 0, job.cancelRequested))
            && forall l :: l in db.jobs && l != j ==> after.jobs[l] == db.jobs[l]
  {
  }

  /**
   * A row goes back to PENDING, under its next token, if and only if it was
   * PROCESSING, was last written before the cutoff, and its job is open.
   */
  lemma ResetWrites(db: Db, cutoff: int, now: int, k: nat)
    requires k in db.rows
    ensures var after := Do(db, OpReset(cutoff, now)); var was := db.rows[k];
            && after.jobs == db.jobs && after.rows.Keys == db.rows.Keys
            && after.rows[k] == (if was.status == Processing && was.updatedAt < cutoff && IsOpen(db, was.job)
                                 then Row(was.job, was.entity, RowPending, was.token + 1, was.abandoned, now) else was)
  {
  }

  /** The second statement closes exactly the PROCESSING rows of ended jobs, as SKIPPED and marked abandoned. */
  lemma AbandonWrites(db: Db, now: int, k: nat)
    requires k in db.rows && db.rows[k].job in db.jobs
    ensures var after := Do(db, OpAbandon(now)); var was := db.rows[k];
            && after.jobs == db.jobs && after.rows.Keys == db.rows.Keys
            && after.rows[k] == (if was.status == Processing && !IsOpen(db, was.job)
                                 then Row(was.job, was.entity, Skipped, was.token, true, now) else was)
  {
  }

  /** What the two statements together make of a row. */
  function SweptRow(db: Db, was: Row, cutoff: int, now: int): Row {
    if was.status == Processing && was.updatedAt < cutoff && IsOpen(db, was.job)
    then Row(was.job, was.entity, RowPending, was.token + 1, was.abandoned, now)
    else if was.status == Processing && was.job in db.jobs && !IsOpen(db, was.job)
    then Row(was.job, was.entity, Skipped, was.token, true, now)
    else was
  }

  lemma SweepWrites(db: Db, cutoff: int, now: int)
    ensures var after := AbandonOrphanedRows(ResetStuckRows(db, cutoff, now), now);
            && after.jobs == db.jobs && after.rows.Keys == db.rows.Keys
            && forall k :: k in db.rows ==> after.rows[k] == SweptRow(db, db.rows[k], cutoff, now)
  {
  }

  /** The rows that a reset hands back. */
  function HandedBack(db: Db, cutoff: int): set<nat> {
    set k | k in db.rows && db.rows[k].status == Processing && db.rows[k].updatedAt < cutoff && IsOpen(db, db.rows[k].job)
  }

  lemma StuckAreHandedBack(db: Db, cutoff: int)
    ensures (set id | id in db.rows && Stuck(db, id, cutoff)) == HandedBack(db, cutoff)
  {
  }

  // ----- jobs -----

  /** Only these two statements and the creation write a status; a closed job keeps its own. */
  lemma StatusWrites(db: Db, op: Op, j: nat)
    requires j in db.jobs && WellFormed(db)
    ensures var after := Do(db, op); var was := db.jobs[j];
            && j in after.jobs
            && after.jobs[j].status == (match op
                 case OpMarkRunning(k) => if k == j && was.status == JobPending && !was.cancelRequested then JobRunning else was.status
                 case OpClose(k, status) => if k == j && was.status in {JobPending, JobRunning} then status else was.status
                 case _ => was.status)
            && after.jobs[j].cancelRequested == (was.cancelRequested || op == OpCancelFlag(j))
            && after.jobs[j].total == was.total && after.jobs[j].mode == was.mode
  {
  }

  /** The rows of the job in one of these states. */
  function RowsIn(db: Db, j: nat, statuses: set<RowStatus>): set<nat> {
    set id | id in db.rows && db.rows[id].job == j && db.rows[id].status in statuses
  }

  /** A recount gives every open job with rows its counters from the rows, whatever they were, and touches no other. */
  lemma RecountWrites(db: Db, j: nat)
    requires j in db.jobs
    ensures var after := Do(db, OpRecount); var was := db.jobs[j]; var hasRows := exists id :: id in db.rows && db.rows[id].job == j;
            && after.rows == db.rows && after.jobs.Keys == db.jobs.Keys
            && after.jobs[j] == (if !IsOpen(db, j) || !hasRows then was
                                 else Job(was.mode, was.status, was.total, |RowsIn(db, j, {Success, RowFailed, Skipped})|, |RowsIn(db, j, {Success})|,
                                          |RowsIn(db, j, {RowFailed})|, |RowsIn(db, j, {Skipped})|, was.cancelRequested))
  {
    assert RowsIn(db, j, {Success, RowFailed, Skipped}) == SettledRows(db.rows, j);
    assert RowsIn(db, j, {Success}) == WithStatus(db.rows, j, Success);
    assert RowsIn(db, j, {RowFailed}) == WithStatus(db.rows, j, RowFailed);
    assert RowsIn(db, j, {Skipped}) == WithStatus(db.rows, j, Skipped);
    HasRows(db.rows, j);
  }

  lemma HasRows(rows: map<nat, Row>, j: nat)
    ensures RowsOf(rows, j) != {} <==> exists id :: id in rows && rows[id].job == j
  {
    if id :| id in rows && rows[id].job == j {
      assert id in RowsOf(rows, j);
    }
    if id :| id in RowsOf(rows, j) {
      assert rows[id].job == j;
    }
  }

  /** A new job: RUNNING when it is processed in place, PENDING when it is queued, with one waiting row per entity. */
  lemma CreateWrites(db: Db, mode: Mode, entities: seq<string>, now: int)
    requires WellFormed(db)
    ensures var after := Do(db, OpCreate(mode, entities, now));
            && after.jobs == db.jobs[db.nextJob := Job(mode, if mode == Sync then JobRunning else JobPending, |entities|, 0, 0, 0, 0, false)]
            && (forall k :: k in after.rows <==> k in db.rows || db.nextRow <= k < db.nextRow + |entities|)
            && (forall k :: k in db.rows ==> after.rows[k] == db.rows[k])
            && (forall i :: 0 <= i < |entities| ==>
                  after.rows[db.nextRow + i] == Row(db.nextJob, entities[i], RowPending, 0, false, now))
  {
    AddedRowsAre(db, entities, now);
  }

  lemma AddedRowsAre(db: Db, entities: seq<string>, now: int)
    ensures var added := AddedRows(db, entities, now);
            && (forall k :: k in added <==> db.nextRow <= k < db.nextRow + |entities|)
            && (forall i :: 0 <= i < |entities| ==> added[db.nextRow + i] == Row(db.nextJob, entities[i], RowPending, 0, false, now))
  {
  }

  /** COMPLETED without a failed row, FAILED with failed rows and no success, COMPLETED_WITH_ERRORS with both. */
  lemma VerdictMeans(rows: map<nat, Row>, j: nat)
    ensures var failed := exists id :: id in rows && rows[id].job == j && rows[id].status == RowFailed;
            var succeeded := exists id :: id in rows && rows[id].job == j && rows[id].status == Success;
            VerdictOfRows(rows, j) == if !failed then Completed else if succeeded then CompletedWithErrors else JobFailed
  {
    if id :| id in rows && rows[id].job == j && rows[id].status == RowFailed {
      assert id in WithStatus(rows, j, RowFailed);
    }
    if id :| id in rows && rows[id].job == j && rows[id].status == Success {
      assert id in WithStatus(rows, j, Success);
    }
  }

  // ----- young claims -----

  /** A claim stands until it is settled or a reset finds it older than its cutoff. */
  predicate SparesClaim(op: Op, id: nat, at: int) {
    && (op.OpReset? ==> op.cutoff <= at)
    && (op.OpSettle? ==> op.row != id)
  }

  lemma YoungClaimStands(db: Db, op: Op, id: nat, at: int)
    requires WellFormed(db) && id in db.rows && db.rows[id].status == Processing && db.rows[id].updatedAt == at
    requires SparesClaim(op, id, at) && (op.OpAbandon? ==> IsOpen(db, db.rows[id].job))
    ensures var after := Do(db, op); id in after.rows && after.rows[id] == db.rows[id]
  {
  }

  ghost predicate StaysOpen(db: Db, ops: seq<Op>, j: nat)
    decreases |ops|
  {
    IsOpen(db, j) && (ops == [] || StaysOpen(Do(db, ops[0]), ops[1..], j))
  }

  lemma {:induction false} YoungClaimLasts(db: Db, ops: seq<Op>, id: nat, at: int)
    requires WellFormed(db) && LegalRun(db, ops)
    requires id in db.rows && db.rows[id].status == Processing && db.rows[id].updatedAt == at
    requires (forall k :: 0 <= k < |ops| ==> SparesClaim(ops[k], id, at)) && StaysOpen(db, ops, db.rows[id].job)
    ensures var after := BatchTables.Run(db, ops); id in after.rows && after.rows[id] == db.rows[id]
    decreases |ops|
  {
    if ops != [] {
      assert SparesClaim(ops[0], id, at);
      YoungClaimStands(db, ops[0], id, at);
      DoEvolves(db, ops[0]);
      YoungClaimLasts(Do(db, ops[0]), ops[1..], id, at);
    }
  }

  /**
   * A row claimed at `now` is still held under that very claim after any
   * statements of anybody, as long as nobody settles it, its job stays open, and
   * no reset has a cutoff later than `now`.
   */
  lemma YoungClaimSurvives(db: Db, id: nat, now: int, ops: seq<Op>)
    requires WellFormed(db) && id in db.rows && db.rows[id].status == RowPending && LegalRun(Do(db, OpClaim(id, now)), ops)
    requires (forall k :: 0 <= k < |ops| ==> SparesClaim(ops[k], id, now)) && StaysOpen(Do(db, OpClaim(id, now)), ops, db.rows[id].job)
    ensures var after := BatchTables.Run(Do(db, OpClaim(id, now)), ops);
            && id in after.rows && after.rows[id].status == Processing && after.rows[id].token == db.rows[id].token + 1
            && after.rows[id].updatedAt == now
  {
    ClaimWrites(db, id, now, id);
    DoEvolves(db, OpClaim(id, now));
    YoungClaimLasts(Do(db, OpClaim(id, now)), ops, id, now);
  }

  // ----- one row, by the machine and by the sequential worker -----

  /**
   * What a worker left alone does with the next row of its chunk: nothing on a
   * cancelled job or on a row that does not wait; otherwise it claims the row and
   * settles it with the handler's outcome.
   */
  lemma MachineHandlesRow(s: State, p: nat, d: Dispatch, i: nat, outcome: Outcome, now: int)
    requires p in s.procs && s.procs[p] == CancelCheck(d, i) && i < |d.rows| && d.job in s.db.jobs && d.rows[i] in s.db.rows
    requires !s.db.jobs[d.job].cancelRequested && s.db.rows[d.rows[i]].status == RowPending
    ensures var step := Advance(p, Choice(now, outcome, true, false)); var id := d.rows[i]; var was := s.db.rows[id];
            var t := Apply(Apply(Apply(Apply(s, step), step), step), step);
            && p in t.procs && t.procs[p] == CancelCheck(d, i + 1)
            && id in t.db.rows && t.db.rows[id] == Row(was.job, was.entity, outcome, was.token + 1, was.abandoned, now)
            && t.db.rows.Keys == s.db.rows.Keys && forall k :: k in s.db.rows && k != id ==> t.db.rows[k] == s.db.rows[k]
  {
    var step, id := Advance(p, Choice(now, outcome, true, false)), d.rows[i];
    var token := s.db.rows[id].token + 1;
    MachineClaims(s, p, d, i, outcome, now);
    MachineSettles(Apply(Apply(s, step), step), p, d, i, token, outcome, now);
  }

  lemma MachineClaims(s: State, p: nat, d: Dispatch, i: nat, outcome: Outcome, now: int)
    requires p in s.procs && s.procs[p] == CancelCheck(d, i) && i < |d.rows| && d.rows[i] in s.db.rows
    requires !CancelWanted(s.db, d.job) && s.db.rows[d.rows[i]].status == RowPending
    ensures var step := Advance(p, Choice(now, outcome, true, false)); var t := Apply(Apply(s, step), step);
            && t.db == ClaimRow(s.db, d.rows[i], now) && p in t.procs
            && t.procs[p] == Rechecking(d, i, s.db.rows[d.rows[i]].token + 1)
  {
    var s1 := Apply(s, Advance(p, Choice(now, outcome, true, false)));
    assert s1.db == s.db && s1.procs[p] == Claiming(d, i);
  }

  lemma MachineSettles(s: State, p: nat, d: Dispatch, i: nat, token: nat, outcome: Outcome, now: int)
    requires p in s.procs && s.procs[p] == Rechecking(d, i, token) && i < |d.rows| && !CancelWanted(s.db, d.job)
    ensures var step := Advance(p, Choice(now, outcome, true, false)); var t := Apply(Apply(s, step), step);
            t.db == SettleRow(s.db, d.rows[i], d.job, token, outcome, now) && p in t.procs && t.procs[p] == CancelCheck(d, i + 1)
  {
    var s1 := Apply(s, Advance(p, Choice(now, outcome, true, false)));
    assert s1.db == s.db && s1.procs[p] == Handling(d, i, token);
  }

  /** A cancel request that lands between the claim and the handler: the row is handed back as SKIPPED and the handler is not asked. */
  lemma MachineHandsBack(s: State, p: nat, d: Dispatch, i: nat, token: nat, c: Choice)
    requires p in s.procs && s.procs[p] == Rechecking(d, i, token) && i < |d.rows| && d.job in s.db.jobs && d.rows[i] in s.db.rows
    requires s.db.jobs[d.job].cancelRequested && s.db.rows[d.rows[i]].status == Processing && s.db.rows[d.rows[i]].token == token
    ensures var t := Apply(Apply(s, Advance(p, c)), Advance(p, c)); var id := d.rows[i]; var was := s.db.rows[id];
            && p in t.procs && t.procs[p] == FinaliseCheck(d.job)
            && id in t.db.rows && t.db.rows[id] == Row(was.job, was.entity, Skipped, token, was.abandoned, c.now)
  {
    var s1 := Apply(s, Advance(p, c));
    assert s1.db == s.db && s1.procs[p] == HandingBack(d, i, token);
  }
}
