/** The import job header: its status compare-and-sets, its history and its counters recomputed from the rows. */
module ImportJobs {
  import opened Common
  import opened ImportRows

  datatype Status =
    | PendingUpload | Uploaded | Parsing | Mapped | Validating | Validated | Executing
    | Completed | CompletedWithErrors | JobFailed | Cancelled

  predicate Terminal(s: Status) {
    s.Completed? || s.CompletedWithErrors? || s.JobFailed? || s.Cancelled?
  }

  datatype Change = Change(from: Status, to: Status)

  datatype Job = Job(
    status: Status,
    total: nat,
    valid: nat,
    invalid: nat,
    applied: nat,
    failed: nat,
    cancelRequested: bool,
    history: seq<Change>)

  // ----- statements -----

  /** Refused unless the job is in one of the allowed states; the history entry is the caller's. */
  function TransitionStatus(job: Job, from: set<Status>, to: Status, claimed: Status): Result<Job, Status> {
    if job.status in from then Ok(job.(status := to, history := job.history + [Change(claimed, to)])) else Err(job.status)
  }

  /** None when another caller ended the job first. */
  function MarkTerminal(job: Job, status: Status, claimed: Status): Option<Job> {
    if Terminal(job.status) then None else Some(job.(status := status, history := job.history + [Change(claimed, status)]))
  }

  function ValidRows(rows: Rows): set<nat> {
    set n | n in rows && rows[n].validation.Valid?
  }

  function InvalidRows(rows: Rows): set<nat> {
    set n | n in rows && (rows[n].validation.Invalid? || rows[n].validation.Duplicate?)
  }

  function AppliedRows(rows: Rows): set<nat> {
    set n | n in rows && rows[n].execution.Applied?
  }

  function FailedRows(rows: Rows): set<nat> {
    set n | n in rows && (rows[n].execution.Failed? || rows[n].execution.Skipped?)
  }

  /** The grouped count has no group for a job without rows, which then keeps its counters. */
  function RecountCounters(job: Job, rows: Rows): Job {
    if rows == map[] then job
    else job.(total := |rows.Keys|, valid := |ValidRows(rows)|, invalid := |InvalidRows(rows)|,
              applied := |AppliedRows(rows)|, failed := |FailedRows(rows)|)
  }

  // ----- the status machine in every run -----

  datatype Op =
    | OpTransition(from: set<Status>, to: Status, claimed: Status)
    | OpEnd(status: Status, claimed: Status)
    | OpRecount(rows: Rows)
    | OpCancel
    | OpTotal(total: nat)

  /** No caller names an ended state as a starting point, and ending a job names an ended state. */
  predicate Legal(op: Op) {
    && (op.OpTransition? ==> forall s :: s in op.from ==> !Terminal(s))
    && (op.OpEnd? ==> Terminal(op.status))
  }

  function Do(job: Job, op: Op): Job {
    match op
    case OpTransition(from, to, claimed) =>
      (match TransitionStatus(job, from, to, claimed) case Ok(j) => j case Err(_) => job)
    case OpEnd(status, claimed) => MarkTerminal(job, status, claimed).GetOr(job)
    case OpRecount(rows) => RecountCounters(job, rows)
    case OpCancel => job.(cancelRequested := true)
    case OpTotal(total) => job.(total := total)
  }

  /** Terminal events: one for each ending that wrote. */
  function Events(job: Job, ops: seq<Op>): seq<Status>
    decreases |ops|
  {
    if ops == [] then []
    else (if ops[0].OpEnd? && MarkTerminal(job, ops[0].status, ops[0].claimed).Some? then [ops[0].status] else [])
         + Events(Do(job, ops[0]), ops[1..])
  }

  function Run(job: Job, ops: seq<Op>): Job
    decreases |ops|
  {
    if ops == [] then job else Run(Do(job, ops[0]), ops[1..])
  }

  /** An ended job keeps its status and history, and writes no further terminal event. */
  lemma {:induction false} EndedIsForever(job: Job, ops: seq<Op>)
    requires Terminal(job.status) && forall k :: 0 <= k < |ops| ==> Legal(ops[k])
    ensures Run(job, ops).status == job.status && Run(job, ops).history == job.history && Events(job, ops) == []
    decreases |ops|
  {
    if ops != [] {
      assert Legal(ops[0]);
      EndedIsForever(Do(job, ops[0]), ops[1..]);
    }
  }

  /**
   * However many finalisers, cancellers and stages race, at most one terminal
   * event is written, and it names the state the job ends in for good.
   */
  lemma {:induction false} AtMostOneTerminalEvent(job: Job, ops: seq<Op>)
    requires !Terminal(job.status) && forall k :: 0 <= k < |ops| ==> Legal(ops[k]) && (ops[k].OpTransition? ==> !Terminal(ops[k].to))
    ensures var after := Run(job, ops);
            Events(job, ops) == if Terminal(after.status) then [after.status] else []
    decreases |ops|
  {
    if ops != [] {
      assert Legal(ops[0]);
      var next := Do(job, ops[0]);
      if Terminal(next.status) {
        EndedIsForever(next, ops[1..]);
      } else {
        AtMostOneTerminalEvent(next, ops[1..]);
      }
    }
  }

  /** The history only grows, and its last entry names the current state. */
  lemma {:induction false} HistoryEndsInStatus(job: Job, ops: seq<Op>)
    requires job.history != [] && job.history[|job.history| - 1].to == job.status
    ensures var after := Run(job, ops);
            && job.history <= after.history && after.history[|after.history| - 1].to == after.status
    decreases |ops|
  {
    if ops != [] {
      HistoryEndsInStatus(Do(job, ops[0]), ops[1..]);
    }
  }

  // ----- counters -----

  /** Every row is settled or invalid, and only VALID rows are settled. */
  ghost predicate Finished(rows: Rows) {
    forall n :: n in rows ==>
      if rows[n].validation.Valid? then Final(rows[n].execution)
      else !rows[n].validation.Unchecked? && rows[n].execution.Waiting?
  }

  /** As Finished, but for rows left PROCESSING. */
  ghost predicate FinishedBut(rows: Rows, open: set<nat>) {
    && open <= ValidRows(rows)
    && forall n :: n in rows ==>
         if n in open then rows[n].execution.Processing?
         else if rows[n].validation.Valid? then Final(rows[n].execution)
         else !rows[n].validation.Unchecked? && rows[n].execution.Waiting?
  }

  /** After a recount the outcome counters miss exactly the rows left open, and whether all others are applied shows in them. */
  lemma CountersMissTheOpen(job: Job, rows: Rows, open: set<nat>)
    requires FinishedBut(rows, open) && rows != map[]
    ensures var j := RecountCounters(job, rows);
            && j.total == |rows.Keys| && j.applied + j.failed + j.invalid + |open| == j.total
            && (j.failed == 0 && j.invalid == 0 <==> forall n :: n in rows && n !in open ==> rows[n].execution.Applied?)
  {
    var a, f, i := AppliedRows(rows), FailedRows(rows), InvalidRows(rows);
    DisjointUnionSize(a, f);
    DisjointUnionSize(a + f, i);
    DisjointUnionSize(a + f + i, open);
    assert a + f + i + open == rows.Keys;
  }
}
