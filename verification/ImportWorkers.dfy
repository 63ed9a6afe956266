/**
 * Several execute workers on the rows of one import job. The stage lock is
 * renewed in the background and may be lost, so workers overlap; they may also
 * crash. Each closes the job on what the header showed after its own recount.
 */
module ImportWorkers {
  import opened Common
  import opened ImportRows
  import opened ImportJobs
  import E = ImportExecution

  /** A worker between two statements. */
  datatype Proc =
    | Looking
    | Claiming
    | Holding(claims: map<nat, nat>, answered: set<nat>)
    | Counting
    | Drained
    | Reading
    | Ending(status: Status, seen: Rows)

  /** Beside the tables: the rows at the latest recount, and those behind the verdict the job was closed with. */
  datatype State = State(
    chunk: nat,
    job: Job,
    rows: Rows,
    counted: Option<Rows>,
    closing: Option<Rows>,
    procs: map<nat, Proc>)

  datatype Step =
    | Begin(p: nat)
    | Look(p: nat)
    | Claim(p: nat, now: int)
    | Answer(p: nat, row: nat, result: Execution)
    | Leave(p: nat)
    | Recount(p: nat)
    | Read(p: nat)
    | End(p: nat)
    | Raise(p: nat)
    | Crash(p: nat)
    | RequestCancel
    | EndElsewhere(status: Status)
    | Reset(cutoff: int, now: int)
    | Sweep(now: int)

  function Start(chunk: nat, job: Job, rows: Rows): State {
    State(chunk, job.(status := Executing), rows, None, None, map[])
  }

  function Goto(s: State, p: nat, next: Proc): State {
    s.(procs := s.procs[p := next])
  }

  function Gone(s: State, p: nat): State {
    s.(procs := s.procs - {p})
  }

  function ClaimStep(s: State, p: nat, now: int): State {
    var claimed := Lowest(Claimable(s.rows), s.chunk);
    var held := ClaimRows(s.rows, claimed, now);
    if claimed == [] then Goto(s, p, Drained)
    else Goto(s.(rows := held), p, Holding(E.Tokens(held, claimed), {}))
  }

  /** A settlement names the token of the worker's own claim; for other rows it would fit none. */
  function AnswerStep(s: State, p: nat, proc: Proc, row: nat, status: Execution): State
    requires proc.Holding?
  {
    if row in proc.claims
    then Goto(s.(rows := Settle(s.rows, Settlement(row, status, proc.claims[row]))), p, proc.(answered := proc.answered + {row}))
    else s
  }

  function RecountStep(s: State, p: nat, next: Proc): State {
    Goto(s.(job := RecountCounters(s.job, s.rows), counted := Some(s.rows)), p, next)
  }

  function EndStep(s: State, p: nat, proc: Proc): State
    requires proc.Ending?
  {
    if Terminal(s.job.status) then Gone(s, p)
    else Gone(s.(job := MarkTerminal(s.job, proc.status, Executing).GetOr(s.job), closing := Some(proc.seen)), p)
  }

  /** The next statement of a worker that is where the step expects it. */
  function Act(s: State, p: nat, proc: Proc, step: Step): State {
    match (step, proc)
    case (Look(_), Looking) => if s.job.cancelRequested then Goto(s, p, Ending(Cancelled, s.rows)) else Goto(s, p, Claiming)
    case (Claim(_, now), Claiming) => ClaimStep(s, p, now)
    case (Answer(_, row, status), Holding(_, _)) => AnswerStep(s, p, proc, row, status)
    case (Leave(_), Holding(_, _)) => Goto(s, p, Counting)
    case (Recount(_), Counting) => RecountStep(s, p, Looking)
    case (Recount(_), Drained) => RecountStep(s, p, Reading)
    case (Read(_), Reading) => Goto(s, p, Ending(E.FinalStatus(s.job), s.counted.GetOr(s.rows)))
    case (End(_), Ending(_, _)) => EndStep(s, p, proc)
    case (Raise(_), _) => Goto(s, p, Ending(JobFailed, s.rows))
    case _ => s
  }

  function Apply(s: State, step: Step): State {
    match step
    case Begin(p) => if p !in s.procs && s.job.status.Executing? then Goto(s, p, Looking) else s
    case Crash(p) => Gone(s, p)
    case RequestCancel => s.(job := s.job.(cancelRequested := true))
    case EndElsewhere(status) =>
      if (status.Cancelled? || status.JobFailed?) && !Terminal(s.job.status)
      then s.(job := MarkTerminal(s.job, status, Executing).GetOr(s.job), closing := Some(s.rows)) else s
    case Reset(cutoff, now) => if s.job.status.Executing? then s.(rows := ResetStale(s.rows, cutoff, now)) else s
    case Sweep(now) => if Terminal(s.job.status) then s.(rows := Abandon(s.rows, now)) else s
    case _ => if step.p in s.procs then Act(s, step.p, s.procs[step.p], step) else s
  }

  function After(s: State, steps: seq<Step>): State
    decreases |steps|
  {
    if steps == [] then s else After(Apply(s, steps[0]), steps[1..])
  }

  // ----- what a verdict is about -----

  /** Same rows, same validation; rows that are settled, or never will be, as they were. */
  ghost predicate Kept(a: Rows, b: Rows) {
    && a.Keys == b.Keys
    && forall n :: n in a ==>
         && a[n].validation == b[n].validation
         && (Final(a[n].execution) || (!a[n].validation.Valid? && a[n].execution.Waiting?) ==> b[n].execution == a[n].execution)
  }

  /** The verdict the job gets from a recount of these rows. */
  function VerdictOf(rows: Rows): Status {
    if FailedRows(rows) == {} && InvalidRows(rows) == {} then Completed else CompletedWithErrors
  }

  predicate ByVerdict(s: Status) {
    s.Completed? || s.CompletedWithErrors?
  }

  ghost predicate Between(first: Rows, seen: Rows, rows: Rows) {
    Kept(first, seen) && Kept(seen, rows)
  }

  ghost predicate VerdictOk(first: Rows, s: State, status: Status, seen: Rows) {
    ByVerdict(status) ==> status == VerdictOf(seen) && Between(first, seen, s.rows)
  }

  ghost predicate ProcOk(first: Rows, s: State, proc: Proc) {
    && (proc.Reading? ==> s.counted.Some?)
    && (proc.Ending? ==> VerdictOk(first, s, proc.status, proc.seen))
  }

  ghost predicate Inv(first: Rows, s: State) {
    && first != map[] && Kept(first, s.rows)
    && (s.counted.Some? ==> E.FinalStatus(s.job) == VerdictOf(s.counted.value) && Between(first, s.counted.value, s.rows))
    && (forall p :: p in s.procs ==> ProcOk(first, s, s.procs[p]))
    && (if ByVerdict(s.job.status) then s.closing.Some? && VerdictOk(first, s, s.job.status, s.closing.value) else true)
  }

  lemma KeptIsTransitive(a: Rows, b: Rows, c: Rows)
    requires Kept(a, b) && Kept(b, c)
    ensures Kept(a, c)
  {
  }

  lemma ClaimKeeps(rows: Rows, chunk: nat, now: int)
    ensures Kept(rows, ClaimRows(rows, Lowest(Claimable(rows), chunk), now))
  {
    LowestAreDistinct(Claimable(rows), chunk);
    ClaimRowsEffect(rows, Lowest(Claimable(rows), chunk), now);
  }

  lemma RowsAreKept(s: State, step: Step)
    ensures Kept(s.rows, Apply(s, step).rows)
  {
    match step
    case Claim(p, now) => ClaimKeeps(s.rows, s.chunk, now);
    case _ =>
  }

  lemma RecountShowsRows(job: Job, rows: Rows)
    requires rows != map[]
    ensures E.FinalStatus(RecountCounters(job, rows)) == VerdictOf(rows)
  {
    var f, i := FailedRows(rows), InvalidRows(rows);
    assert |f| == 0 <==> f == {};
    assert |i| == 0 <==> i == {};
  }

  lemma VerdictLasts(first: Rows, s: State, t: State, status: Status, seen: Rows)
    requires VerdictOk(first, s, status, seen) && Kept(s.rows, t.rows)
    ensures VerdictOk(first, t, status, seen)
  {
  }

  lemma OthersStayOk(first: Rows, s: State, step: Step, q: nat)
    requires Inv(first, s) && q in s.procs && q in Apply(s, step).procs && Apply(s, step).procs[q] == s.procs[q]
    ensures ProcOk(first, Apply(s, step), s.procs[q])
  {
    RowsAreKept(s, step);
    if s.procs[q].Ending? {
      VerdictLasts(first, s, Apply(s, step), s.procs[q].status, s.procs[q].seen);
    }
  }

  lemma MoverIsOk(first: Rows, s: State, step: Step, q: nat)
    requires Inv(first, s) && q in Apply(s, step).procs && (q !in s.procs || Apply(s, step).procs[q] != s.procs[q])
    ensures ProcOk(first, Apply(s, step), Apply(s, step).procs[q])
  {
  }

  /** The outcome counters change in a recount only. */
  lemma CountersAfter(s: State, step: Step)
    ensures var t := Apply(s, step);
            || (t.counted == s.counted && E.FinalStatus(t.job) == E.FinalStatus(s.job))
            || (t.counted == Some(s.rows) && t.rows == s.rows && t.job == RecountCounters(s.job, s.rows))
  {
  }

  lemma CountedStaysOk(first: Rows, s: State, step: Step)
    requires Inv(first, s)
    ensures var t := Apply(s, step);
            t.counted.Some? ==> E.FinalStatus(t.job) == VerdictOf(t.counted.value) && Between(first, t.counted.value, t.rows)
  {
    RowsAreKept(s, step);
    CountersAfter(s, step);
    assert s.rows != map[] by {
      assert s.rows.Keys == first.Keys;
    }
    RecountShowsRows(s.job, s.rows);
  }

  /** The job is ended by a worker about to end it, or elsewhere without a verdict. */
  lemma StatusAfter(s: State, step: Step)
    ensures var t := Apply(s, step);
            || (t.job.status == s.job.status && t.closing == s.closing)
            || !ByVerdict(t.job.status)
            || (step.End? && step.p in s.procs && s.procs[step.p].Ending? && t.rows == s.rows
                && t.job.status == s.procs[step.p].status && t.closing == Some(s.procs[step.p].seen))
  {
  }

  lemma ClosingStaysOk(first: Rows, s: State, step: Step)
    requires Inv(first, s)
    ensures var t := Apply(s, step);
            ByVerdict(t.job.status) ==> t.closing.Some? && VerdictOk(first, t, t.job.status, t.closing.value)
  {
    RowsAreKept(s, step);
    StatusAfter(s, step);
    if step.End? && step.p in s.procs {
      assert ProcOk(first, s, s.procs[step.p]);
    }
  }

  lemma {:induction false} RunKeepsInv(first: Rows, s: State, steps: seq<Step>)
    requires Inv(first, s)
    ensures Inv(first, After(s, steps))
    decreases |steps|
  {
    if steps != [] {
      var t := Apply(s, steps[0]);
      RowsAreKept(s, steps[0]);
      CountedStaysOk(first, s, steps[0]);
      ClosingStaysOk(first, s, steps[0]);
      forall q | q in t.procs
        ensures ProcOk(first, t, t.procs[q])
      {
        if q in s.procs && t.procs[q] == s.procs[q] {
          OthersStayOk(first, s, steps[0], q);
        } else {
          MoverIsOk(first, s, steps[0], q);
        }
      }
      RunKeepsInv(first, t, steps[1..]);
    }
  }

  /** Rows that may still change. */
  function Unsettled(rows: Rows): set<nat> {
    Claimable(rows) + Open(rows)
  }

  ghost predicate AllApplied(rows: Rows) {
    forall n :: n in rows ==> rows[n].execution.Applied?
  }

  /**
   * Whatever workers, sweeps and cancellations did, a job that is COMPLETED or
   * COMPLETED_WITH_ERRORS carries the verdict of its rows at one recount. As its
   * rows stand now, COMPLETED is true of them exactly if all rows that were unsettled at that
   * recount have been applied.
   */
  lemma CompletedIsTrueExactly(chunk: nat, job: Job, rows: Rows, steps: seq<Step>)
    requires rows != map[] && Ready(rows)
    ensures var s := After(Start(chunk, job, rows), steps);
            ByVerdict(s.job.status) ==>
              && s.closing.Some? && Between(rows, s.closing.value, s.rows) && s.job.status == VerdictOf(s.closing.value)
              && (s.job.status.Completed? ==>
                    (AllApplied(s.rows) <==> forall n :: n in Unsettled(s.closing.value) ==> s.rows[n].execution.Applied?))
              && (s.job.status.CompletedWithErrors? ==> !AllApplied(s.rows))
  {
    var s := After(Start(chunk, job, rows), steps);
    RunKeepsInv(rows, Start(chunk, job, rows), steps);
    if ByVerdict(s.job.status) {
      VerdictAgainstRows(rows, s.closing.value, s.rows);
    }
  }

  /** As the execute stage finds them. */
  ghost predicate Ready(rows: Rows) {
    E.Ready(rows)
  }

  lemma VerdictAgainstRows(first: Rows, seen: Rows, rows: Rows)
    requires Ready(first) && Between(first, seen, rows)
    ensures VerdictOf(seen).Completed? ==>
              (AllApplied(rows) <==> forall n :: n in Unsettled(seen) ==> rows[n].execution.Applied?)
    ensures VerdictOf(seen).CompletedWithErrors? ==> !AllApplied(rows)
  {
    if VerdictOf(seen).Completed? {
      forall n | n in rows && n !in Unsettled(seen)
        ensures rows[n].execution.Applied?
      {
        assert n !in FailedRows(seen) && n !in InvalidRows(seen) && !first[n].validation.Unchecked?;
      }
      assert forall n :: n in Unsettled(seen) ==> n in rows;
    } else if n :| n in FailedRows(seen) {
      assert n in rows && !rows[n].execution.Applied?;
    } else {
      var n :| n in InvalidRows(seen);
      assert n in rows && !rows[n].execution.Applied?;
    }
  }
}
