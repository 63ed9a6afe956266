/**
 * When the verdict of an import job is true of its rows for good: with handlers
 * that answer every row, it is so as long as workers neither overlap nor crash,
 * and either fault alone lets a job be COMPLETED over rows that then fail.
 */
module ImportVerdicts {
  import opened Common
  import opened ImportRows
  import opened ImportJobs
  import opened ImportWorkers
  import E = ImportExecution

  /** Handlers settle every claimed row; workers overlap or crash only where that is admitted. */
  predicate Allowed(s: State, step: Step, overlap: bool, crash: bool) {
    && (step.Begin? && !overlap ==> s.procs == map[])
    && (step.Crash? ==> crash)
    && (step.Answer? ==> !step.result.Processing?)
    && (step.Leave? && step.p in s.procs && s.procs[step.p].Holding? ==> s.procs[step.p].claims.Keys <= s.procs[step.p].answered)
  }

  predicate AllowedRun(s: State, steps: seq<Step>, overlap: bool, crash: bool)
    decreases |steps|
  {
    steps == [] || (Allowed(s, steps[0], overlap, crash) && AllowedRun(Apply(s, steps[0]), steps[1..], overlap, crash))
  }

  // ----- one worker after the other -----

  ghost predicate PhaseCalm(s: State, proc: Proc) {
    match proc
    case Holding(claims, answered) => forall n :: n in Open(s.rows) ==> n in claims && claims[n] == s.rows[n].token && n !in answered
    case Drained => Unsettled(s.rows) == {}
    case Reading => Unsettled(s.rows) == {} && s.counted == Some(s.rows)
    case Ending(status, seen) => Terminal(status) && (ByVerdict(status) ==> Unsettled(s.rows) == {} && seen == s.rows)
    case _ => Open(s.rows) == {}
  }

  ghost predicate Calm(s: State) {
    && (forall p, q :: p in s.procs && q in s.procs ==> p == q)
    && (ByVerdict(s.job.status) ==> Unsettled(s.rows) == {} && s.closing == Some(s.rows))
    && (!Terminal(s.job.status) ==>
          && (s.procs == map[] ==> Open(s.rows) == {})
          && forall p :: p in s.procs ==> PhaseCalm(s, s.procs[p]))
  }

  /** Settled rows stay as they are, whatever is tried on them. */
  lemma SettledRowsRest(s: State, step: Step)
    requires Unsettled(s.rows) == {}
    ensures Apply(s, step).rows == s.rows
  {
    if step.Claim? {
      LowestIsSorted(Claimable(s.rows), s.chunk);
    } else if step.Reset? {
      assert forall n :: n in s.rows ==> n !in Open(s.rows);
      assert ResetStale(s.rows, step.cutoff, step.now) == s.rows;
    } else if step.Sweep? {
      assert forall n :: n in s.rows ==> n !in Open(s.rows);
      assert Abandon(s.rows, step.now) == s.rows;
    } else if step.Answer? && step.p in s.procs && s.procs[step.p].Holding? && step.row in s.procs[step.p].claims {
      assert step.row !in Open(s.rows);
    }
  }

  /** A claim takes the lowest claimable rows, all of them claimable, and at least one if there is any. */
  lemma ChunkEffect(rows: Rows, chunk: nat, now: int)
    requires chunk > 0
    ensures var claimed := Lowest(Claimable(rows), chunk); var held := ClaimRows(rows, claimed, now);
            && held.Keys == rows.Keys
            && (forall n :: n in claimed ==> n in Claimable(rows))
            && (forall n :: n in rows ==>
                  held[n] == if n in claimed then rows[n].(execution := Processing, token := rows[n].token + 1, updatedAt := now)
                             else rows[n])
            && (claimed == [] <==> Claimable(rows) == {})
  {
    var claimed := Lowest(Claimable(rows), chunk);
    LowestIsSorted(Claimable(rows), chunk);
    LowestAreDistinct(Claimable(rows), chunk);
    ClaimRowsEffect(rows, claimed, now);
    if claimed != [] {
      assert claimed[0] in claimed;
    }
  }

  lemma ClaimKeepsCalm(s: State, p: nat, now: int)
    requires Calm(s) && s.chunk > 0 && !Terminal(s.job.status) && p in s.procs && s.procs[p].Claiming?
    ensures PhaseCalm(Apply(s, Claim(p, now)), Apply(s, Claim(p, now)).procs[p])
  {
    var t, claimed := Apply(s, Claim(p, now)), Lowest(Claimable(s.rows), s.chunk);
    ChunkEffect(s.rows, s.chunk, now);
    assert PhaseCalm(s, s.procs[p]);
    assert forall n :: n in Open(t.rows) ==> n in Open(s.rows) || n in claimed;
  }

  lemma AnswerKeepsCalm(s: State, p: nat, row: nat, result: Execution)
    requires p in s.procs && s.procs[p].Holding? && PhaseCalm(s, s.procs[p]) && !result.Processing?
    ensures var t := Apply(s, Step.Answer(p, row, result)); p in t.procs && PhaseCalm(t, t.procs[p])
  {
    var t := Apply(s, Step.Answer(p, row, result));
    assert forall n :: n in Open(t.rows) ==> n in Open(s.rows);
  }

  lemma ResetOpensNothing(s: State, cutoff: int, now: int)
    ensures Open(Apply(s, Reset(cutoff, now)).rows) <= Open(s.rows)
  {
  }

  lemma ResetKeepsCalm(s: State, cutoff: int, now: int, proc: Proc)
    requires PhaseCalm(s, proc)
    ensures PhaseCalm(Apply(s, Reset(cutoff, now)), proc)
  {
    if Unsettled(s.rows) == {} {
      SettledRowsRest(s, Reset(cutoff, now));
    }
    assert forall n :: n in Open(Apply(s, Reset(cutoff, now)).rows) ==> n in Open(s.rows);
  }

  lemma RestOfTheMoves(s: State, step: Step)
    requires Calm(s) && Allowed(s, step, false, false) && !Terminal(s.job.status) && !Terminal(Apply(s, step).job.status)
    requires !step.Claim? && !step.Answer? && !step.Reset?
    ensures var t := Apply(s, step); forall p :: p in t.procs ==> PhaseCalm(t, t.procs[p])
    ensures var t := Apply(s, step); t.procs == map[] ==> Open(t.rows) == {}
  {
    var t := Apply(s, step);
    assert t.rows == s.rows;
    forall p | p in t.procs
      ensures PhaseCalm(t, t.procs[p])
    {
      if p in s.procs {
        assert PhaseCalm(s, s.procs[p]);
      }
    }
  }

  lemma OpenJobStaysCalm(s: State, step: Step)
    requires Calm(s) && s.chunk > 0 && Allowed(s, step, false, false)
    requires !Terminal(s.job.status) && !Terminal(Apply(s, step).job.status)
    ensures var t := Apply(s, step); forall p :: p in t.procs ==> PhaseCalm(t, t.procs[p])
    ensures var t := Apply(s, step); t.procs == map[] ==> Open(t.rows) == {}
  {
    match step
    case Claim(p, now) => if p in s.procs && s.procs[p].Claiming? { ClaimKeepsCalm(s, p, now); }
    case Answer(p, row, result) => if p in s.procs && s.procs[p].Holding? { AnswerKeepsCalm(s, p, row, result); }
    case Reset(cutoff, now) =>
      ResetOpensNothing(s, cutoff, now);
      forall p | p in s.procs
        ensures PhaseCalm(Apply(s, step), s.procs[p])
      {
        ResetKeepsCalm(s, cutoff, now, s.procs[p]);
      }
    case _ => RestOfTheMoves(s, step);
  }

  /** A worker ends the job on the rows as they stand. */
  lemma EndingIsCalm(s: State, step: Step)
    requires Calm(s) && ByVerdict(Apply(s, step).job.status)
    ensures var t := Apply(s, step); Unsettled(t.rows) == {} && t.closing == Some(t.rows)
  {
    StatusAfter(s, step);
    if Unsettled(s.rows) == {} {
      SettledRowsRest(s, step);
    }
  }

  lemma WorkersStayApart(s: State, step: Step)
    requires Calm(s) && Allowed(s, step, false, false)
    ensures var t := Apply(s, step); forall p, q :: p in t.procs && q in t.procs ==> p == q
  {
    var t := Apply(s, step);
    assert t.procs.Keys <= s.procs.Keys || (step.Begin? && t.procs.Keys == {step.p});
  }

  lemma EndedStaysEnded(s: State, step: Step)
    requires Terminal(s.job.status)
    ensures Apply(s, step).job.status == s.job.status
  {
  }

  lemma {:induction false} RunStaysCalm(s: State, steps: seq<Step>)
    requires Calm(s) && s.chunk > 0 && AllowedRun(s, steps, false, false)
    ensures Calm(After(s, steps))
    decreases |steps|
  {
    if steps != [] {
      var t := Apply(s, steps[0]);
      WorkersStayApart(s, steps[0]);
      if ByVerdict(t.job.status) {
        EndingIsCalm(s, steps[0]);
      }
      if !Terminal(t.job.status) {
        if Terminal(s.job.status) {
          EndedStaysEnded(s, steps[0]);
        }
        OpenJobStaysCalm(s, steps[0]);
      }
      RunStaysCalm(t, steps[1..]);
    }
  }

  lemma SettledAndReady(rows: Rows)
    requires E.Ready(rows) && Unsettled(rows) == {}
    ensures VerdictOf(rows).Completed? <==> AllApplied(rows)
  {
    assert forall n :: n in rows ==> n !in Claimable(rows) && n !in Open(rows);
    if !AllApplied(rows) {
      var n :| n in rows && !rows[n].execution.Applied?;
      assert n in FailedRows(rows) || n in InvalidRows(rows);
    } else {
      assert FailedRows(rows) == {} && InvalidRows(rows) == {};
    }
  }

  /**
   * Workers that follow one another without a crash, with handlers that answer
   * every row: at the end every VALID row is settled, and the job is COMPLETED
   * exactly when all rows are applied.
   */
  lemma OneAfterTheOtherIsTrue(chunk: nat, job: Job, rows: Rows, steps: seq<Step>)
    requires rows != map[] && E.Ready(rows) && Open(rows) == {} && chunk > 0
    requires AllowedRun(Start(chunk, job, rows), steps, false, false)
    ensures var s := After(Start(chunk, job, rows), steps);
            ByVerdict(s.job.status) ==> Unsettled(s.rows) == {} && (s.job.status.Completed? <==> AllApplied(s.rows))
  {
    var s := After(Start(chunk, job, rows), steps);
    RunStaysCalm(Start(chunk, job, rows), steps);
    CompletedIsTrueExactly(chunk, job, rows, steps);
    if ByVerdict(s.job.status) {
      SettledAndReady(s.rows);
    }
  }

  // ----- either fault is enough -----

  /** The job is COMPLETED, and one of its rows is FAILED or SKIPPED. */
  predicate Untrue(s: State) {
    s.job.status.Completed? && FailedRows(s.rows) != {}
  }

  ghost predicate CanBeUntrue(chunk: nat, job: Job, rows: Rows, overlap: bool, crash: bool) {
    exists steps :: AllowedRun(Start(chunk, job, rows), steps, overlap, crash) && Untrue(After(Start(chunk, job, rows), steps))
  }

  lemma {:induction false} Append(s: State, steps: seq<Step>, step: Step, overlap: bool, crash: bool)
    requires AllowedRun(s, steps, overlap, crash) && Allowed(After(s, steps), step, overlap, crash)
    ensures AllowedRun(s, steps + [step], overlap, crash) && After(s, steps + [step]) == Apply(After(s, steps), step)
    decreases |steps|
  {
    if steps == [] {
      assert [] + [step] == [step] && [step][1..] == [];
      assert After(Apply(s, step), []) == Apply(s, step) && AllowedRun(Apply(s, step), [], overlap, crash);
    } else {
      Append(Apply(s, steps[0]), steps[1..], step, overlap, crash);
      assert (steps + [step])[1..] == steps[1..] + [step];
    }
  }

  lemma Extend(s0: State, steps: seq<Step>, step: Step, overlap: bool, crash: bool) returns (more: seq<Step>)
    requires AllowedRun(s0, steps, overlap, crash) && Allowed(After(s0, steps), step, overlap, crash)
    ensures AllowedRun(s0, more, overlap, crash) && After(s0, more) == Apply(After(s0, steps), step)
  {
    Append(s0, steps, step, overlap, crash);
    more := steps + [step];
  }

  /** A worker can begin: the job is open, and nobody is about unless that is admitted. */
  predicate CanBegin(s: State, p: nat, overlap: bool) {
    s.chunk > 0 && s.job.status.Executing? && !s.job.cancelRequested && p !in s.procs && (overlap || s.procs == map[])
  }

  lemma BeginAndLook(s0: State, steps: seq<Step>, p: nat, overlap: bool, crash: bool) returns (more: seq<Step>)
    requires AllowedRun(s0, steps, overlap, crash) && CanBegin(After(s0, steps), p, overlap)
    ensures AllowedRun(s0, more, overlap, crash) && After(s0, more) == Goto(After(s0, steps), p, Claiming)
  {
    more := Extend(s0, steps, Begin(p), overlap, crash);
    more := Extend(s0, more, Look(p), overlap, crash);
    assert After(s0, more).procs == After(s0, steps).procs[p := Claiming];
  }

  /** The rows after a claim, and what the claimer then holds. */
  function Held(s: State): Rows {
    ClaimRows(s.rows, Lowest(Claimable(s.rows), s.chunk), 0)
  }

  function Hold(s: State): Proc {
    Holding(E.Tokens(Held(s), Lowest(Claimable(s.rows), s.chunk)), {})
  }

  /** One more worker claims a chunk, and holds it or dies. */
  lemma ClaimChunk(s0: State, steps: seq<Step>, p: nat, overlap: bool, crash: bool, dies: bool) returns (more: seq<Step>)
    requires AllowedRun(s0, steps, overlap, crash) && CanBegin(After(s0, steps), p, overlap)
    requires Claimable(After(s0, steps).rows) != {} && (dies ==> crash)
    ensures AllowedRun(s0, more, overlap, crash)
    ensures var s := After(s0, steps);
            After(s0, more) == s.(rows := Held(s), procs := if dies then s.procs else s.procs[p := Hold(s)])
  {
    var s := After(s0, steps);
    ChunkEffect(s.rows, s.chunk, 0);
    more := BeginAndLook(s0, steps, p, overlap, crash);
    more := Extend(s0, more, Claim(p, 0), overlap, crash);
    assert After(s0, more).procs == s.procs[p := Hold(s)];
    if dies {
      more := Extend(s0, more, Crash(p), overlap, crash);
      assert After(s0, more).procs == s.procs;
    }
  }

  /** From `a` to `b` every claimable row has been taken, and nothing else has happened to the rows. */
  ghost predicate Taken(a: Rows, b: Rows) {
    && b.Keys == a.Keys && Claimable(b) == {}
    && FailedRows(b) == FailedRows(a) && InvalidRows(b) == InvalidRows(a)
    && (forall n :: n in Open(a) ==> b[n] == a[n])
    && (forall n :: n in Claimable(a) ==> n in Open(b))
  }

  lemma HeldTakes(s: State)
    requires s.chunk > 0 && Claimable(s.rows) != {}
    ensures var h := Held(s);
            && h.Keys == s.rows.Keys && FailedRows(h) == FailedRows(s.rows) && InvalidRows(h) == InvalidRows(s.rows)
            && (forall n :: n in Open(s.rows) ==> h[n] == s.rows[n])
            && (forall n :: n in Claimable(s.rows) ==> n in Open(h) || n in Claimable(h))
            && Claimable(h) <= Claimable(s.rows) && |Claimable(h)| < |Claimable(s.rows)|
  {
    var h, claimed := Held(s), Lowest(Claimable(s.rows), s.chunk);
    ChunkEffect(s.rows, s.chunk, 0);
    assert FailedRows(h) == FailedRows(s.rows) && InvalidRows(h) == InvalidRows(s.rows);
    assert claimed[0] in claimed && claimed[0] in Claimable(s.rows) && claimed[0] !in Claimable(h);
    SubsetSize(Claimable(h), Claimable(s.rows));
  }

  /** Workers number `p` and up take all that is left. */
  lemma {:induction false} ClaimAll(s0: State, steps: seq<Step>, p: nat, overlap: bool, crash: bool, dies: bool)
    returns (more: seq<Step>, next: nat)
    requires AllowedRun(s0, steps, overlap, crash) && CanBegin(After(s0, steps), p, overlap)
    requires forall q :: q in After(s0, steps).procs ==> q < p
    requires if dies then crash else overlap
    ensures AllowedRun(s0, more, overlap, crash) && CanBegin(After(s0, more), next, overlap)
    ensures var s, t := After(s0, steps), After(s0, more);
            && t.job == s.job && Taken(s.rows, t.rows)
            && forall q :: q in s.procs ==> q in t.procs && t.procs[q] == s.procs[q]
    decreases |Claimable(After(s0, steps).rows)|
  {
    var s := After(s0, steps);
    more, next := steps, p;
    if Claimable(s.rows) != {} {
      HeldTakes(s);
      more := ClaimChunk(s0, steps, p, overlap, crash, dies);
      more, next := ClaimAll(s0, more, p + 1, overlap, crash, dies);
    }
  }

  /** A worker that finds nothing left closes the job. */
  lemma CloseOver(s0: State, steps: seq<Step>, p: nat, overlap: bool, crash: bool) returns (more: seq<Step>)
    requires AllowedRun(s0, steps, overlap, crash) && CanBegin(After(s0, steps), p, overlap)
    requires var s := After(s0, steps);
             s.rows != map[] && Claimable(s.rows) == {} && FailedRows(s.rows) == {} && InvalidRows(s.rows) == {}
    ensures AllowedRun(s0, more, overlap, crash)
    ensures var s, t := After(s0, steps), After(s0, more); t.rows == s.rows && t.procs == s.procs && t.job.status.Completed?
  {
    var s := After(s0, steps);
    more := BeginAndLook(s0, steps, p, overlap, crash);
    more := Extend(s0, more, Claim(p, 0), overlap, crash);
    assert After(s0, more) == Goto(s, p, Drained) by {
      assert s.procs[p := Claiming][p := Drained] == s.procs[p := Drained];
      ChunkEffect(s.rows, s.chunk, 0);
    }
    more := CloseDrained(s0, s, more, p, overlap, crash);
  }

  lemma CloseDrained(s0: State, s: State, steps: seq<Step>, p: nat, overlap: bool, crash: bool) returns (more: seq<Step>)
    requires AllowedRun(s0, steps, overlap, crash) && After(s0, steps) == Goto(s, p, Drained) && p !in s.procs
    requires s.job.status.Executing? && s.rows != map[] && FailedRows(s.rows) == {} && InvalidRows(s.rows) == {}
    ensures AllowedRun(s0, more, overlap, crash)
    ensures var t := After(s0, more); t.rows == s.rows && t.procs == s.procs && t.job.status.Completed?
  {
    more := Extend(s0, steps, Recount(p), overlap, crash);
    more := Extend(s0, more, Read(p), overlap, crash);
    more := Extend(s0, more, End(p), overlap, crash);
    RecountGoes(s, p);
    ReadGoes(s, p);
    EndGoes(Counted(s), p);
  }

  function Counted(s: State): State {
    s.(job := RecountCounters(s.job, s.rows), counted := Some(s.rows))
  }

  lemma RecountGoes(s: State, p: nat)
    ensures Apply(Goto(s, p, Drained), Recount(p)) == Goto(Counted(s), p, Reading)
  {
    assert s.procs[p := Drained][p := Reading] == s.procs[p := Reading];
  }

  lemma ReadGoes(s: State, p: nat)
    requires s.rows != map[] && FailedRows(s.rows) == {} && InvalidRows(s.rows) == {}
    ensures Apply(Goto(Counted(s), p, Reading), Read(p)) == Goto(Counted(s), p, Ending(Completed, s.rows))
  {
    RecountShowsRows(s.job, s.rows);
    assert s.procs[p := Reading][p := Ending(Completed, s.rows)] == s.procs[p := Ending(Completed, s.rows)];
  }

  lemma EndGoes(s: State, p: nat)
    requires p !in s.procs && s.job.status.Executing?
    ensures var t := Apply(Goto(s, p, Ending(Completed, s.rows)), End(p));
            t.rows == s.rows && t.procs == s.procs && t.job.status.Completed?
  {
    assert s.procs[p := Ending(Completed, s.rows)] - {p} == s.procs;
  }

  /** Everything is claimed; row `n` by worker 0, who is still at work or has died. */
  lemma ReachAllTaken(chunk: nat, job: Job, rows: Rows, overlap: bool, crash: bool, dies: bool)
    returns (steps: seq<Step>, next: nat, n: nat)
    requires chunk > 0 && !job.cancelRequested && (if dies then crash else overlap)
    requires Claimable(rows) != {} && FailedRows(rows) == {} && InvalidRows(rows) == {}
    ensures var s0 := Start(chunk, job, rows); var s := After(s0, steps);
            && AllowedRun(s0, steps, overlap, crash) && CanBegin(s, next, overlap)
            && Claimable(s.rows) == {} && FailedRows(s.rows) == {} && InvalidRows(s.rows) == {} && n in Open(s.rows)
            && (!dies ==> 0 in s.procs && s.procs[0].Holding? && n in s.procs[0].claims && s.procs[0].claims[n] == s.rows[n].token)
  {
    var s0 := Start(chunk, job, rows);
    ChunkEffect(rows, chunk, 0);
    HeldTakes(s0);
    n := Lowest(Claimable(rows), chunk)[0];
    assert n in Lowest(Claimable(rows), chunk);
    steps := ClaimChunk(s0, [], 0, overlap, crash, dies);
    var s1 := After(s0, steps);
    assert n in Open(s1.rows);
    steps, next := ClaimAll(s0, steps, 1, overlap, crash, dies);
    assert n in After(s0, steps).rows && After(s0, steps).rows[n] == s1.rows[n];
    assert !dies ==> After(s0, steps).procs[0] == Hold(s0);
  }

  /** Then the job is closed, and the first worker reports a failure, or its row is swept. */
  lemma FaultMakesUntrue(chunk: nat, job: Job, rows: Rows, overlap: bool, crash: bool, dies: bool) returns (steps: seq<Step>)
    requires chunk > 0 && !job.cancelRequested && (if dies then crash else overlap)
    requires Claimable(rows) != {} && FailedRows(rows) == {} && InvalidRows(rows) == {}
    ensures AllowedRun(Start(chunk, job, rows), steps, overlap, crash) && Untrue(After(Start(chunk, job, rows), steps))
  {
    var s0, next, n := Start(chunk, job, rows), 0, 0;
    steps, next, n := ReachAllTaken(chunk, job, rows, overlap, crash, dies);
    steps := CloseOver(s0, steps, next, overlap, crash);
    steps := Extend(s0, steps, if dies then Sweep(0) else Step.Answer(0, n, Failed), overlap, crash);
    assert n in FailedRows(After(s0, steps).rows);
  }

  // ----- and what excludes it -----

  ghost predicate Stopped(s: State) {
    && s.job.cancelRequested && !ByVerdict(s.job.status)
    && forall p :: p in s.procs ==> s.procs[p].Looking? || (s.procs[p].Ending? && !ByVerdict(s.procs[p].status))
  }

  lemma {:induction false} RunStaysStopped(s: State, steps: seq<Step>)
    requires Stopped(s)
    ensures Stopped(After(s, steps))
    decreases |steps|
  {
    if steps != [] {
      RunStaysStopped(Apply(s, steps[0]), steps[1..]);
    }
  }

  lemma NothingToClaimIsTrue(first: Rows, rows: Rows)
    requires E.Ready(first) && Open(first) == {} && Kept(first, rows)
    requires Claimable(first) == {} && FailedRows(first) == {} && InvalidRows(first) == {}
    ensures FailedRows(rows) == {}
  {
    SettledAndReady(first);
  }

  lemma VerdictRemembers(first: Rows, seen: Rows)
    requires E.Ready(first) && Kept(first, seen) && VerdictOf(seen).Completed?
    ensures FailedRows(first) == {} && InvalidRows(first) == {}
  {
    assert FailedRows(first) <= FailedRows(seen) && InvalidRows(first) <= InvalidRows(seen);
  }

  lemma UntrueNeedsAFault(chunk: nat, job: Job, rows: Rows, steps: seq<Step>, overlap: bool, crash: bool)
    requires E.Ready(rows) && Open(rows) == {} && chunk > 0
    requires AllowedRun(Start(chunk, job, rows), steps, overlap, crash) && Untrue(After(Start(chunk, job, rows), steps))
    ensures (overlap || crash) && !job.cancelRequested
    ensures Claimable(rows) != {} && FailedRows(rows) == {} && InvalidRows(rows) == {}
  {
    var s0, s := Start(chunk, job, rows), After(Start(chunk, job, rows), steps);
    RunKeepsRows(s0, steps);
    var n :| n in FailedRows(s.rows);
    assert n in rows;
    CompletedIsTrueExactly(chunk, job, rows, steps);
    VerdictRemembers(rows, s.closing.value);
    if !overlap && !crash {
      OneAfterTheOtherIsTrue(chunk, job, rows, steps);
      assert false;
    }
    if job.cancelRequested {
      RunStaysStopped(s0, steps);
    }
    if Claimable(rows) == {} {
      NothingToClaimIsTrue(rows, s.rows);
    }
  }

  lemma {:induction false} RunKeepsRows(s: State, steps: seq<Step>)
    ensures Kept(s.rows, After(s, steps).rows)
    decreases |steps|
  {
    if steps != [] {
      RowsAreKept(s, steps[0]);
      RunKeepsRows(Apply(s, steps[0]), steps[1..]);
      KeptIsTransitive(s.rows, Apply(s, steps[0]).rows, After(s, steps).rows);
    }
  }

  /**
   * The exact condition, with handlers that answer every row: a job can be
   * COMPLETED and yet have a FAILED or SKIPPED row if and only if workers may
   * overlap or may crash, and the stage starts with something to claim, nothing
   * failed or invalid, and no cancel request.
   */
  lemma CompletedCanBeUntrueExactly(chunk: nat, job: Job, rows: Rows, overlap: bool, crash: bool)
    requires E.Ready(rows) && Open(rows) == {} && chunk > 0
    ensures CanBeUntrue(chunk, job, rows, overlap, crash)
       <==> (overlap || crash) && !job.cancelRequested &&
            Claimable(rows) != {} && FailedRows(rows) == {} && InvalidRows(rows) == {}
  {
    if CanBeUntrue(chunk, job, rows, overlap, crash) {
      var steps :| AllowedRun(Start(chunk, job, rows), steps, overlap, crash) && Untrue(After(Start(chunk, job, rows), steps));
      UntrueNeedsAFault(chunk, job, rows, steps, overlap, crash);
    } else if (overlap || crash) && !job.cancelRequested && Claimable(rows) != {} && FailedRows(rows) == {} && InvalidRows(rows) == {} {
      var steps := FaultMakesUntrue(chunk, job, rows, overlap, crash, crash);
    }
  }
  // ----- the other endings -----

  /** Nobody has asked to cancel or ended the job from outside, and no worker has thrown where that is excluded. */
  predicate Unasked(step: Step, throws: bool) {
    !step.RequestCancel? && !step.EndElsewhere? && (step.Raise? ==> throws)
  }

  ghost predicate EndsByItself(s: State, throws: bool) {
    && !s.job.cancelRequested && s.job.status != Cancelled && (s.job.status == JobFailed ==> throws)
    && forall p :: p in s.procs && s.procs[p].Ending? ==> s.procs[p].status != Cancelled && (s.procs[p].status == JobFailed ==> throws)
  }

  lemma {:induction false} RunEndsByItself(s: State, steps: seq<Step>, throws: bool)
    requires EndsByItself(s, throws) && forall k :: 0 <= k < |steps| ==> Unasked(steps[k], throws)
    ensures EndsByItself(After(s, steps), throws)
    decreases |steps|
  {
    if steps != [] {
      assert Unasked(steps[0], throws);
      StepEndsByItself(s, steps[0], throws);
      RunEndsByItself(Apply(s, steps[0]), steps[1..], throws);
    }
  }

  lemma StepEndsByItself(s: State, step: Step, throws: bool)
    requires EndsByItself(s, throws) && Unasked(step, throws)
    ensures EndsByItself(Apply(s, step), throws)
  {
  }

  /** A job becomes CANCELLED only if a cancel was asked for, and FAILED only if a worker threw, whoever ran beside. */
  lemma EndingsHaveTheirCause(chunk: nat, job: Job, rows: Rows, steps: seq<Step>, throws: bool)
    requires !job.cancelRequested && forall k :: 0 <= k < |steps| ==> Unasked(steps[k], throws)
    ensures var status := After(Start(chunk, job, rows), steps).job.status;
            status != Cancelled && (status == JobFailed ==> throws)
  {
    RunEndsByItself(Start(chunk, job, rows), steps, throws);
  }

  /** What a worker does after its chunk, after it found nothing to claim, and when it ends: both recounts take the rows as they are. */
  lemma WorkerGoesOn(s: State, p: nat)
    requires p in s.procs
    ensures s.procs[p].Counting? ==> Apply(s, Recount(p)) == Goto(s.(job := RecountCounters(s.job, s.rows), counted := Some(s.rows)), p, Looking)
    ensures s.procs[p].Drained? ==> Apply(s, Recount(p)) == Goto(s.(job := RecountCounters(s.job, s.rows), counted := Some(s.rows)), p, Reading)
    ensures s.procs[p].Reading? ==>
              var status := if s.job.failed > 0 || s.job.invalid > 0 then CompletedWithErrors else Completed;
              Apply(s, Read(p)) == Goto(s, p, Ending(status, s.counted.GetOr(s.rows)))
    ensures s.procs[p].Ending? && s.job.status == Executing ==> Apply(s, End(p)).job.status == s.procs[p].status
  {
  }

  /** What a worker that sees a cancel request, or throws, goes on to write. */
  lemma CauseDecidesEnding(s: State, p: nat)
    requires p in s.procs && s.job.status == Executing
    ensures s.procs[p].Looking? && s.job.cancelRequested ==> Apply(Apply(s, Look(p)), End(p)).job.status == Cancelled
    ensures Apply(Apply(s, Raise(p)), End(p)).job.status == JobFailed
  {
  }
}
