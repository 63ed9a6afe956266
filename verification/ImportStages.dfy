/**
 * The row and job repositories of an import and its validate and execute
 * stages over them, each tied to the loop functions of ImportValidation and
 * ImportExecution.
 */
module ImportStages {
  import opened Common
  import opened ImportRows
  import opened ImportJobs
  import V = ImportValidation
  import E = ImportExecution

  class ImportJobRowRepository {
    var rows: Rows

    constructor ()
      ensures rows == map[]
    {
      rows := map[];
    }

    method ListPendingValidation(limit: nat) returns (pending: seq<nat>)
      ensures pending == Lowest(V.Unjudged(rows), limit)
    {
      pending := Lowest((set n | n in rows && rows[n].validation.Unchecked?), limit);
    }

    method ClaimForExecution(limit: nat, now: int) returns (claimed: seq<nat>)
      modifies this
      ensures claimed == Lowest(Claimable(old(rows)), limit)
      ensures rows == ClaimRows(old(rows), claimed, now)
    {
      claimed := Lowest((set n | n in rows && rows[n].validation.Valid? && rows[n].execution.Waiting?), limit);
      ClaimLowestIsOneUpdate(rows, limit, now);
      rows := map n | n in rows ::
        if n in claimed then rows[n].(execution := Processing, token := rows[n].token + 1, updatedAt := now) else rows[n];
    }

    method ApplyValidationVerdicts(verdicts: seq<Verdict>)
      modifies this
      ensures rows == ApplyVerdicts(old(rows), verdicts)
    {
      for k := 0 to |verdicts|
        invariant ApplyVerdicts(rows, verdicts[k..]) == ApplyVerdicts(old(rows), verdicts)
      {
        var v := verdicts[k];
        assert verdicts[k..][0] == v && verdicts[k..][1..] == verdicts[k + 1..];
        if v.row in rows {
          rows := rows[v.row := rows[v.row].(validation := v.status)];
        }
      }
    }

    /** Answers how many of the settlements landed. */
    method ApplyExecutionResults(results: seq<Settlement>) returns (applied: nat)
      modifies this
      ensures rows == SettleAll(old(rows), results)
      ensures applied == Landed(old(rows), results)
    {
      applied := 0;
      for k := 0 to |results|
        invariant SettleAll(rows, results[k..]) == SettleAll(old(rows), results)
        invariant applied + Landed(rows, results[k..]) == Landed(old(rows), results)
      {
        var r := results[k];
        assert results[k..][0] == r && results[k..][1..] == results[k + 1..];
        if r.row in rows && rows[r.row].execution.Processing? && rows[r.row].token == r.token {
          rows := rows[r.row := rows[r.row].(execution := r.status)];
          applied := applied + 1;
        }
      }
    }
  }

  class ImportJobRepository {
    var job: Job

    constructor (job: Job)
      ensures this.job == job
    {
      this.job := job;
    }

    method TransitionStatus(from: set<Status>, to: Status, claimed: Status) returns (ok: bool)
      modifies this
      ensures ok == (old(job).status in from)
      ensures job == if ok then ImportJobs.TransitionStatus(old(job), from, to, claimed).value else old(job)
    {
      ok := job.status in from;
      if ok {
        job := job.(status := to, history := job.history + [Change(claimed, to)]);
      }
    }

    method MarkTerminal(status: Status, claimed: Status) returns (ended: bool)
      modifies this
      ensures ended == !Terminal(old(job).status)
      ensures job == ImportJobs.MarkTerminal(old(job), status, claimed).GetOr(old(job))
    {
      ended := !(job.status.Completed? || job.status.CompletedWithErrors? || job.status.JobFailed? || job.status.Cancelled?);
      if ended {
        job := job.(status := status, history := job.history + [Change(claimed, status)]);
      }
    }

    method UpdateTotal(total: nat)
      modifies this
      ensures job == old(job).(total := total)
    {
      job := job.(total := total);
    }

    method RecountCounters(table: ImportJobRowRepository)
      modifies this
      ensures job == ImportJobs.RecountCounters(old(job), table.rows)
    {
      var rows := table.rows;
      if rows != map[] {
        job := job.(
          total := |rows.Keys|,
          valid := |set n | n in rows && rows[n].validation.Valid?|,
          invalid := |set n | n in rows && (rows[n].validation.Invalid? || rows[n].validation.Duplicate?)|,
          applied := |set n | n in rows && rows[n].execution.Applied?|,
          failed := |set n | n in rows && (rows[n].execution.Failed? || rows[n].execution.Skipped?)|);
      }
    }
  }

  /** How a stage call ends for its caller. */
  datatype StageResult = Nothing | Conflict(status: Status) | Ended(status: Status) | Raised

  /** The terminal state a run leads to. */
  function StatusAfter(ending: E.Ending, job: Job): Status {
    match ending
    case CancelSeen => Cancelled
    case Threw => JobFailed
    case Drained => E.FinalStatus(job)
  }

  /** The job with its counters as the execution loop leaves them. */
  function CountedJob(was: Job, report: E.Report): Job {
    if report.ending.Drained? then ImportJobs.RecountCounters(was, report.rows) else E.Recounted(was, report.rows, report.passes)
  }

  /** The job as a run of the execute stage closes it. */
  function ExecutedJob(was: Job, report: E.Report): Job {
    var counted := CountedJob(was, report);
    var status := StatusAfter(report.ending, counted);
    counted.(status := status, history := was.history + [Change(Executing, status)])
  }

  /** The job as a run of the validate stage leaves it. */
  function ValidatedJob(was: Job, report: V.Report): Job {
    var status := match report.ending case Drained => Validated case CancelSeen => Cancelled case Threw => JobFailed;
    E.Recounted(was, report.counted, report.passes).(
      status := status,
      history := was.history + (if was.status.Mapped? then [Change(Mapped, Validating)] else []) + [Change(Validating, status)])
  }

  /** The header counts these rows. */
  predicate Counts(job: Job, rows: Rows) {
    && job.total == |rows.Keys| && job.valid == |ValidRows(rows)| && job.invalid == |InvalidRows(rows)|
    && job.applied == |AppliedRows(rows)| && job.failed == |FailedRows(rows)|
  }

  /** A row that keeps a job from being COMPLETED. */
  predicate Spoiled(row: Row) {
    row.execution in {Failed, Skipped} || row.validation in {Invalid, Duplicate}
  }

  /**
   * The three endings of the execute stage. A cancel request seen ends the job
   * CANCELLED, a throw outside the handler's batch ends it FAILED, and a drained
   * run ends it COMPLETED_WITH_ERRORS if and only if some row is FAILED, SKIPPED,
   * INVALID or DUPLICATE, and COMPLETED otherwise. The history says so.
   */
  lemma ExecuteEndings(was: Job, rows: Rows, env: E.Env)
    requires E.FinalAnswersOnly(env) && env.chunkSize > 0
    ensures var report := E.Passes(rows, env, {}, 0); var job := ExecutedJob(was, report);
            && (report.ending == E.CancelSeen ==> job.status == Cancelled)
            && (report.ending == E.Threw ==> job.status == JobFailed)
            && (report.ending == E.Drained && report.rows != map[] ==>
                  job.status == if exists n :: n in report.rows && Spoiled(report.rows[n]) then CompletedWithErrors else Completed)
            && job.history == was.history + [Change(Executing, job.status)]
            && ((report.ending == E.Drained || report.passes > 0) && report.rows != map[] ==> Counts(job, report.rows))
  {
    var report := E.Passes(rows, env, {}, 0);
    if report.ending == E.Drained && report.rows != map[] {
      SpoiledShows(was, report.rows);
    }
  }

  lemma SpoiledShows(was: Job, rows: Rows)
    requires rows != map[]
    ensures E.FinalStatus(ImportJobs.RecountCounters(was, rows)) == if exists n :: n in rows && Spoiled(rows[n]) then CompletedWithErrors else Completed
  {
    var failed, invalid := FailedRows(rows), InvalidRows(rows);
    if n :| n in rows && Spoiled(rows[n]) {
      assert n in failed || n in invalid;
    } else {
      assert failed == {} && invalid == {};
    }
  }

  /** A job that is asked to cancel before its first pass ends CANCELLED with its rows untouched. */
  lemma CancelledBeforeTheFirstPass(was: Job, rows: Rows, env: E.Env)
    requires E.FinalAnswersOnly(env) && env.chunkSize > 0 && env.cancelled(0)
    ensures var report := E.Passes(rows, env, {}, 0); var job := ExecutedJob(was, report);
            report.rows == rows && job == was.(status := Cancelled, history := was.history + [Change(Executing, Cancelled)])
  {
  }

  /** A re-validation that throws at once ends it FAILED, and what was claimed for it stays PROCESSING. */
  lemma ThrownInTheFirstPass(was: Job, rows: Rows, env: E.Env)
    requires E.FinalAnswersOnly(env) && env.chunkSize > 0 && !env.cancelled(0) && env.validate(0).None?
    requires exists n :: n in rows && rows[n].validation == Valid && rows[n].execution == Waiting
    ensures var report := E.Passes(rows, env, {}, 0); var job := ExecutedJob(was, report);
            && job == was.(status := JobFailed, history := was.history + [Change(Executing, JobFailed)])
            && exists n :: n in rows && n in report.rows && rows[n].execution == Waiting && report.rows[n].execution == Processing
  {
    E.ClaimHolds(rows, env);
    var n :| n in rows && rows[n].validation == Valid && rows[n].execution == Waiting;
    assert n in Claimable(rows);
    var claimed := E.NextClaim(rows, env);
    assert claimed[0] in claimed;
  }

  /** The three endings of the validate stage: VALIDATED, CANCELLED, FAILED. */
  lemma ValidateEndings(was: Job, rows: Rows, env: V.Env)
    requires V.NeverPending(env) && env.chunkSize > 0
    ensures var report := V.Passes(rows, env, 0); var job := ValidatedJob(was, report);
            && job.status == (if report.ending == V.Drained then Validated else if report.ending == V.CancelSeen then Cancelled else JobFailed)
            && job.history == was.history + (if was.status == Mapped then [Change(Mapped, Validating)] else []) + [Change(Validating, job.status)]
            && (env.cancelled(0) ==> job.status == Cancelled && report.rows == rows)
  {
  }

  /** Its counters are those of the rows its last recount saw, which are the final ones unless it threw. */
  lemma ValidateCounts(was: Job, rows: Rows, env: V.Env)
    requires V.NeverPending(env) && env.chunkSize > 0
    ensures var report := V.Passes(rows, env, 0); var job := ValidatedJob(was, report);
            && (report.passes > 0 && report.counted != map[] ==> Counts(job, report.counted))
            && (report.ending != V.Threw ==> report.counted == report.rows)
  {
    LastRecountSeesTheEnd(rows, env, 0);
  }

  lemma {:induction false} LastRecountSeesTheEnd(rows: Rows, env: V.Env, k: nat)
    requires V.NeverPending(env) && env.chunkSize > 0
    ensures var report := V.Passes(rows, env, k); report.ending != V.Threw ==> report.counted == report.rows
    decreases |V.Unjudged(rows)|
  {
    if !env.cancelled(k) && V.NextPending(rows, env) != [] && V.PassRuns(rows, env, k) {
      V.PassShrinks(rows, env, k);
      LastRecountSeesTheEnd(V.AfterPass(rows, env, k), env, k + 1);
    }
  }

  datatype Pass = NothingToDo | PassThrew | PassDone

  /** Only the last recount shows, as long as the job keeps its rows. */
  lemma RecountTwice(job: Job, before: Rows, after: Rows, k: nat)
    requires before.Keys == after.Keys
    ensures ImportJobs.RecountCounters(E.Recounted(job, before, k), after) == ImportJobs.RecountCounters(job, after)
  {
    assert before == map[] <==> before.Keys == {};
    assert after == map[] <==> after.Keys == {};
  }

  lemma SettleAllAppend(rows: Rows, a: seq<Settlement>, b: seq<Settlement>)
    ensures SettleAll(rows, a + b) == SettleAll(SettleAll(rows, a), b)
    decreases |a|
  {
    if a == [] {
      assert a + b == b;
    } else {
      assert (a + b)[0] == a[0] && (a + b)[1..] == a[1..] + b;
    }
  }

  lemma ApplyVerdictsAppend(rows: Rows, a: seq<Verdict>, b: seq<Verdict>)
    ensures ApplyVerdicts(rows, a + b) == ApplyVerdicts(ApplyVerdicts(rows, a), b)
    decreases |a|
  {
    if a == [] {
      assert a + b == b;
    } else {
      assert (a + b)[0] == a[0] && (a + b)[1..] == a[1..] + b;
    }
  }

  /** Claiming moves no row in or out of any count. */
  lemma ClaimKeepsCounters(job: Job, rows: Rows, env: E.Env, k: nat)
    ensures E.Recounted(job, ClaimRows(rows, E.NextClaim(rows, env), env.now), k) == E.Recounted(job, rows, k)
  {
    E.ClaimHolds(rows, env);
    var held := ClaimRows(rows, E.NextClaim(rows, env), env.now);
    assert ValidRows(held) == ValidRows(rows) && InvalidRows(held) == InvalidRows(rows);
    assert AppliedRows(held) == AppliedRows(rows) && FailedRows(held) == FailedRows(rows);
    assert rows == map[] <==> rows.Keys == {};
    assert held == map[] <==> held.Keys == {};
  }

  class RunImportExecution {
    const jobs: ImportJobRepository
    const table: ImportJobRowRepository
    /** Terminal events written. */
    var events: seq<Status>

    constructor (jobs: ImportJobRepository, table: ImportJobRowRepository)
      ensures this.jobs == jobs && this.table == table && events == []
    {
      this.jobs, this.table, events := jobs, table, [];
    }

    /** Settle what the handler said about one claimed chunk. */
    method SettleChunk(claimed: seq<nat>, verdicts: seq<Verdict>, answers: Option<seq<Answer>>)
      modifies table
      ensures table.rows == E.PassOver(old(table.rows), claimed, verdicts, answers)
    {
      ghost var was := table.rows;
      var tokens := map n | n in claimed && n in table.rows :: table.rows[n].token;
      var skipped := E.Skips(verdicts, tokens);
      var executing := Keep(claimed, set v | v in verdicts && v.status.Valid? :: v.row);
      var _ := table.ApplyExecutionResults(skipped);
      assert skipped + [] == skipped;
      if executing != [] {
        match answers
        case None =>
          var _ := table.ApplyExecutionResults(E.Failures(executing, tokens));
          SettleAllAppend(was, skipped, E.Failures(executing, tokens));
        case Some(results) =>
          var settled := E.Results(results, tokens);
          var unanswered := E.Failures(Drop(executing, set a | a in results :: a.row), tokens);
          var _ := table.ApplyExecutionResults(settled);
          var _ := table.ApplyExecutionResults(unanswered);
          SettleAllAppend(was, skipped, settled + unanswered);
          SettleAllAppend(SettleAll(was, skipped), settled, unanswered);
      }
    }

    method End(status: Status)
      modifies this, jobs
      ensures jobs.job == ImportJobs.MarkTerminal(old(jobs.job), status, Executing).GetOr(old(jobs.job))
      ensures events == if Terminal(old(jobs.job).status) then old(events) else old(events) + [status]
    {
      var ended := jobs.MarkTerminal(status, Executing);
      if ended {
        events := events + [status];
      }
    }

    /** Claim, re-validate, execute, settle, recount. */
    method RunPass(env: E.Env, k: nat) returns (pass: Pass)
      requires E.FinalAnswersOnly(env)
      modifies jobs, table
      ensures var claimed := E.NextClaim(old(table.rows), env);
              match pass
              case NothingToDo => claimed == [] && table.rows == old(table.rows) && jobs.job == old(jobs.job)
              case PassThrew =>
                && claimed != [] && env.validate(k).None? && jobs.job == old(jobs.job)
                && table.rows == ClaimRows(old(table.rows), claimed, env.now)
              case PassDone =>
                && claimed != [] && env.validate(k).Some?
                && table.rows == E.AfterPass(old(table.rows), env, env.validate(k).value, env.execute(k))
                && jobs.job == ImportJobs.RecountCounters(old(jobs.job), table.rows)
                && |Claimable(table.rows)| < |Claimable(old(table.rows))| && table.rows.Keys == old(table.rows).Keys
    {
      ghost var before := table.rows;
      var claimed := table.ClaimForExecution(env.chunkSize, env.now);
      if claimed == [] {
        return NothingToDo;
      }
      var verdicts := env.validate(k);
      if verdicts.None? {
        return PassThrew;
      }
      SettleChunk(claimed, verdicts.value, env.execute(k));
      E.PassShrinks(before, env, verdicts.value, k);
      E.PassEffect(before, env, verdicts.value, env.execute(k));
      jobs.RecountCounters(table);
      return PassDone;
    }

    /**
     * The rows end as the loop leaves them, and the job ends in the one state the
     * ending calls for, with its counters recounted from those rows and one event.
     */
    method RunExecute(env: E.Env) returns (result: StageResult)
      requires E.FinalAnswersOnly(env) && env.chunkSize > 0
      modifies this, jobs, table
      ensures old(jobs.job).status != Executing ==>
                && result == (if Terminal(old(jobs.job).status) then Nothing else Conflict(old(jobs.job).status))
                && jobs.job == old(jobs.job) && table.rows == old(table.rows) && events == old(events)
      ensures old(jobs.job).status == Executing ==>
                var report := E.Passes(old(table.rows), env, {}, 0);
                && table.rows == report.rows && jobs.job == ExecutedJob(old(jobs.job), report)
                && events == old(events) + [jobs.job.status]
                && result == if report.ending.Threw? then Raised else Ended(jobs.job.status)
      ensures old(jobs.job).status == Executing ==>
                && (result.Raised? ==> jobs.job.status == JobFailed)
                && (env.cancelled(0) ==> result == Ended(Cancelled) && events == old(events) + [Cancelled] && table.rows == old(table.rows))
                && (jobs.job.status == Cancelled <==> E.Passes(old(table.rows), env, {}, 0).ending == E.CancelSeen)
                && (table.rows != map[] && jobs.job.status in {Completed, CompletedWithErrors} ==>
                      (jobs.job.status == CompletedWithErrors <==> exists n :: n in table.rows && Spoiled(table.rows[n])))
    {
      ExecuteEndings(jobs.job, table.rows, env);
      if Terminal(jobs.job.status) {
        return Nothing;
      }
      if jobs.job.status != Executing {
        return Conflict(jobs.job.status);
      }
      ghost var was := jobs.job;
      var ending := ExecuteLoop(env);
      match ending
      case CancelSeen =>
        End(Cancelled);
        return Ended(Cancelled);
      case Threw =>
        End(JobFailed);
        return Raised;
      case Drained =>
        RecountTwice(was, table.rows, table.rows, E.Passes(old(table.rows), env, {}, 0).passes);
        jobs.RecountCounters(table);
        var hasErrors := jobs.job.failed > 0 || jobs.job.invalid > 0;
        var status := if hasErrors then CompletedWithErrors else Completed;
        End(status);
        return Ended(status);
    }

    /** The endless loop. */
    method ExecuteLoop(env: E.Env) returns (ending: E.Ending)
      requires E.FinalAnswersOnly(env) && env.chunkSize > 0
      modifies jobs, table
      ensures var report := E.Passes(old(table.rows), env, {}, 0);
              ending == report.ending && table.rows == report.rows &&
              jobs.job == E.Recounted(old(jobs.job), report.rows, report.passes)
    {
      ghost var was, report := jobs.job, E.Passes(table.rows, env, {}, 0);
      var k := 0;
      ghost var silent: set<nat> := {};
      while true
        invariant jobs.job == E.Recounted(was, table.rows, k)
        invariant E.Passes(table.rows, env, silent, k) == report
        decreases |Claimable(table.rows)|
      {
        if env.cancelled(k) {
          return E.CancelSeen;
        }
        ghost var before := table.rows;
        var pass := RunPass(env, k);
        match pass
        case NothingToDo =>
          break;
        case PassThrew =>
          ClaimKeepsCounters(was, before, env, k);
          return E.Threw;
        case PassDone =>
          RecountTwice(was, before, table.rows, k);
          silent := silent + E.Silent(E.NextClaim(before, env), env.validate(k).value, env.execute(k));
          k := k + 1;
      }
      return E.Drained;
    }
  }

  class ValidateImportJob {
    const jobs: ImportJobRepository
    const table: ImportJobRowRepository
    var events: seq<Status>

    constructor (jobs: ImportJobRepository, table: ImportJobRowRepository)
      ensures this.jobs == jobs && this.table == table && events == []
    {
      this.jobs, this.table, events := jobs, table, [];
    }

    method End(status: Status)
      modifies this, jobs
      ensures jobs.job == ImportJobs.MarkTerminal(old(jobs.job), status, Validating).GetOr(old(jobs.job))
      ensures events == if Terminal(old(jobs.job).status) then old(events) else old(events) + [status]
    {
      var ended := jobs.MarkTerminal(status, Validating);
      if ended {
        events := events + [status];
      }
    }

    /** The structural verdicts and the rows left for the handler. */
    method CheckStructure(pending: seq<nat>, sound: set<nat>) returns (structural: seq<Verdict>, candidates: seq<nat>)
      ensures structural == V.Rejections(Drop(pending, sound)) && candidates == Keep(pending, sound)
    {
      structural, candidates := [], [];
      for k := 0 to |pending|
        invariant structural == V.Rejections(Drop(pending[..k], sound)) && candidates == Keep(pending[..k], sound)
      {
        var row := pending[k];
        KeepOneMore(pending[..k], row, sound);
        DropOneMore(pending[..k], row, sound);
        assert pending[..k + 1] == pending[..k] + [row];
        if row !in sound {
          structural := structural + [Verdict(row, Invalid)];
        } else {
          candidates := candidates + [row];
        }
      }
      assert pending[..|pending|] == pending;
    }

    /** List, check, ask, apply, recount. */
    method RunPass(env: V.Env, k: nat) returns (pass: Pass)
      requires V.NeverPending(env)
      modifies jobs, table
      ensures var pending := V.NextPending(old(table.rows), env);
              match pass
              case NothingToDo => pending == [] && table.rows == old(table.rows) && jobs.job == old(jobs.job)
              case PassThrew =>
                && pending != [] && !V.PassRuns(old(table.rows), env, k) && jobs.job == old(jobs.job)
                && table.rows == ApplyVerdicts(old(table.rows), V.Structural(pending, env))
              case PassDone =>
                && pending != [] && V.PassRuns(old(table.rows), env, k)
                && table.rows == V.AfterPass(old(table.rows), env, k) && table.rows.Keys == old(table.rows).Keys
                && jobs.job == ImportJobs.RecountCounters(old(jobs.job), table.rows)
                && |V.Unjudged(table.rows)| < |V.Unjudged(old(table.rows))|
    {
      ghost var before := table.rows;
      var pending := table.ListPendingValidation(env.chunkSize);
      if pending == [] {
        return NothingToDo;
      }
      var structural, candidates := CheckStructure(pending, env.sound);
      table.ApplyValidationVerdicts(structural);
      if candidates != [] {
        var verdicts := env.validate(k);
        if verdicts.None? {
          return PassThrew;
        }
        var missing := V.Rejections(Drop(candidates, set v | v in verdicts.value :: v.row));
        table.ApplyValidationVerdicts(verdicts.value + missing);
        ApplyVerdictsAppend(before, structural, verdicts.value + missing);
      } else {
        assert structural + [] == structural;
      }
      V.PassShrinks(before, env, k);
      V.PassEffect(before, env, k);
      jobs.RecountCounters(table);
      return PassDone;
    }

    /**
     * The rows end as the loop leaves them. The job becomes VALIDATED, without an
     * event, or ends cancelled or failed with one.
     */
    method RunValidate(env: V.Env) returns (result: StageResult)
      requires V.NeverPending(env) && env.chunkSize > 0
      modifies this, jobs, table
      ensures old(jobs.job).status !in {Mapped, Validating} ==>
                && result == (if old(jobs.job).status in {Validated, Executing} then Nothing else Conflict(old(jobs.job).status))
                && jobs.job == old(jobs.job) && table.rows == old(table.rows) && events == old(events)
      ensures old(jobs.job).status in {Mapped, Validating} ==>
                var report := V.Passes(old(table.rows), env, 0);
                && table.rows == report.rows && jobs.job == ValidatedJob(old(jobs.job), report)
                && events == (if report.ending.Drained? then old(events) else old(events) + [jobs.job.status])
                && result == if report.ending.Threw? then Raised else Ended(jobs.job.status)
      ensures old(jobs.job).status in {Mapped, Validating} ==>
                && jobs.job.status == (match V.Passes(old(table.rows), env, 0).ending
                     case Drained => Validated case CancelSeen => Cancelled case Threw => JobFailed)
                && (env.cancelled(0) ==> result == Ended(Cancelled) && table.rows == old(table.rows))
    {
      ValidateEndings(jobs.job, table.rows, env);
      if jobs.job.status.Validated? || jobs.job.status.Executing? {
        return Nothing;
      }
      if !jobs.job.status.Validating? && !jobs.job.status.Mapped? {
        return Conflict(jobs.job.status);
      }
      if jobs.job.status.Mapped? {
        var _ := jobs.TransitionStatus({Mapped}, Validating, Mapped);
      }
      var ending := ValidateLoop(env);
      result := Conclude(ending);
    }

    /** Close the stage the way its loop ended. */
    method Conclude(ending: V.Ending) returns (result: StageResult)
      requires jobs.job.status == Validating
      modifies this, jobs
      ensures var was := old(jobs.job);
              var status := match ending case Drained => Validated case CancelSeen => Cancelled case Threw => JobFailed;
              && jobs.job == was.(status := status, history := was.history + [Change(Validating, status)])
              && events == (if ending.Drained? then old(events) else old(events) + [status])
              && result == if ending.Threw? then Raised else Ended(status)
    {
      match ending
      case CancelSeen =>
        End(Cancelled);
        return Ended(Cancelled);
      case Threw =>
        End(JobFailed);
        return Raised;
      case Drained =>
        var _ := jobs.TransitionStatus({Validating}, Validated, Validating);
        return Ended(Validated);
    }

    method ValidateLoop(env: V.Env) returns (ending: V.Ending)
      requires V.NeverPending(env) && env.chunkSize > 0
      modifies jobs, table
      ensures var report := V.Passes(old(table.rows), env, 0);
              ending == report.ending && table.rows == report.rows &&
              jobs.job == E.Recounted(old(jobs.job), report.counted, report.passes)
    {
      ghost var was, start := jobs.job, table.rows;
      var k := 0;
      while true
        invariant jobs.job == E.Recounted(was, table.rows, k)
        invariant V.Passes(start, env, 0) == V.Passes(table.rows, env, k)
        decreases |V.Unjudged(table.rows)|
      {
        if env.cancelled(k) {
          return V.CancelSeen;
        }
        ghost var before := table.rows;
        var pass := RunPass(env, k);
        if pass.NothingToDo? {
          break;
        }
        if pass.PassThrew? {
          return V.Threw;
        }
        RecountTwice(was, before, table.rows, k);
        k := k + 1;
      }
      return V.Drained;
    }
  }

  /** Rows that have never been executed are ready for execution once the validate stage drains. */
  lemma ValidatedRowsAreReady(rows: Rows, env: V.Env)
    requires V.NeverPending(env) && env.chunkSize > 0
    requires forall n :: n in rows ==> rows[n].execution.Waiting?
    ensures var report := V.Passes(rows, env, 0);
            report.ending.Drained? ==> E.Ready(report.rows) && Open(report.rows) == {}
  {
    V.ValidatedMeansAllJudged(rows, env, 0);
    var report := V.Passes(rows, env, 0);
    if report.ending.Drained? {
      assert forall n :: n in rows ==> n !in V.Unjudged(report.rows);
    }
  }
}
