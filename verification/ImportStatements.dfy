/**
 * The import statements row by row, on the columns, and what a pass makes of a
 * row in the states it can end in.
 */
module ImportStatements {
  import opened Common
  import opened ImportRows
  import opened ImportJobs
  import E = ImportExecution
  import V = ImportValidation

  // ----- rows -----

  /** A new row waits, unchecked and unclaimed; a number that is taken keeps its row. */
  lemma InsertWrites(rows: Rows, numbers: set<nat>, now: int, n: nat)
    ensures var after := BulkInsert(rows, numbers, now);
            && (n in after <==> n in rows || n in numbers)
            && (n in after ==> after[n] == if n in rows then rows[n] else Row(Unchecked, Waiting, 0, now))
  {
  }

  /** A claim takes the named row if and only if it is VALID and waits, under its next token and the present time. */
  lemma ClaimWrites(rows: Rows, n: nat, now: int, k: nat)
    requires k in rows
    ensures var after := ClaimRow(rows, n, now); var was := rows[k];
            && after.Keys == rows.Keys
            && after[k] == (if k == n && was.validation == Valid && was.execution == Waiting
                            then Row(Valid, Processing, was.token + 1, now) else was)
  {
  }

  /** A settlement lands if and only if the row is held under its token, and writes the outcome alone. */
  lemma SettleWrites(rows: Rows, n: nat, status: Execution, token: int, k: nat)
    requires k in rows
    ensures var after := Settle(rows, Settlement(n, status, token)); var was := rows[k];
            && after.Keys == rows.Keys
            && after[k] == (if k == n && was.execution == Processing && was.token == token
                            then Row(was.validation, status, was.token, was.updatedAt) else was)
  {
  }

  /**
   * A row is handed back, under its next token, if and only if it was PROCESSING
   * and last written before the cutoff; the second statement skips every
   * PROCESSING row.
   */
  lemma SweepWrites(rows: Rows, cutoff: int, now: int, k: nat)
    requires k in rows
    ensures var was := rows[k];
            && ResetStale(rows, cutoff, now).Keys == rows.Keys && Abandon(rows, now).Keys == rows.Keys
            && ResetStale(rows, cutoff, now)[k] == (if was.execution == Processing && was.updatedAt < cutoff
                                                    then Row(was.validation, Waiting, was.token + 1, now) else was)
            && Abandon(rows, now)[k] == (if was.execution == Processing then Row(was.validation, Skipped, was.token, now) else was)
  {
  }

  /** A row claimed at `now` is not touched by a reset with no later cutoff. */
  lemma YoungClaimStands(rows: Rows, n: nat, now: int, cutoff: int, later: int)
    requires n in rows && rows[n].validation == Valid && rows[n].execution == Waiting && cutoff <= now
    ensures var after := ResetStale(ClaimRow(rows, n, now), cutoff, later);
            n in after && after[n] == Row(Valid, Processing, rows[n].token + 1, now)
  {
  }

  // ----- jobs -----

  /** The counters after a recount: all rows, the VALID ones, INVALID and DUPLICATE ones, APPLIED ones, and FAILED and SKIPPED ones. */
  lemma RecountWrites(job: Job, rows: Rows)
    requires rows != map[]
    ensures var after := RecountCounters(job, rows);
            && after.total == |set n | n in rows|
            && after.valid == |set n | n in rows && rows[n].validation == Valid|
            && after.invalid == |set n | n in rows && rows[n].validation in {Invalid, Duplicate}|
            && after.applied == |set n | n in rows && rows[n].execution == Applied|
            && after.failed == |set n | n in rows && rows[n].execution in {Failed, Skipped}|
            && after.status == job.status && after.history == job.history && after.cancelRequested == job.cancelRequested
  {
    assert (set n | n in rows) == rows.Keys;
    assert (set n | n in rows && rows[n].validation == Valid) == ValidRows(rows);
    assert (set n | n in rows && rows[n].validation in {Invalid, Duplicate}) == InvalidRows(rows);
    assert (set n | n in rows && rows[n].execution == Applied) == AppliedRows(rows);
    assert (set n | n in rows && rows[n].execution in {Failed, Skipped}) == FailedRows(rows);
  }

  /** The four ended states, and the two ways a status is written. */
  lemma StatusWrites(job: Job, from: set<Status>, to: Status, claimed: Status)
    ensures TransitionStatus(job, from, to, claimed)
            == if job.status in from then Ok(job.(status := to, history := job.history + [Change(claimed, to)])) else Err(job.status)
    ensures MarkTerminal(job, to, claimed)
            == if job.status in {Completed, CompletedWithErrors, JobFailed, Cancelled} then None
               else Some(job.(status := to, history := job.history + [Change(claimed, to)]))
  {
  }

  // ----- one execution pass, outcome by outcome -----

  /** Some verdict rejects the row; some verdict finds it VALID. */
  predicate Refuted(verdicts: seq<Verdict>, n: nat) {
    exists k :: 0 <= k < |verdicts| && verdicts[k].row == n && verdicts[k].status != Valid
  }

  predicate Confirmed(verdicts: seq<Verdict>, n: nat) {
    exists k :: 0 <= k < |verdicts| && verdicts[k].row == n && verdicts[k].status == Valid
  }

  lemma VerdictsAgree(verdicts: seq<Verdict>, n: nat)
    ensures Refuted(verdicts, n) <==> E.Rejected(verdicts, n)
    ensures Confirmed(verdicts, n) <==> n in E.StillValid(verdicts)
  {
    if v :| v in verdicts && v.row == n && !v.status.Valid? {
      var k :| 0 <= k < |verdicts| && verdicts[k] == v;
    }
    if n in E.StillValid(verdicts) {
      var v :| v in verdicts && v.status.Valid? && v.row == n;
      var k :| 0 <= k < |verdicts| && verdicts[k] == v;
    }
  }

  /** The answer is the first one about its row. */
  predicate FirstAbout(answers: seq<Answer>, k: nat) {
    k < |answers| && forall j :: 0 <= j < k ==> answers[j].row != answers[k].row
  }

  lemma {:induction false} FirstAboutIsTaken(answers: seq<Answer>, k: nat)
    requires FirstAbout(answers, k) && Final(answers[k].status)
    ensures E.FirstAnswer(answers, answers[k].row) == Some(answers[k].status)
    decreases k
  {
    if k > 0 {
      assert answers[0].row != answers[k].row;
      assert forall j :: 0 <= j < k - 1 ==> answers[1..][j] == answers[j + 1];
      FirstAboutIsTaken(answers[1..], k - 1);
    }
  }

  /**
   * A claimed row that re-validation rejects ends SKIPPED. One it confirms ends
   * FAILED when the batch throws or leaves it out, and otherwise as the first
   * answer about it says.
   */
  lemma PassOutcomes(rows: Rows, env: E.Env, verdicts: seq<Verdict>, answers: Option<seq<Answer>>, n: nat)
    requires n in rows && n in E.NextClaim(rows, env)
    ensures var after := E.AfterPass(rows, env, verdicts, answers);
            && n in after && after[n].token == rows[n].token + 1 && after[n].updatedAt == env.now
            && (Refuted(verdicts, n) ==> after[n].execution == Skipped)
            && (!Refuted(verdicts, n) && Confirmed(verdicts, n) ==>
                  && (answers.None? ==> after[n].execution == Failed)
                  && (answers.Some? && (forall k :: 0 <= k < |answers.value| ==> answers.value[k].row != n) ==> after[n].execution == Failed)
                  && (answers.Some? ==> forall k: nat :: FirstAbout(answers.value, k) && answers.value[k].row == n && Final(answers.value[k].status) ==>
                        after[n].execution == answers.value[k].status))
  {
    E.PassEffect(rows, env, verdicts, answers);
    VerdictsAgree(verdicts, n);
    if answers.Some? && Confirmed(verdicts, n) && !Refuted(verdicts, n) {
      forall k: nat | FirstAbout(answers.value, k) && answers.value[k].row == n && Final(answers.value[k].status)
        ensures E.FirstAnswer(answers.value, n) == Some(answers.value[k].status) && n in E.Answered(answers.value)
      {
        FirstAboutIsTaken(answers.value, k);
        assert answers.value[k] in answers.value;
      }
    }
  }

  // ----- one validation pass -----

  /** The verdict is the last one about its row. */
  predicate LastAbout(verdicts: seq<Verdict>, k: nat) {
    k < |verdicts| && forall j :: k < j < |verdicts| ==> verdicts[j].row != verdicts[k].row
  }

  lemma {:induction false} LastAboutIsTaken(verdicts: seq<Verdict>, k: nat)
    requires LastAbout(verdicts, k)
    ensures LastVerdict(verdicts, verdicts[k].row) == Some(verdicts[k].status)
    decreases |verdicts|
  {
    var n := verdicts[k].row;
    if k > 0 {
      assert forall j :: 0 <= j < |verdicts| - 1 ==> verdicts[1..][j] == verdicts[j + 1];
      LastAboutIsTaken(verdicts[1..], k - 1);
    } else {
      V.JudgedHasLast(verdicts[1..], n);
    }
  }

  lemma NamedTakesItsLast(verdicts: seq<Verdict>, n: nat)
    ensures forall k: nat :: LastAbout(verdicts, k) && verdicts[k].row == n ==> LastVerdict(verdicts, n) == Some(verdicts[k].status)
    ensures n in V.Judged(verdicts) <==> exists k :: 0 <= k < |verdicts| && verdicts[k].row == n
  {
    forall k: nat | LastAbout(verdicts, k) && verdicts[k].row == n
      ensures LastVerdict(verdicts, n) == Some(verdicts[k].status)
    {
      LastAboutIsTaken(verdicts, k);
    }
    if n in V.Judged(verdicts) {
      var v :| v in verdicts && v.row == n;
      var k :| 0 <= k < |verdicts| && verdicts[k] == v;
    }
  }

  /** A listed row becomes INVALID if it is unsound or the handler passes it over; a row the handler names takes its last verdict. */
  lemma ValidationOutcomes(rows: Rows, env: V.Env, pass: nat, n: nat)
    requires V.PassRuns(rows, env, pass) && n in rows
    requires exists m :: m in V.NextPending(rows, env) && m in env.sound
    ensures env.validate(pass).Some? && n in V.AfterPass(rows, env, pass)
    ensures var after := V.AfterPass(rows, env, pass); var verdicts := env.validate(pass).value;
            && after[n].execution == rows[n].execution
            && (forall k: nat :: LastAbout(verdicts, k) && verdicts[k].row == n ==> after[n].validation == verdicts[k].status)
            && ((forall k :: 0 <= k < |verdicts| ==> verdicts[k].row != n) ==>
                  after[n].validation == if n in V.NextPending(rows, env) then Invalid else rows[n].validation)
  {
    V.PassEffect(rows, env, pass);
    assert V.Candidates(V.NextPending(rows, env), env) != [];
    NamedTakesItsLast(env.validate(pass).value, n);
  }

  lemma {:induction false} NoneToKeep(numbers: seq<nat>, wanted: set<nat>)
    requires forall n :: n in numbers ==> n !in wanted
    ensures Keep(numbers, wanted) == []
    decreases |numbers|
  {
    if numbers != [] {
      NoneToKeep(numbers[1..], wanted);
    }
  }

  /** A pass whose listed rows are all unsound asks nobody and makes them INVALID. */
  lemma UnsoundRowsAreInvalid(rows: Rows, env: V.Env, pass: nat, n: nat)
    requires n in rows && forall m :: m in V.NextPending(rows, env) ==> m !in env.sound
    ensures V.PassRuns(rows, env, pass) && n in V.AfterPass(rows, env, pass)
    ensures V.AfterPass(rows, env, pass)[n].validation == if n in V.NextPending(rows, env) then Invalid else rows[n].validation
  {
    NoneToKeep(V.NextPending(rows, env), env.sound);
    V.PassEffect(rows, env, pass);
  }
}
