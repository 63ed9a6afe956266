/**
 * The execution loop of an import job over an untrusted handler: chunks are
 * claimed under tokens, re-validated, executed and settled until nothing is
 * claimable. The handler may throw, omit rows, repeat rows or name foreign rows.
 */
module ImportExecution {
  import opened Common
  import opened ImportRows
  import opened ImportJobs

  /** What surrounds one run: the handler's answer to each pass (None is a throw), cancellation, the chunk size. */
  datatype Env = Env(
    validate: nat -> Option<seq<Verdict>>,
    execute: nat -> Option<seq<Answer>>,
    cancelled: nat -> bool,
    chunkSize: nat,
    now: int)

  ghost predicate FinalAnswersOnly(env: Env) {
    forall k: nat, a :: env.execute(k).Some? && a in env.execute(k).value ==> Final(a.status)
  }

  // ----- one pass -----

  function Tokens(rows: Rows, claimed: seq<nat>): map<nat, nat> {
    map n | n in claimed && n in rows :: rows[n].token
  }

  /** Rows that were not claimed in this pass get a token that fits no row. */
  function TokenOf(tokens: map<nat, nat>, n: nat): int {
    if n in tokens then tokens[n] else -1
  }

  function Skips(verdicts: seq<Verdict>, tokens: map<nat, nat>): seq<Settlement>
    decreases |verdicts|
  {
    if verdicts == [] then []
    else (if verdicts[0].status.Valid? then [] else [Settlement(verdicts[0].row, Skipped, TokenOf(tokens, verdicts[0].row))])
         + Skips(verdicts[1..], tokens)
  }

  function Results(answers: seq<Answer>, tokens: map<nat, nat>): seq<Settlement> {
    seq(|answers|, i requires 0 <= i < |answers| => Settlement(answers[i].row, answers[i].status, TokenOf(tokens, answers[i].row)))
  }

  function Failures(numbers: seq<nat>, tokens: map<nat, nat>): seq<Settlement> {
    seq(|numbers|, i requires 0 <= i < |numbers| => Settlement(numbers[i], Failed, TokenOf(tokens, numbers[i])))
  }

  function StillValid(verdicts: seq<Verdict>): set<nat> {
    set v | v in verdicts && v.status.Valid? :: v.row
  }

  function Answered(answers: seq<Answer>): set<nat> {
    set a | a in answers :: a.row
  }

  /** Everything a pass tries to settle, in its order. */
  function PassSettlements(claimed: seq<nat>, tokens: map<nat, nat>, verdicts: seq<Verdict>, answers: Option<seq<Answer>>): seq<Settlement> {
    var executing := Keep(claimed, StillValid(verdicts));
    Skips(verdicts, tokens) +
    (if executing == [] then []
     else match answers
       case None => Failures(executing, tokens)
       case Some(results) => Results(results, tokens) + Failures(Drop(executing, Answered(results)), tokens))
  }

  function PassOver(rows: Rows, claimed: seq<nat>, verdicts: seq<Verdict>, answers: Option<seq<Answer>>): Rows {
    SettleAll(rows, PassSettlements(claimed, Tokens(rows, claimed), verdicts, answers))
  }

  // ----- what one pass means -----

  predicate Rejected(verdicts: seq<Verdict>, n: nat) {
    exists v :: v in verdicts && v.row == n && !v.status.Valid?
  }

  function FirstAnswer(answers: seq<Answer>, n: nat): Option<Execution>
    decreases |answers|
  {
    if answers == [] then None
    else if answers[0].row == n && !answers[0].status.Processing? then Some(answers[0].status)
    else FirstAnswer(answers[1..], n)
  }

  /** The handler is asked to execute something in this pass. */
  predicate Executes(claimed: seq<nat>, verdicts: seq<Verdict>) {
    exists n :: n in claimed && n in StillValid(verdicts)
  }

  /**
   * A claimed row is SKIPPED if any verdict rejects it. A row sent for execution
   * takes its first answer, and is FAILED if the batch threw or left it out. A
   * row without a verdict is settled only if the execution answers for it unasked.
   */
  function RowOutcome(n: nat, claimed: seq<nat>, verdicts: seq<Verdict>, answers: Option<seq<Answer>>): Option<Execution> {
    if Rejected(verdicts, n) then Some(Skipped)
    else if n in StillValid(verdicts) then
      match answers
      case None => Some(Failed)
      case Some(results) => if n in Answered(results) then FirstAnswer(results, n) else Some(Failed)
    else if Executes(claimed, verdicts) && answers.Some? then FirstAnswer(answers.value, n)
    else None
  }

  lemma {:induction false} DecidingAppend(a: seq<Settlement>, b: seq<Settlement>, n: nat, token: nat)
    ensures Deciding(a + b, n, token) == if Deciding(a, n, token).Some? then Deciding(a, n, token) else Deciding(b, n, token)
    decreases |a|
  {
    if a == [] {
      assert a + b == b;
    } else {
      assert (a + b)[1..] == a[1..] + b;
      DecidingAppend(a[1..], b, n, token);
    }
  }

  lemma {:induction false} DecidingSkips(verdicts: seq<Verdict>, tokens: map<nat, nat>, n: nat, token: nat)
    ensures Deciding(Skips(verdicts, tokens), n, token)
            == if n in tokens && tokens[n] == token && Rejected(verdicts, n) then Some(Skipped) else None
    decreases |verdicts|
  {
    if verdicts != [] {
      DecidingSkips(verdicts[1..], tokens, n, token);
      var head := if verdicts[0].status.Valid? then [] else [Settlement(verdicts[0].row, Skipped, TokenOf(tokens, verdicts[0].row))];
      DecidingAppend(head, Skips(verdicts[1..], tokens), n, token);
      assert Rejected(verdicts, n) <==> (verdicts[0].row == n && !verdicts[0].status.Valid?) || Rejected(verdicts[1..], n);
    }
  }

  lemma {:induction false} DecidingResults(answers: seq<Answer>, tokens: map<nat, nat>, n: nat, token: nat)
    ensures Deciding(Results(answers, tokens), n, token)
            == if n in tokens && tokens[n] == token then FirstAnswer(answers, n) else None
    decreases |answers|
  {
    if answers != [] {
      DecidingResults(answers[1..], tokens, n, token);
      assert Results(answers, tokens)[1..] == Results(answers[1..], tokens);
    }
  }

  lemma {:induction false} DecidingFailures(numbers: seq<nat>, tokens: map<nat, nat>, n: nat, token: nat)
    ensures Deciding(Failures(numbers, tokens), n, token)
            == if n in tokens && tokens[n] == token && n in numbers then Some(Failed) else None
    decreases |numbers|
  {
    if numbers != [] {
      DecidingFailures(numbers[1..], tokens, n, token);
      assert Failures(numbers, tokens)[1..] == Failures(numbers[1..], tokens);
    }
  }

  lemma {:induction false} UnansweredHasNoFirst(answers: seq<Answer>, n: nat)
    requires n !in Answered(answers)
    ensures FirstAnswer(answers, n).None?
    decreases |answers|
  {
    if answers != [] {
      assert answers[0] in answers;
      UnansweredHasNoFirst(answers[1..], n);
    }
  }

  /** For every row: claimed rows get their outcome, no other row is touched. */
  lemma PassDecides(claimed: seq<nat>, tokens: map<nat, nat>, verdicts: seq<Verdict>, answers: Option<seq<Answer>>, n: nat, token: nat)
    requires forall c :: c in claimed <==> c in tokens
    ensures Deciding(PassSettlements(claimed, tokens, verdicts, answers), n, token)
            == if n in claimed && tokens[n] == token then RowOutcome(n, claimed, verdicts, answers) else None
  {
    var executing := Keep(claimed, StillValid(verdicts));
    assert Executes(claimed, verdicts) <==> executing != [] by {
      if executing != [] { assert executing[0] in executing; }
    }
    DecidingSkips(verdicts, tokens, n, token);
    if executing == [] {
      assert Skips(verdicts, tokens) + [] == Skips(verdicts, tokens);
    } else {
      match answers
      case None =>
        DecidingFailures(executing, tokens, n, token);
        DecidingAppend(Skips(verdicts, tokens), Failures(executing, tokens), n, token);
      case Some(results) =>
        var rest := Drop(executing, Answered(results));
        DecidingResults(results, tokens, n, token);
        DecidingFailures(rest, tokens, n, token);
        DecidingAppend(Results(results, tokens), Failures(rest, tokens), n, token);
        DecidingAppend(Skips(verdicts, tokens), Results(results, tokens) + Failures(rest, tokens), n, token);
        if n !in Answered(results) {
          UnansweredHasNoFirst(results, n);
        }
    }
  }

  // ----- a whole run -----

  function NextClaim(rows: Rows, env: Env): seq<nat> {
    Lowest(Claimable(rows), env.chunkSize)
  }

  function AfterPass(rows: Rows, env: Env, verdicts: seq<Verdict>, answers: Option<seq<Answer>>): Rows {
    PassOver(ClaimRows(rows, NextClaim(rows, env), env.now), NextClaim(rows, env), verdicts, answers)
  }

  lemma ClaimHolds(rows: Rows, env: Env)
    ensures var claimed := NextClaim(rows, env); var held := ClaimRows(rows, claimed, env.now);
            && held.Keys == rows.Keys
            && (forall n :: n in claimed ==> n in Claimable(rows))
            && (forall n :: n in rows ==>
                  held[n] == if n in claimed then rows[n].(execution := Processing, token := rows[n].token + 1, updatedAt := env.now)
                             else rows[n])
            && (env.chunkSize > 0 && claimed == [] ==> Claimable(rows) == {})
  {
    var claimed := NextClaim(rows, env);
    LowestIsSorted(Claimable(rows), env.chunkSize);
    ClaimRowsEffect(rows, claimed, env.now);
    if x :| x in Claimable(rows) && claimed == [] {
      LowestLeavesOutTheHigher(Claimable(rows), env.chunkSize, x);
    }
  }

  /** One pass moves exactly the claimed rows, each to its own outcome. */
  lemma PassEffect(rows: Rows, env: Env, verdicts: seq<Verdict>, answers: Option<seq<Answer>>)
    ensures var claimed, after := NextClaim(rows, env), AfterPass(rows, env, verdicts, answers);
            && after.Keys == rows.Keys
            && forall n :: n in rows ==>
                 after[n] == if n in claimed
                             then rows[n].(execution := RowOutcome(n, claimed, verdicts, answers).GetOr(Processing),
                                           token := rows[n].token + 1, updatedAt := env.now)
                             else rows[n]
  {
    var claimed := NextClaim(rows, env);
    var held := ClaimRows(rows, claimed, env.now);
    var tokens := Tokens(held, claimed);
    ClaimHolds(rows, env);
    SettleAllEffect(held, PassSettlements(claimed, tokens, verdicts, answers));
    forall n | n in rows
      ensures Deciding(PassSettlements(claimed, tokens, verdicts, answers), n, held[n].token)
              == if n in claimed then RowOutcome(n, claimed, verdicts, answers) else None
    {
      PassDecides(claimed, tokens, verdicts, answers, n, held[n].token);
    }
  }

  lemma {:induction false} FirstAnswerIsGiven(answers: seq<Answer>, n: nat)
    requires FirstAnswer(answers, n).Some?
    ensures Answer(n, FirstAnswer(answers, n).value) in answers
    decreases |answers|
  {
    if !(answers[0].row == n && !answers[0].status.Processing?) {
      FirstAnswerIsGiven(answers[1..], n);
    }
  }

  lemma OutcomesAreFinal(n: nat, claimed: seq<nat>, verdicts: seq<Verdict>, env: Env, k: nat)
    requires FinalAnswersOnly(env) && RowOutcome(n, claimed, verdicts, env.execute(k)).Some?
    ensures Final(RowOutcome(n, claimed, verdicts, env.execute(k)).value)
  {
    if env.execute(k).Some? && FirstAnswer(env.execute(k).value, n).Some? {
      FirstAnswerIsGiven(env.execute(k).value, n);
    }
  }

  /** The measure of the loop: a pass uses up the rows it claims. */
  lemma PassShrinks(rows: Rows, env: Env, verdicts: seq<Verdict>, k: nat)
    requires FinalAnswersOnly(env) && NextClaim(rows, env) != []
    ensures Claimable(AfterPass(rows, env, verdicts, env.execute(k)))
            == Claimable(rows) - (set n | n in NextClaim(rows, env))
    ensures |Claimable(AfterPass(rows, env, verdicts, env.execute(k)))| < |Claimable(rows)|
  {
    var claimed, after := NextClaim(rows, env), AfterPass(rows, env, verdicts, env.execute(k));
    PassEffect(rows, env, verdicts, env.execute(k));
    ClaimHolds(rows, env);
    forall n | n in claimed
      ensures n !in Claimable(after)
    {
      if RowOutcome(n, claimed, verdicts, env.execute(k)).Some? {
        OutcomesAreFinal(n, claimed, verdicts, env, k);
      }
    }
    assert claimed[0] in claimed;
    SubsetSize(Claimable(after), Claimable(rows));
  }

  /** A handler that answers PENDING hands the row straight back: the next claim takes the very same rows. */
  lemma PendingAnswersPinTheLoop(rows: Rows, env: Env)
    ensures var claimed := NextClaim(rows, env);
            Claimable(AfterPass(rows, env, AllValid(claimed), Some(AllPending(claimed)))) == Claimable(rows)
  {
    var claimed := NextClaim(rows, env);
    ClaimHolds(rows, env);
    PassEffect(rows, env, AllValid(claimed), Some(AllPending(claimed)));
    forall n | n in claimed
      ensures RowOutcome(n, claimed, AllValid(claimed), Some(AllPending(claimed))) == Some(Waiting)
    {
      PendingOutcome(n, claimed);
    }
  }

  lemma PendingOutcome(n: nat, claimed: seq<nat>)
    requires n in claimed
    ensures RowOutcome(n, claimed, AllValid(claimed), Some(AllPending(claimed))) == Some(Waiting)
  {
    var verdicts, answers := AllValid(claimed), AllPending(claimed);
    var i :| 0 <= i < |claimed| && claimed[i] == n;
    assert verdicts[i] in verdicts && answers[i] in answers;
    FirstOfAllPending(claimed, n);
  }

  function AllValid(numbers: seq<nat>): seq<Verdict> {
    seq(|numbers|, i requires 0 <= i < |numbers| => Verdict(numbers[i], Valid))
  }

  function AllPending(numbers: seq<nat>): seq<Answer> {
    seq(|numbers|, i requires 0 <= i < |numbers| => Answer(numbers[i], Waiting))
  }

  lemma {:induction false} FirstOfAllPending(numbers: seq<nat>, n: nat)
    requires n in numbers
    ensures FirstAnswer(AllPending(numbers), n) == Some(Waiting)
    decreases |numbers|
  {
    if numbers[0] != n {
      assert AllPending(numbers)[1..] == AllPending(numbers[1..]);
      FirstOfAllPending(numbers[1..], n);
    }
  }

  datatype Ending = Drained | CancelSeen | Threw

  /** The rows at the end, why the loop ended, the rows it claimed in vain and the passes it completed. */
  datatype Report = Report(rows: Rows, ending: Ending, silent: set<nat>, passes: nat)

  /** Claimed rows that neither a verdict nor an execution answer settles. */
  function Silent(claimed: seq<nat>, verdicts: seq<Verdict>, answers: Option<seq<Answer>>): set<nat> {
    set n | n in claimed && RowOutcome(n, claimed, verdicts, answers).None?
  }

  /** The loop from pass k on. */
  ghost function Passes(rows: Rows, env: Env, silent: set<nat>, k: nat): Report
    requires FinalAnswersOnly(env) && env.chunkSize > 0
    decreases |Claimable(rows)|
  {
    var claimed := NextClaim(rows, env);
    if env.cancelled(k) then Report(rows, CancelSeen, silent, k)
    else if claimed == [] then Report(rows, Drained, silent, k)
    else match env.validate(k)
      case None => Report(ClaimRows(rows, claimed, env.now), Threw, silent, k)
      case Some(verdicts) =>
        PassShrinks(rows, env, verdicts, k);
        Passes(AfterPass(rows, env, verdicts, env.execute(k)), env, silent + Silent(claimed, verdicts, env.execute(k)), k + 1)
  }

  /** All rows validated, and only VALID rows anywhere beyond PENDING. */
  ghost predicate Ready(rows: Rows) {
    forall n :: n in rows ==> !rows[n].validation.Unchecked? && (!rows[n].validation.Valid? ==> rows[n].execution.Waiting?)
  }

  /** Where each row stands after a pass over ready rows. */
  lemma PassOnReadyRows(rows: Rows, env: Env, verdicts: seq<Verdict>, k: nat)
    requires FinalAnswersOnly(env)
    ensures var claimed, after := NextClaim(rows, env), AfterPass(rows, env, verdicts, env.execute(k));
            && after.Keys == rows.Keys
            && forall n :: n in rows ==>
                 && after[n].validation == rows[n].validation
                 && (if n in claimed then
                       rows[n].validation.Valid? && rows[n].execution.Waiting? &&
                       (if n in Silent(claimed, verdicts, env.execute(k)) then after[n].execution.Processing? else Final(after[n].execution))
                     else after[n] == rows[n])
  {
    var claimed := NextClaim(rows, env);
    ClaimHolds(rows, env);
    PassEffect(rows, env, verdicts, env.execute(k));
    forall n | n in claimed && RowOutcome(n, claimed, verdicts, env.execute(k)).Some?
      ensures Final(RowOutcome(n, claimed, verdicts, env.execute(k)).value)
    {
      OutcomesAreFinal(n, claimed, verdicts, env, k);
    }
  }

  lemma PassKeepsReady(rows: Rows, env: Env, verdicts: seq<Verdict>, k: nat)
    requires FinalAnswersOnly(env) && Ready(rows)
    ensures var after := AfterPass(rows, env, verdicts, env.execute(k));
            && Ready(after) && ValidRows(after) == ValidRows(rows) && after.Keys == rows.Keys
            && Open(after) == Open(rows) + Silent(NextClaim(rows, env), verdicts, env.execute(k))
  {
    PassOnReadyRows(rows, env, verdicts, k);
    ClaimHolds(rows, env);
  }

  lemma {:induction false} PassesLeaveOpenTheSilent(rows: Rows, env: Env, silent: set<nat>, k: nat)
    requires FinalAnswersOnly(env) && env.chunkSize > 0 && Ready(rows) && Open(rows) == silent
    ensures var report := Passes(rows, env, silent, k);
            && Ready(report.rows) && ValidRows(report.rows) == ValidRows(rows) && report.rows.Keys == rows.Keys
            && (!report.ending.Threw? ==> Open(report.rows) == report.silent)
            && (report.ending.Drained? ==> Claimable(report.rows) == {})
    decreases |Claimable(rows)|
  {
    var claimed := NextClaim(rows, env);
    ClaimHolds(rows, env);
    if !env.cancelled(k) && claimed != [] && env.validate(k).Some? {
      var verdicts := env.validate(k).value;
      PassShrinks(rows, env, verdicts, k);
      PassKeepsReady(rows, env, verdicts, k);
      PassesLeaveOpenTheSilent(AfterPass(rows, env, verdicts, env.execute(k)), env,
                               silent + Silent(claimed, verdicts, env.execute(k)), k + 1);
    }
  }

  /** With nothing left to claim, a VALID row is either open or settled. */
  lemma NothingClaimable(rows: Rows)
    requires Ready(rows) && Claimable(rows) == {}
    ensures FinishedBut(rows, Open(rows))
    ensures Open(rows) == {} <==> Finished(rows)
  {
    forall n | n in ValidRows(rows) && n !in Open(rows)
      ensures Final(rows[n].execution)
    {
      assert n !in Claimable(rows);
    }
    if Finished(rows) {
      assert forall n :: n in rows ==> n !in Open(rows);
    }
  }

  /**
   * A run that is neither cancelled nor aborted ends with every VALID row
   * APPLIED, FAILED or SKIPPED, but for the claimed rows that got neither a
   * verdict nor an answer: those, and only those, are left PROCESSING.
   */
  lemma DrainedRunSettlesExactlyTheAnswered(rows: Rows, env: Env)
    requires FinalAnswersOnly(env) && env.chunkSize > 0 && Ready(rows) && Open(rows) == {}
    ensures var report := Passes(rows, env, {}, 0);
            report.ending.Drained? ==>
              && FinishedBut(report.rows, report.silent)
              && (report.silent == {} <==> Finished(report.rows))
  {
    PassesLeaveOpenTheSilent(rows, env, {}, 0);
    var report := Passes(rows, env, {}, 0);
    if report.ending.Drained? {
      NothingClaimable(report.rows);
    }
  }

  /** In every pass that is reached, each claimed row gets a verdict. */
  ghost predicate EveryRowJudged(rows: Rows, env: Env, k: nat)
    requires FinalAnswersOnly(env) && env.chunkSize > 0
    decreases |Claimable(rows)|
  {
    var claimed := NextClaim(rows, env);
    env.cancelled(k) || claimed == [] ||
    match env.validate(k)
    case None => true
    case Some(verdicts) =>
      PassShrinks(rows, env, verdicts, k);
      (forall n :: n in claimed ==> Rejected(verdicts, n) || n in StillValid(verdicts)) &&
      EveryRowJudged(AfterPass(rows, env, verdicts, env.execute(k)), env, k + 1)
  }

  lemma {:induction false} AnsweredHasFirst(answers: seq<Answer>, n: nat)
    requires n in Answered(answers) && forall a :: a in answers ==> Final(a.status)
    ensures FirstAnswer(answers, n).Some?
    decreases |answers|
  {
    if !(answers[0].row == n && !answers[0].status.Processing?) {
      assert answers[0] in answers;
      AnsweredHasFirst(answers[1..], n);
    }
  }

  /** One verdict for every claimed row is enough to leave none behind. */
  lemma {:induction false} OneVerdictPerRowIsEnough(rows: Rows, env: Env, silent: set<nat>, k: nat)
    requires FinalAnswersOnly(env) && env.chunkSize > 0 && EveryRowJudged(rows, env, k)
    ensures Passes(rows, env, silent, k).silent == silent
    decreases |Claimable(rows)|
  {
    var claimed := NextClaim(rows, env);
    if !env.cancelled(k) && claimed != [] && env.validate(k).Some? {
      var verdicts, answers := env.validate(k).value, env.execute(k);
      PassShrinks(rows, env, verdicts, k);
      forall n | n in claimed
        ensures RowOutcome(n, claimed, verdicts, answers).Some?
      {
        if answers.Some? && n in Answered(answers.value) {
          AnsweredHasFirst(answers.value, n);
        }
      }
      assert silent + Silent(claimed, verdicts, answers) == silent;
      OneVerdictPerRowIsEnough(AfterPass(rows, env, verdicts, answers), env, silent, k + 1);
    }
  }

  // ----- the verdict on the job -----

  /** The job after its k-th recount. */
  function Recounted(job: Job, rows: Rows, k: nat): Job {
    if k == 0 then job else RecountCounters(job, rows)
  }

  function FinalStatus(job: Job): Status {
    if job.failed > 0 || job.invalid > 0 then CompletedWithErrors else Completed
  }

  /**
   * The counters such a run closes the job with fall short of the total by
   * exactly the rows left behind, and COMPLETED means every other row is APPLIED.
   */
  lemma CountersFallShortByTheSilent(job: Job, rows: Rows, env: Env)
    requires FinalAnswersOnly(env) && env.chunkSize > 0 && Ready(rows) && Open(rows) == {} && rows != map[]
    ensures var report := Passes(rows, env, {}, 0);
            var j := RecountCounters(job, report.rows);
            report.ending.Drained? ==>
              && j.total == |rows.Keys| && j.applied + j.failed + j.invalid + |report.silent| == j.total
              && (FinalStatus(j).Completed? <==>
                    forall n :: n in report.rows && n !in report.silent ==> report.rows[n].execution.Applied?)
  {
    DrainedRunSettlesExactlyTheAnswered(rows, env);
    PassesLeaveOpenTheSilent(rows, env, {}, 0);
    var report := Passes(rows, env, {}, 0);
    if report.ending.Drained? {
      CountersMissTheOpen(job, report.rows, report.silent);
    }
  }

  /**
   * With a verdict for every claimed row nothing is left behind: the counters
   * add up, and the job is COMPLETED exactly when every row is APPLIED.
   */
  lemma CompletedMeansAllApplied(job: Job, rows: Rows, env: Env)
    requires FinalAnswersOnly(env) && env.chunkSize > 0 && Ready(rows) && Open(rows) == {} && rows != map[]
    requires EveryRowJudged(rows, env, 0)
    ensures var report := Passes(rows, env, {}, 0);
            var j := RecountCounters(job, report.rows);
            report.ending.Drained? ==>
              && Finished(report.rows)
              && j.total == |rows.Keys| && j.applied + j.failed + j.invalid == j.total
              && (FinalStatus(j).Completed? <==> forall n :: n in report.rows ==> report.rows[n].execution.Applied?)
  {
    DrainedRunSettlesExactlyTheAnswered(rows, env);
    CountersFallShortByTheSilent(job, rows, env);
    OneVerdictPerRowIsEnough(rows, env, {}, 0);
  }
}
