/**
 * The validation loop of an import job: PENDING rows are checked for structure,
 * the sound ones are judged by the untrusted handler, and whatever the handler
 * leaves out becomes INVALID.
 */
module ImportValidation {
  import opened Common
  import opened ImportRows
  import opened ImportJobs

  /** The handler's verdicts on each pass (None is a throw), which rows are structurally sound, cancellation, chunk size. */
  datatype Env = Env(
    validate: nat -> Option<seq<Verdict>>,
    sound: set<nat>,
    cancelled: nat -> bool,
    chunkSize: nat)

  function Unjudged(rows: Rows): set<nat> {
    set n | n in rows && rows[n].validation.Unchecked?
  }

  function NextPending(rows: Rows, env: Env): seq<nat> {
    Lowest(Unjudged(rows), env.chunkSize)
  }

  function Rejections(numbers: seq<nat>): seq<Verdict> {
    seq(|numbers|, i requires 0 <= i < |numbers| => Verdict(numbers[i], Invalid))
  }

  function Judged(verdicts: seq<Verdict>): set<nat> {
    set v | v in verdicts :: v.row
  }

  function Structural(pending: seq<nat>, env: Env): seq<Verdict> {
    Rejections(Drop(pending, env.sound))
  }

  function Candidates(pending: seq<nat>, env: Env): seq<nat> {
    Keep(pending, env.sound)
  }

  function Missing(pending: seq<nat>, env: Env, verdicts: seq<Verdict>): seq<Verdict> {
    Rejections(Drop(Candidates(pending, env), Judged(verdicts)))
  }

  /** Everything one pass applies, in order; a pass without candidates asks the handler nothing. */
  function PassVerdicts(pending: seq<nat>, env: Env, verdicts: seq<Verdict>): seq<Verdict> {
    Structural(pending, env) +
    (if Candidates(pending, env) == [] then [] else verdicts + Missing(pending, env, verdicts))
  }

  /** The handler is asked in this pass. */
  predicate Asks(pending: seq<nat>, env: Env) {
    exists n :: n in pending && n in env.sound
  }

  // ----- what one pass means -----

  lemma {:induction false} LastVerdictAppend(a: seq<Verdict>, b: seq<Verdict>, n: nat)
    ensures LastVerdict(a + b, n) == if LastVerdict(b, n).Some? then LastVerdict(b, n) else LastVerdict(a, n)
    decreases |a|
  {
    if a == [] {
      assert a + b == b;
    } else {
      assert (a + b)[1..] == a[1..] + b;
      LastVerdictAppend(a[1..], b, n);
    }
  }

  lemma {:induction false} LastOfRejections(numbers: seq<nat>, n: nat)
    ensures LastVerdict(Rejections(numbers), n) == if n in numbers then Some(Invalid) else None
    decreases |numbers|
  {
    if numbers != [] {
      assert Rejections(numbers)[1..] == Rejections(numbers[1..]);
      LastOfRejections(numbers[1..], n);
    }
  }

  lemma {:induction false} JudgedHasLast(verdicts: seq<Verdict>, n: nat)
    ensures LastVerdict(verdicts, n).Some? <==> n in Judged(verdicts)
    ensures LastVerdict(verdicts, n).Some? ==> Verdict(n, LastVerdict(verdicts, n).value) in verdicts
    decreases |verdicts|
  {
    if verdicts != [] {
      JudgedHasLast(verdicts[1..], n);
      assert Judged(verdicts) == {verdicts[0].row} + Judged(verdicts[1..]) by {
        assert verdicts == [verdicts[0]] + verdicts[1..];
      }
    }
  }

  /**
   * A row the handler names takes its last verdict, wherever the row came from;
   * a listed row it does not name becomes INVALID; no other row changes.
   */
  function RowVerdict(n: nat, pending: seq<nat>, env: Env, verdicts: seq<Verdict>): Option<Validation> {
    if Asks(pending, env) && n in Judged(verdicts) then LastVerdict(verdicts, n)
    else if n in pending then Some(Invalid)
    else None
  }

  lemma PassGivesRowVerdict(n: nat, pending: seq<nat>, env: Env, verdicts: seq<Verdict>)
    ensures LastVerdict(PassVerdicts(pending, env, verdicts), n) == RowVerdict(n, pending, env, verdicts)
  {
    var candidates := Candidates(pending, env);
    var structural, missing := Structural(pending, env), Missing(pending, env, verdicts);
    assert Asks(pending, env) <==> candidates != [] by {
      if candidates != [] { assert candidates[0] in candidates; }
    }
    LastOfRejections(Drop(pending, env.sound), n);
    LastOfRejections(Drop(candidates, Judged(verdicts)), n);
    JudgedHasLast(verdicts, n);
    LastVerdictAppend(verdicts, missing, n);
    LastVerdictAppend(structural, verdicts + missing, n);
    LastVerdictAppend(structural, [], n);
  }

  // ----- a whole run -----

  ghost predicate NeverPending(env: Env) {
    forall k: nat, v :: env.validate(k).Some? && v in env.validate(k).value ==> !v.status.Unchecked?
  }

  /** The pass asks nothing or the handler answers. */
  function PassRuns(rows: Rows, env: Env, k: nat): bool {
    Candidates(NextPending(rows, env), env) == [] || env.validate(k).Some?
  }

  function AfterPass(rows: Rows, env: Env, k: nat): Rows
    requires PassRuns(rows, env, k)
  {
    ApplyVerdicts(rows, PassVerdicts(NextPending(rows, env), env, env.validate(k).GetOr([])))
  }

  lemma NextPendingTakes(rows: Rows, env: Env)
    ensures forall n :: n in NextPending(rows, env) ==> n in Unjudged(rows)
    ensures env.chunkSize > 0 && NextPending(rows, env) == [] ==> Unjudged(rows) == {}
  {
    LowestIsSorted(Unjudged(rows), env.chunkSize);
    if x :| x in Unjudged(rows) && NextPending(rows, env) == [] {
      LowestLeavesOutTheHigher(Unjudged(rows), env.chunkSize, x);
    }
  }

  lemma PassEffect(rows: Rows, env: Env, k: nat)
    requires PassRuns(rows, env, k)
    ensures var after := AfterPass(rows, env, k);
            && after.Keys == rows.Keys
            && forall n :: n in rows ==>
                 after[n] == rows[n].(validation :=
                   RowVerdict(n, NextPending(rows, env), env, env.validate(k).GetOr([])).GetOr(rows[n].validation))
  {
    var pending, verdicts := NextPending(rows, env), env.validate(k).GetOr([]);
    ApplyVerdictsEffect(rows, PassVerdicts(pending, env, verdicts));
    forall n | n in rows
      ensures LastVerdict(PassVerdicts(pending, env, verdicts), n) == RowVerdict(n, pending, env, verdicts)
    {
      PassGivesRowVerdict(n, pending, env, verdicts);
    }
  }

  /** Every listed row leaves PENDING, and no row enters it. */
  lemma PassJudges(rows: Rows, env: Env, k: nat)
    requires NeverPending(env) && PassRuns(rows, env, k)
    ensures forall n :: n in Unjudged(AfterPass(rows, env, k)) ==> n in Unjudged(rows) && n !in NextPending(rows, env)
  {
    var pending, verdicts := NextPending(rows, env), env.validate(k).GetOr([]);
    PassEffect(rows, env, k);
    forall v | v in verdicts
      ensures !v.status.Unchecked?
    {
      assert v in env.validate(k).value;
    }
    forall n | n in Unjudged(AfterPass(rows, env, k))
      ensures n in Unjudged(rows) && n !in pending
    {
      JudgedHasLast(verdicts, n);
      assert RowVerdict(n, pending, env, verdicts).None?;
    }
  }

  /** The measure of the loop. */
  lemma PassShrinks(rows: Rows, env: Env, k: nat)
    requires NeverPending(env) && PassRuns(rows, env, k) && NextPending(rows, env) != []
    ensures |Unjudged(AfterPass(rows, env, k))| < |Unjudged(rows)|
  {
    PassJudges(rows, env, k);
    NextPendingTakes(rows, env);
    var listed := NextPending(rows, env)[0];
    assert listed in NextPending(rows, env);
    SubsetSize(Unjudged(AfterPass(rows, env, k)), Unjudged(rows));
  }

  /** A handler that answers PENDING for sound rows changes nothing: the next pass lists the very same rows. */
  lemma PendingVerdictsPinTheLoop(rows: Rows, env: Env, k: nat)
    requires env.validate(k) == Some(AllPending(NextPending(rows, env)))
    requires forall n :: n in NextPending(rows, env) ==> n in env.sound
    ensures AfterPass(rows, env, k) == rows
  {
    var pending := NextPending(rows, env);
    var verdicts := AllPending(pending);
    PassEffect(rows, env, k);
    NextPendingTakes(rows, env);
    forall n | n in rows
      ensures RowVerdict(n, pending, env, verdicts).GetOr(rows[n].validation) == rows[n].validation
    {
      JudgedHasLast(verdicts, n);
      if n in pending {
        var i :| 0 <= i < |pending| && pending[i] == n;
        assert verdicts[i] in verdicts;
      }
    }
  }

  function AllPending(numbers: seq<nat>): seq<Verdict> {
    seq(|numbers|, i requires 0 <= i < |numbers| => Verdict(numbers[i], Unchecked))
  }

  datatype Ending = Drained | CancelSeen | Threw

  /** The rows at the end, why the loop ended, the passes it completed and the rows its last recount saw. */
  datatype Report = Report(rows: Rows, ending: Ending, passes: nat, counted: Rows)

  /** The loop from pass k on; for a handler that never answers PENDING it ends. */
  ghost function Passes(rows: Rows, env: Env, k: nat): Report
    requires NeverPending(env) && env.chunkSize > 0
    decreases |Unjudged(rows)|
  {
    var pending := NextPending(rows, env);
    if env.cancelled(k) then Report(rows, CancelSeen, k, rows)
    else if pending == [] then Report(rows, Drained, k, rows)
    else if !PassRuns(rows, env, k) then Report(ApplyVerdicts(rows, Structural(pending, env)), Threw, k, rows)
    else
      PassShrinks(rows, env, k);
      Passes(AfterPass(rows, env, k), env, k + 1)
  }

  /** VALIDATED is reached only with every row judged, and no execution state is touched on the way. */
  lemma {:induction false} ValidatedMeansAllJudged(rows: Rows, env: Env, k: nat)
    requires NeverPending(env) && env.chunkSize > 0
    ensures var report := Passes(rows, env, k);
            && report.rows.Keys == rows.Keys
            && (forall n :: n in rows ==> report.rows[n] == rows[n].(validation := report.rows[n].validation))
            && (report.ending.Drained? ==> Unjudged(report.rows) == {})
    decreases |Unjudged(rows)|
  {
    var pending := NextPending(rows, env);
    NextPendingTakes(rows, env);
    if !env.cancelled(k) && pending != [] {
      if PassRuns(rows, env, k) {
        PassEffect(rows, env, k);
        PassShrinks(rows, env, k);
        ValidatedMeansAllJudged(AfterPass(rows, env, k), env, k + 1);
      } else {
        ApplyVerdictsEffect(rows, Structural(pending, env));
      }
    }
  }
}
