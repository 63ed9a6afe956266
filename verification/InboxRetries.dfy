/**
 * The backoff of the inbox: a receive honours the attempt time it reads, but
 * its compare-and-set looks at the token and the status only, so a failure or a
 * sweep that lands in between is overrun.
 */
module InboxRetries {
  import opened Common
  import opened Inbox
  import opened InboxAnswers

  /** The reclaim would land now, before the row's attempt time. */
  predicate Overruns(s: State, p: nat) {
    p in s.procs && s.procs[p].Reclaiming? &&
    var proc := s.procs[p];
    CanReclaim(s.db.table, proc.identity, proc.seen.id, proc.seen.token) &&
    var row := s.db.table[proc.identity];
    row.nextAttemptAt.Some? && s.db.now < row.nextAttemptAt.value
  }

  /** No reclaim is ever about to overrun a backoff. */
  ghost predicate BackoffHonoured(cfg: Config) {
    forall steps, p :: !Overruns(Run(Initial(cfg), steps), p)
  }

  /** A receive that goes on to reclaim has read a row that was due. */
  ghost predicate ReadersDue(s: State) {
    forall p :: p in s.procs ==>
      && s.procs[p].start <= s.db.now
      && (s.procs[p].Reclaiming? ==> Due(s.procs[p].seen, s.procs[p].start))
  }

  predicate Due(row: Row, now: int) {
    row.nextAttemptAt.None? || row.nextAttemptAt.value <= now
  }

  /** A row waits for an attempt time only after its claim has been given up. */
  ghost predicate WaitsUnclaimed(t: Table) {
    forall i :: i in t && t[i].nextAttemptAt.Some? ==> t[i].claimedAt.None?
  }

  lemma StepKeepsReadersDue(s: State, step: Step)
    requires ReadersDue(s)
    ensures ReadersDue(Apply(s, step))
  {
  }

  lemma StepKeepsWaitsUnclaimed(s: State, step: Step)
    requires WaitsUnclaimed(s.db.table)
    ensures WaitsUnclaimed(Apply(s, step).db.table)
  {
  }

  lemma {:induction false} RunKeepsReadersDue(s: State, steps: seq<Step>)
    requires ReadersDue(s) && WaitsUnclaimed(s.db.table)
    ensures ReadersDue(Run(s, steps)) && WaitsUnclaimed(Run(s, steps).db.table)
    decreases |steps|
  {
    if steps != [] {
      StepKeepsReadersDue(s, steps[0]);
      StepKeepsWaitsUnclaimed(s, steps[0]);
      RunKeepsReadersDue(Apply(s, steps[0]), steps[1..]);
    }
  }

  /** Whatever a reclaim overruns, its claim was given up after the row had been read: what it read was due. */
  lemma OnlyLaterFailuresAreOverrun(cfg: Config, steps: seq<Step>, p: nat)
    requires Overruns(Run(Initial(cfg), steps), p)
    ensures var s := Run(Initial(cfg), steps); var proc := s.procs[p]; var row := s.db.table[proc.identity];
            && Due(proc.seen, s.db.now) && row.claimedAt.None?
            && row.nextAttemptAt != proc.seen.nextAttemptAt
  {
    RunKeepsReadersDue(Initial(cfg), steps);
  }

  ghost predicate AllDue(s: State) {
    forall i :: i in s.db.table ==> Due(s.db.table[i], s.db.now)
  }

  lemma NoBackoff(cfg: Config, attempts: nat)
    requires cfg.retryBase <= 0
    ensures Backoff(cfg, attempts) <= 0
  {
    assert Max(cfg.retryBase, 0) * Pow2(Max(attempts - 1, 0)) == 0;
  }

  lemma {:induction false} RunKeepsAllDue(s: State, steps: seq<Step>)
    requires s.cfg.retryBase <= 0 && AllDue(s)
    ensures AllDue(Run(s, steps))
    decreases |steps|
  {
    if steps != [] {
      forall attempts: nat
        ensures Backoff(s.cfg, attempts) <= 0
      {
        NoBackoff(s.cfg, attempts);
      }
      RunKeepsAllDue(Apply(s, steps[0]), steps[1..]);
    }
  }

  lemma FirstBackoff(cfg: Config)
    requires cfg.retryBase > 0
    ensures Backoff(cfg, 1) == cfg.retryBase
  {
    assert Pow2(0) == 1;
  }

  /** The owner was answered and has run out its lease; nothing is under way. */
  function OutOfLease(cfg: Config, i: Identity): State {
    State(cfg, Db(map[i := Row(0, InProgress, 1, 0, Some(0), None, None)], 1, 1, cfg.lease), map[], [Granted(i, 0, 0, 0, 0)])
  }

  lemma ReachOutOfLease(cfg: Config, i: Identity) returns (steps: seq<Step>)
    ensures HonestRun(Initial(cfg), {}, steps) && Run(Initial(cfg), steps) == OutOfLease(cfg, i)
    ensures 0 in AnsweredBy(Initial(cfg), {}, steps)
  {
    var s0 := Initial(cfg);
    steps := HonestOneMore(s0, [], Receive(0, i));
    assert Run(s0, steps).procs == map[0 := Inserting(i, 0)];
    steps := HonestOneMore(s0, steps, Turn(0));
    assert Run(s0, steps).procs == map[0 := Answering(i, 0, 0, 0)];
    steps := HonestOneMore(s0, steps, Turn(0));
    steps := HonestOneMore(s0, steps, Tick(cfg.lease));
    assert Run(s0, steps).procs == map[];
  }

  lemma ReachReclaim(cfg: Config, i: Identity) returns (steps: seq<Step>)
    ensures HonestRun(Initial(cfg), {}, steps) && 0 in AnsweredBy(Initial(cfg), {}, steps)
    ensures var s := OutOfLease(cfg, i);
            Run(Initial(cfg), steps) == s.(procs := map[1 := Reclaiming(i, s.db.table[i], cfg.lease)])
  {
    var s0 := Initial(cfg);
    steps := ReachOutOfLease(cfg, i);
    steps := HonestOneMore(s0, steps, Receive(1, i));
    assert Run(s0, steps).procs == map[1 := Inserting(i, cfg.lease)];
    steps := HonestOneMore(s0, steps, Turn(1));
    assert Run(s0, steps).procs == map[1 := Finding(i, cfg.lease)];
    steps := HonestOneMore(s0, steps, Turn(1));
  }

  /** The owner fails while a second receive stands between its read and its reclaim, and that reclaim lands at once. */
  lemma FailureIsOverrun(cfg: Config, i: Identity) returns (steps: seq<Step>)
    requires cfg.retryBase > 0
    ensures HonestRun(Initial(cfg), {}, steps)
    ensures var s := Run(Initial(cfg), steps);
            && Overruns(s, 1) && s.procs[1].identity == i && s.db.table[i].nextAttemptAt == Some(s.db.now + cfg.retryBase)
            && Apply(s, Turn(1)).log == s.log + [Granted(i, 0, 1, s.db.now, s.db.now)]
  {
    var s0 := Initial(cfg);
    FirstBackoff(cfg);
    steps := ReachReclaim(cfg, i);
    steps := HonestOneMore(s0, steps, Write(MarkFailed(0, 0)));
    assert Run(s0, steps).procs == map[1 := Reclaiming(i, OutOfLease(cfg, i).db.table[i], cfg.lease)];
  }

  /** The exact condition: backoffs are honoured in every run if and only if there are none. */
  lemma BackoffHonouredExactly(cfg: Config)
    ensures BackoffHonoured(cfg) <==> cfg.retryBase <= 0
  {
    if cfg.retryBase <= 0 {
      forall steps, p
        ensures !Overruns(Run(Initial(cfg), steps), p)
      {
        RunKeepsAllDue(Initial(cfg), steps);
      }
    } else {
      var steps := FailureIsOverrun(cfg, Identity("", "", "", ""));
    }
  }
  // ----- run by run -----

  /** A receive stands between its read and a reclaim that would land. */
  predicate MayLand(s: State, p: nat) {
    p in s.procs && s.procs[p].Reclaiming? &&
    CanReclaim(s.db.table, s.procs[p].identity, s.procs[p].seen.id, s.procs[p].seen.token)
  }

  /** A settlement or a sweep that gives the row's claim up until a time still to come. */
  predicate PutsOff(cfg: Config, row: Row, op: Op, now: int) {
    match op
    case MarkFailed(id, token) => Owned(row, id, token) && Backoff(cfg, row.attempts) > 0
    case BackOff(at) =>
      at <= now && Expired(row, at - cfg.lease) && row.attempts <= cfg.maxAttempts && now < at + Backoff(cfg, row.attempts)
    case _ => false
  }

  ghost predicate Disturbs(s: State, step: Step) {
    exists p :: MayLand(s, p) && PutsOff(s.cfg, s.db.table[s.procs[p].identity], WriteOf(s, step), s.db.now)
  }

  ghost predicate NoneOverruns(s: State) {
    forall p :: !Overruns(s, p)
  }

  ghost predicate HonouredAlong(s: State, steps: seq<Step>)
    decreases |steps|
  {
    NoneOverruns(s) && (steps == [] || HonouredAlong(Apply(s, steps[0]), steps[1..]))
  }

  ghost predicate NeverDisturbed(s: State, steps: seq<Step>)
    decreases |steps|
  {
    steps == [] || (!Disturbs(s, steps[0]) && NeverDisturbed(Apply(s, steps[0]), steps[1..]))
  }

  lemma DisturbanceShows(s: State, step: Step, p: nat)
    requires MayLand(s, p) && PutsOff(s.cfg, s.db.table[s.procs[p].identity], WriteOf(s, step), s.db.now)
    ensures Overruns(Apply(s, step), p)
  {
  }

  /** A receive that does not overrun before the step and does after it was disturbed by it. */
  lemma OnlyDisturbancesOverrun(s: State, step: Step, p: nat)
    requires ReadersDue(s) && !Overruns(s, p) && Overruns(Apply(s, step), p)
    ensures MayLand(s, p) && PutsOff(s.cfg, s.db.table[s.procs[p].identity], WriteOf(s, step), s.db.now)
  {
  }

  lemma StepHonoursExactly(s: State, step: Step)
    requires ReadersDue(s) && NoneOverruns(s)
    ensures NoneOverruns(Apply(s, step)) <==> !Disturbs(s, step)
  {
    if p :| MayLand(s, p) && PutsOff(s.cfg, s.db.table[s.procs[p].identity], WriteOf(s, step), s.db.now) {
      DisturbanceShows(s, step, p);
    }
    if p :| Overruns(Apply(s, step), p) {
      OnlyDisturbancesOverrun(s, step, p);
    }
  }

  lemma {:induction false} RunHonours(s: State, steps: seq<Step>)
    requires ReadersDue(s) && NoneOverruns(s)
    ensures HonouredAlong(s, steps) <==> NeverDisturbed(s, steps)
    decreases |steps|
  {
    if steps != [] {
      StepHonoursExactly(s, steps[0]);
      StepKeepsReadersDue(s, steps[0]);
      if !Disturbs(s, steps[0]) {
        RunHonours(Apply(s, steps[0]), steps[1..]);
      }
    }
  }

  /**
   * For every run: no reclaim is ever about to overrun a backoff if and only if no
   * failure and no sweep puts a row off while a receive stands between its read
   * of the row and a reclaim that would land.
   */
  lemma RunHonoursBackoffExactly(cfg: Config, steps: seq<Step>)
    ensures HonouredAlong(Initial(cfg), steps) <==> NeverDisturbed(Initial(cfg), steps)
  {
    RunHonours(Initial(cfg), steps);
  }

  /** The sweep alone is enough: nobody settles anything, and the claim is handed out early all the same. */
  lemma SweepIsOverrun(cfg: Config, i: Identity) returns (steps: seq<Step>)
    requires cfg.retryBase > 0 && cfg.maxAttempts >= 1
    ensures var s := Run(Initial(cfg), steps);
            && Overruns(s, 1) && s.procs[1].identity == i && s.log == [Granted(i, 0, 0, 0, 0)]
            && s.db.table[i].nextAttemptAt == Some(s.db.now + cfg.retryBase)
  {
    var s0 := Initial(cfg);
    FirstBackoff(cfg);
    steps := ReachReclaim(cfg, i);
    steps := HonestOneMore(s0, steps, Tick(1));
    steps := HonestOneMore(s0, steps, Write(BackOff(cfg.lease + 1)));
    assert Run(s0, steps).procs == map[1 := Reclaiming(i, OutOfLease(cfg, i).db.table[i], cfg.lease)];
  }
}
