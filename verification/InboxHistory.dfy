/** What the inbox rows say about their own past: attempts, single processing, and parking. */
module InboxHistory {
  import opened Common
  import opened Inbox

  /** How many claims were written for the stored row. */
  function Grants(log: seq<Event>, i: Identity, id: nat): nat
    decreases |log|
  {
    if log == [] then 0
    else Grants(log[..|log| - 1], i, id) +
         (var e := log[|log| - 1]; if e.Granted? && e.identity == i && e.id == id then 1 else 0)
  }

  ghost predicate IdsBounded(db: Db, log: seq<Event>) {
    && (forall i :: i in db.table ==> db.table[i].id < db.nextId)
    && (forall a :: 0 <= a < |log| && log[a].Granted? ==> log[a].id < db.nextId)
  }

  ghost predicate AttemptsCountGrants(db: Db, log: seq<Event>) {
    forall i {:trigger i in db.table} :: i in db.table ==> db.table[i].attempts == Grants(log, i, db.table[i].id)
  }

  lemma GrantsOfOneMore(log: seq<Event>, e: Event, i: Identity, id: nat)
    ensures Grants(log + [e], i, id) == Grants(log, i, id) + if e.Granted? && e.identity == i && e.id == id then 1 else 0
  {
    assert (log + [e])[..|log|] == log;
  }

  lemma {:induction false} FreshIdHasNoGrants(log: seq<Event>, i: Identity, id: nat)
    requires forall a :: 0 <= a < |log| && log[a].Granted? ==> log[a].id < id
    ensures Grants(log, i, id) == 0
    decreases |log|
  {
    if log != [] {
      FreshIdHasNoGrants(log[..|log| - 1], i, id);
    }
  }

  lemma NoteIsShort(db: Db, op: Op)
    ensures Note(db, op) == [] || (|Note(db, op)| == 1 && Note(db, op) == [Note(db, op)[0]])
  {
  }

  lemma GrantsAfter(cfg: Config, db: Db, log: seq<Event>, op: Op, i: Identity)
    requires IdsBounded(db, log) && AttemptsCountGrants(db, log) && i in Do(cfg, db, op).table
    ensures var row := Do(cfg, db, op).table[i]; row.attempts == Grants(log + Note(db, op), i, row.id)
  {
    var id, n := Do(cfg, db, op).table[i].id, Note(db, op);
    NoteIsShort(db, op);
    if n == [] {
      assert log + n == log;
    } else {
      GrantsOfOneMore(log, n[0], i, id);
    }
    if i !in db.table {
      FreshIdHasNoGrants(log, i, id);
    }
  }

  lemma {:induction false} RunCountsGrants(s: State, steps: seq<Step>)
    requires IdsBounded(s.db, s.log) && AttemptsCountGrants(s.db, s.log)
    ensures AttemptsCountGrants(Run(s, steps).db, Run(s, steps).log)
    decreases |steps|
  {
    if steps != [] {
      var op, t := WriteOf(s, steps[0]), Apply(s, steps[0]);
      forall i | i in t.db.table
        ensures t.db.table[i].attempts == Grants(t.log, i, t.db.table[i].id)
      {
        GrantsAfter(s.cfg, s.db, s.log, op, i);
      }
      IdsStayBounded(s, steps[0]);
      RunCountsGrants(t, steps[1..]);
    }
  }

  lemma IdsStayBounded(s: State, step: Step)
    requires IdsBounded(s.db, s.log)
    ensures IdsBounded(Apply(s, step).db, Apply(s, step).log)
  {
    var t, n := Apply(s, step), Note(s.db, WriteOf(s, step));
    assert forall a :: 0 <= a < |s.log| ==> t.log[a] == s.log[a];
    assert forall a :: |s.log| <= a < |t.log| ==> t.log[a] == n[a - |s.log|];
  }

  /** In every run a row's attempts are the claims written for it. */
  lemma AttemptsAreGrants(cfg: Config, steps: seq<Step>)
    ensures AttemptsCountGrants(Run(Initial(cfg), steps).db, Run(Initial(cfg), steps).log)
  {
    RunCountsGrants(Initial(cfg), steps);
  }

  // ----- single processing -----

  ghost predicate ShowsProcessed(t: Table, id: nat) {
    forall i :: i in t && t[i].id == id ==> t[i].status.Processed?
  }

  ghost predicate ProcessedOk(s: State) {
    && (forall i :: i in s.db.table ==> s.db.table[i].id < s.db.nextId)
    && (forall a :: 0 <= a < |s.log| && s.log[a].Settled? && s.log[a].done ==>
          s.log[a].id < s.db.nextId && ShowsProcessed(s.db.table, s.log[a].id))
    && (forall a, b :: 0 <= a < b < |s.log| && s.log[a].Settled? && s.log[a].done && s.log[b].Settled? && s.log[b].done
          ==> s.log[a].id != s.log[b].id)
  }

  lemma ProcessedLasts(cfg: Config, db: Db, op: Op, id: nat)
    requires id < db.nextId && ShowsProcessed(db.table, id)
    ensures ShowsProcessed(Do(cfg, db, op).table, id)
  {
  }

  ghost predicate IdsDistinct(t: Table) {
    forall i, j :: i in t && j in t && t[i].id == t[j].id ==> i == j
  }

  lemma IdsStayDistinct(cfg: Config, db: Db, op: Op)
    requires IdsDistinct(db.table) && forall i :: i in db.table ==> db.table[i].id < db.nextId
    ensures IdsDistinct(Do(cfg, db, op).table)
  {
  }

  lemma NewCompletion(cfg: Config, db: Db, op: Op)
    requires IdsDistinct(db.table) && forall i :: i in db.table ==> db.table[i].id < db.nextId
    requires op.MarkDone? && Lands(db.table, op.id, op.token)
    ensures op.id < db.nextId && ShowsProcessed(Do(cfg, db, op).table, op.id) && !ShowsProcessed(db.table, op.id)
  {
  }

  lemma ProcessedStaysOk(s: State, step: Step)
    requires ProcessedOk(s) && IdsDistinct(s.db.table)
    ensures ProcessedOk(Apply(s, step))
  {
    var t, op, n := Apply(s, step), WriteOf(s, step), |s.log|;
    NoteIsShort(s.db, op);
    forall a | 0 <= a < |t.log| && t.log[a].Settled? && t.log[a].done
      ensures t.log[a].id < t.db.nextId && ShowsProcessed(t.db.table, t.log[a].id)
      ensures a >= n ==> a == n && !ShowsProcessed(s.db.table, t.log[a].id)
    {
      if a < n {
        assert t.log[a] == s.log[a];
        ProcessedLasts(s.cfg, s.db, op, s.log[a].id);
      } else {
        assert t.log[a] == Note(s.db, op)[0];
        NewCompletion(s.cfg, s.db, op);
      }
    }
    assert forall a :: 0 <= a < n ==> t.log[a] == s.log[a];
  }

  lemma {:induction false} RunKeepsProcessedOk(s: State, steps: seq<Step>)
    requires ProcessedOk(s) && IdsDistinct(s.db.table)
    ensures ProcessedOk(Run(s, steps))
    decreases |steps|
  {
    if steps != [] {
      IdsStayDistinct(s.cfg, s.db, WriteOf(s, steps[0]));
      ProcessedStaysOk(s, steps[0]);
      RunKeepsProcessedOk(Apply(s, steps[0]), steps[1..]);
    }
  }

  /** Each stored row is entered into PROCESSED at most once, and never leaves it but by the retention sweep. */
  lemma ProcessedOnce(cfg: Config, steps: seq<Step>)
    ensures ProcessedOk(Run(Initial(cfg), steps))
  {
    RunKeepsProcessedOk(Initial(cfg), steps);
  }

  // ----- parking -----

  ghost predicate ParkedAreExhausted(s: State) {
    forall i :: i in s.db.table && s.db.table[i].status.Suspended? ==> s.db.table[i].attempts > s.cfg.maxAttempts
  }

  /** Only rows handed out more than maxAttempts times are parked, and a parked row stays as it is. */
  lemma {:induction false} ParkingIsEarnedAndFinal(s: State, steps: seq<Step>)
    requires ParkedAreExhausted(s)
    ensures ParkedAreExhausted(Run(s, steps))
    ensures var u := Run(s, steps);
            forall i :: i in s.db.table && s.db.table[i].status.Suspended? ==> i in u.db.table && u.db.table[i] == s.db.table[i]
    decreases |steps|
  {
    if steps != [] {
      ParkedStepIsFinal(s, steps[0]);
      ParkingIsEarnedAndFinal(Apply(s, steps[0]), steps[1..]);
    }
  }

  lemma ParkedStepIsFinal(s: State, step: Step)
    requires ParkedAreExhausted(s)
    ensures var t := Apply(s, step);
            && t.cfg == s.cfg && ParkedAreExhausted(t)
            && forall i :: i in s.db.table && s.db.table[i].status.Suspended? ==> i in t.db.table && t.db.table[i] == s.db.table[i]
  {
  }

  // ----- what is parked -----

  ghost predicate SettledUnder(log: seq<Event>, id: nat, token: nat) {
    exists c :: 0 <= c < |log| && log[c].Settled? && log[c].id == id && log[c].token == token
  }

  /** A row that is claimed or parked has not been settled under its present token. */
  ghost predicate SilentSoFar(db: Db, log: seq<Event>) {
    && TokensOk(db) && IdsDistinct(db.table)
    && SettlementsBounded(db, log)
    && (forall i :: i in db.table && (db.table[i].status.Suspended? || db.table[i].claimedAt.Some?) ==>
          !SettledUnder(log, db.table[i].id, db.table[i].token))
  }

  lemma SettledUnderOneMore(log: seq<Event>, e: Event, id: nat, token: nat)
    ensures SettledUnder(log + [e], id, token) <==> SettledUnder(log, id, token) || (e.Settled? && e.id == id && e.token == token)
  {
    var all := log + [e];
    assert all[|log|] == e;
    assert forall c :: 0 <= c < |log| ==> all[c] == log[c];
  }

  /** Who is claimed or parked after a statement: a fresh claim, or somebody who was before and is not settled by it. */
  lemma ClaimedAfter(cfg: Config, db: Db, op: Op, i: Identity)
    requires TokensOk(db) && IdsDistinct(db.table) && i in Do(cfg, db, op).table
    requires var row := Do(cfg, db, op).table[i]; row.status.Suspended? || row.claimedAt.Some?
    ensures var row := Do(cfg, db, op).table[i];
            || (row.token == db.nextToken && !op.MarkDone? && !op.MarkFailed?)
            || (i in db.table && db.table[i].id == row.id && db.table[i].token == row.token &&
                (db.table[i].status.Suspended? || db.table[i].claimedAt.Some?) &&
                ((op.MarkDone? || op.MarkFailed?) && Lands(db.table, op.id, op.token) ==> !(op.id == row.id && op.token == row.token)))
  {
  }

  ghost predicate SettlementsBounded(db: Db, log: seq<Event>) {
    forall a :: 0 <= a < |log| && log[a].Settled? ==> log[a].id < db.nextId && log[a].token < db.nextToken
  }

  lemma SettlementsStayBounded(cfg: Config, db: Db, log: seq<Event>, op: Op)
    requires TokensOk(db) && SettlementsBounded(db, log)
    ensures TokensOk(Do(cfg, db, op)) && SettlementsBounded(Do(cfg, db, op), log + Note(db, op))
  {
    var all, n := log + Note(db, op), Note(db, op);
    NoteIsShort(db, op);
    assert forall a :: 0 <= a < |all| ==> if a < |log| then all[a] == log[a] else all[a] == n[a - |log|];
  }

  lemma SilentRowStays(cfg: Config, db: Db, log: seq<Event>, op: Op, i: Identity)
    requires SilentSoFar(db, log) && i in Do(cfg, db, op).table
    requires var row := Do(cfg, db, op).table[i]; row.status.Suspended? || row.claimedAt.Some?
    ensures var row := Do(cfg, db, op).table[i]; !SettledUnder(log + Note(db, op), row.id, row.token)
  {
    var row, n := Do(cfg, db, op).table[i], Note(db, op);
    NoteIsShort(db, op);
    ClaimedAfter(cfg, db, op, i);
    assert !SettledUnder(log, row.id, row.token);
    if n == [] {
      assert log + n == log;
    } else {
      SettledUnderOneMore(log, n[0], row.id, row.token);
    }
  }

  lemma SilenceLasts(cfg: Config, db: Db, log: seq<Event>, op: Op)
    requires SilentSoFar(db, log)
    ensures SilentSoFar(Do(cfg, db, op), log + Note(db, op))
  {
    var after := Do(cfg, db, op);
    IdsStayDistinct(cfg, db, op);
    SettlementsStayBounded(cfg, db, log, op);
    forall i | i in after.table && (after.table[i].status.Suspended? || after.table[i].claimedAt.Some?)
      ensures !SettledUnder(log + Note(db, op), after.table[i].id, after.table[i].token)
    {
      SilentRowStays(cfg, db, log, op, i);
    }
  }

  lemma {:induction false} RunKeepsSilence(s: State, steps: seq<Step>)
    requires SilentSoFar(s.db, s.log)
    ensures SilentSoFar(Run(s, steps).db, Run(s, steps).log)
    decreases |steps|
  {
    if steps != [] {
      SilenceLasts(s.cfg, s.db, s.log, WriteOf(s, steps[0]));
      RunKeepsSilence(Apply(s, steps[0]), steps[1..]);
    }
  }

  /**
   * In every run a SUSPENDED row was never settled under its last claim: only
   * claims left to expire are parked, and a message that each consumer fails in
   * time is handed out again however many attempts it has used.
   */
  lemma OnlySilentClaimsAreParked(cfg: Config, steps: seq<Step>, i: Identity)
    requires i in Run(Initial(cfg), steps).db.table && Run(Initial(cfg), steps).db.table[i].status.Suspended?
    ensures var s := Run(Initial(cfg), steps); !SettledUnder(s.log, s.db.table[i].id, s.db.table[i].token)
  {
    RunKeepsSilence(Initial(cfg), steps);
  }
}
