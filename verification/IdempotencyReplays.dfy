/**
 * What a replay shows. Cache writes at most one tick late keep every replay the
 * result of the identity's latest claim; any later write can bring back a
 * result that has been purged and claimed anew, which no run of the ledger alone
 * can show.
 */
module IdempotencyReplays {
  import opened Common
  import opened Idempotency
  import opened IdempotencyCache
  import C = IdempotencyClaims

  /** The identity's latest claim was settled with this value. */
  ghost predicate OnRecord(log: seq<Event>, i: Identity, value: Json) {
    exists c :: 0 <= c < |log| && log[c].Settled? && log[c].identity == i && log[c].result == Some(value) &&
      forall k :: c < k < |log| && log[k].Granted? ==> log[k].identity != i
  }

  ghost predicate ResultsOnRecord(db: Db, log: seq<Event>) {
    forall i :: i in db.ledger && db.ledger[i].status.Completed? ==>
      db.ledger[i].result.Some? && OnRecord(log, i, db.ledger[i].result.value)
  }

  /** Every replay is the result of the latest claim before it. */
  ghost predicate ReplaysLatest(log: seq<Event>) {
    forall b :: 0 <= b < |log| && log[b].Answered? && log[b].answer.Replay? ==>
      OnRecord(log[..b], log[b].req.identity, log[b].answer.value)
  }

  /** A hit shows what the ledger stores. */
  ghost predicate HitIsStored(s: State, step: Step) {
    Hits(s, step) ==>
      var i := s.procs[step.p].req.identity;
      i in s.db.ledger && s.db.ledger[i].status.Completed? && s.db.ledger[i].result == Some(s.cache[BuildKey(i)].value)
  }

  lemma RecordExtends(log: seq<Event>, added: seq<Event>, i: Identity, value: Json)
    requires OnRecord(log, i, value) && forall k :: 0 <= k < |added| && added[k].Granted? ==> added[k].identity != i
    ensures OnRecord(log + added, i, value)
  {
    var all, n := log + added, |log|;
    var c :| 0 <= c < n && log[c].Settled? && log[c].identity == i && log[c].result == Some(value) &&
      forall k :: c < k < n && log[k].Granted? ==> log[k].identity != i;
    assert all[c] == log[c];
    assert forall k :: 0 <= k < |all| ==> if k < n then all[k] == log[k] else all[k] == added[k - n];
  }

  lemma SettlementIsRecord(log: seq<Event>, e: Event)
    requires e.Settled? && e.result.Some?
    ensures OnRecord(log + [e], e.identity, e.result.value)
  {
    assert (log + [e])[|log|] == e;
  }

  /** A row that is COMPLETED after a turn was so before, with no new claim on it, or has just been settled. */
  lemma CompletedRowsOfTurn(s: State, proc: Proc, c: Choice, i: Identity)
    requires var move := TurnOf(s, proc, c);
             i in Do(s.db, move.op).ledger && Do(s.db, move.op).ledger[i].status.Completed?
    ensures var move := TurnOf(s, proc, c);
            var row := Do(s.db, move.op).ledger[i];
            (i in s.db.ledger && s.db.ledger[i] == row && forall k :: 0 <= k < |move.events| && move.events[k].Granted? ==> move.events[k].identity != i) ||
            (|move.events| == 1 && move.events[0].Settled? && move.events[0].identity == i && row.result.Some? && move.events[0].result == row.result)
  {
  }

  lemma TurnKeepsRecords(s: State, proc: Proc, c: Choice)
    requires ResultsOnRecord(s.db, s.log)
    ensures var move := TurnOf(s, proc, c); ResultsOnRecord(Do(s.db, move.op), s.log + move.events)
  {
    var move := TurnOf(s, proc, c);
    var db := Do(s.db, move.op);
    forall i | i in db.ledger && db.ledger[i].status.Completed?
      ensures db.ledger[i].result.Some? && OnRecord(s.log + move.events, i, db.ledger[i].result.value)
    {
      CompletedRowsOfTurn(s, proc, c, i);
      if i in s.db.ledger && s.db.ledger[i] == db.ledger[i] && forall k :: 0 <= k < |move.events| && move.events[k].Granted? ==> move.events[k].identity != i {
        RecordExtends(s.log, move.events, i, db.ledger[i].result.value);
      } else {
        assert move.events == [move.events[0]];
        SettlementIsRecord(s.log, move.events[0]);
      }
    }
  }

  lemma RecordsStay(s: State, step: Step)
    requires ResultsOnRecord(s.db, s.log)
    ensures ResultsOnRecord(Apply(s, step).db, Apply(s, step).log)
  {
    if step.Turn? && step.p in s.procs {
      TurnKeepsRecords(s, s.procs[step.p], step.choice);
    }
  }

  /** A turn that replays replays a stored result, and adds nothing else. */
  lemma ReplayOfTurn(s: State, p: nat, c: Choice, b: nat)
    requires p in s.procs && ResultsOnRecord(s.db, s.log) && HitIsStored(s, Turn(p, c))
    requires var events := TurnOf(s, s.procs[p], c).events; b < |events| && events[b].Answered? && events[b].answer.Replay?
    ensures var e := TurnOf(s, s.procs[p], c).events[b]; b == 0 && OnRecord(s.log, e.req.identity, e.answer.value)
  {
  }

  lemma ReplaysStayLatest(log: seq<Event>, added: seq<Event>)
    requires ReplaysLatest(log)
    requires forall b :: 0 <= b < |added| && added[b].Answered? && added[b].answer.Replay? ==>
               b == 0 && OnRecord(log, added[b].req.identity, added[b].answer.value)
    ensures ReplaysLatest(log + added)
  {
    var all, n := log + added, |log|;
    forall b | 0 <= b < |all| && all[b].Answered? && all[b].answer.Replay?
      ensures OnRecord(all[..b], all[b].req.identity, all[b].answer.value)
    {
      if b < n {
        assert all[b] == log[b] && all[..b] == log[..b];
      } else {
        assert all[b] == added[b - n] && all[..n] == log;
      }
    }
  }

  lemma StepKeepsReplaysLatest(s: State, step: Step)
    requires ResultsOnRecord(s.db, s.log) && ReplaysLatest(s.log) && HitIsStored(s, step)
    ensures ReplaysLatest(Apply(s, step).log)
  {
    C.LogGrowsByAdded(s, step);
    var added := C.Added(s, step);
    forall b | 0 <= b < |added| && added[b].Answered? && added[b].answer.Replay?
      ensures b == 0 && OnRecord(s.log, added[b].req.identity, added[b].answer.value)
    {
      ReplayOfTurn(s, step.p, step.choice, b);
    }
    ReplaysStayLatest(s.log, added);
  }

  lemma PromptHitIsStored(s: State, step: Step, ids: iset<Identity>)
    requires Inv(s, 1, ids)
    ensures HitIsStored(s, step)
  {
    OneTickLateShowsResults(s, ids);
    if Hits(s, step) {
      assert IdentityOf(s.procs[step.p]) in ids && CacheHit(s.cache, s.procs[step.p].req.identity, s.db.now);
    }
  }

  lemma {:induction false} RunKeepsReplaysLatest(s: State, steps: seq<Step>, ids: iset<Identity>)
    requires Inv(s, 1, ids) && UsesOnly(steps, ids) && PromptRun(s, steps, 1) && ResultsOnRecord(s.db, s.log) && ReplaysLatest(s.log)
    ensures ReplaysLatest(Run(s, steps).log)
    decreases |steps|
  {
    if steps != [] {
      PromptHitIsStored(s, steps[0], ids);
      StepKeepsInv(s, steps[0], 1, ids);
      RecordsStay(s, steps[0]);
      StepKeepsReplaysLatest(s, steps[0]);
      RunKeepsReplaysLatest(Apply(s, steps[0]), steps[1..], ids);
    }
  }

  /**
   * In every interleaving whose cache writes are at most one tick late, each
   * replay, from either store, is the result of the identity's latest claim.
   */
  lemma ReplaysAreLatestResults(lease: nat, steps: seq<Step>, ids: iset<Identity>)
    requires Apart(ids) && UsesOnly(steps, ids) && PromptRun(Initial(lease), steps, 1)
    ensures ReplaysLatest(Run(Initial(lease), steps).log)
  {
    RunKeepsReplaysLatest(Initial(lease), steps, ids);
  }

  lemma {:induction false} LedgerReplaysLatest(s: State, steps: seq<Step>)
    requires LedgerOnly(s, steps) && ResultsOnRecord(s.db, s.log) && ReplaysLatest(s.log)
    ensures ReplaysLatest(Run(s, steps).log)
    decreases |steps|
  {
    if steps != [] {
      RecordsStay(s, steps[0]);
      StepKeepsReplaysLatest(s, steps[0]);
      LedgerReplaysLatest(Apply(s, steps[0]), steps[1..]);
    }
  }

  // ----- two ticks late -----

  /** A cache write two or more ticks late outlives its row: the entry is live although the row has been purged. */
  lemma LateCacheWriteOutlivesRow(lease: nat, req: Request, value: Json, late: nat) returns (steps: seq<Step>, now: int)
    requires req.ttl > 0 && late >= 2
    ensures PromptRun(Initial(lease), steps, late) && UsesOnly(steps, iset{req.identity})
    ensures now < late + req.ttl
    ensures Run(Initial(lease), steps)
            == State(lease, Db(map[], 1, 1, now), map[BuildKey(req.identity) := CacheEntry(value, late + req.ttl)], map[],
                     CacheWriteDue(lease, req, value).log)
  {
    var s0 := Initial(lease);
    var wait: nat := if late >= req.ttl + 1 then 0 else req.ttl + 1 - late;
    now := late + wait;
    steps := WriteLate(lease, req, value, late);
    steps := Extend(s0, steps, Tick(wait), late);
    steps := Extend(s0, steps, Purge(req.ttl + 1), late);
    assert Run(s0, steps).db.ledger == map[];
  }

  /** A reserve call that cannot reach the cache claims the identity anew. */
  lemma ClaimBesideEntry(s0: State, steps: seq<Step>, req: Request, late: nat) returns (more: seq<Step>)
    requires PromptRun(s0, steps, late)
    requires var s := Run(s0, steps); req.identity !in s.db.ledger && s.procs == map[]
    ensures PromptRun(s0, more, late)
    ensures more == steps + [Reserve(2, req), Turn(2, Choice(Delivered, false)), Turn(2, Choice(Delivered, false))]
    ensures var s, t := Run(s0, steps), Run(s0, more);
            && t.cache == s.cache && t.procs == map[] && t.db.now == s.db.now
            && t.log == s.log + [Granted(req.identity, s.db.nextId, s.db.nextToken, s.db.now),
                                 Answered(req, Acquired(Reservation(req.identity, s.db.nextId, s.db.nextToken, 1)))]
  {
    var s, turn := Run(s0, steps), Turn(2, Choice(Delivered, false));
    more := Extend(s0, steps, Reserve(2, req), late);
    assert Run(s0, more).procs == map[2 := CacheGet(req, s.db.now)];
    more := Extend(s0, more, turn, late);
    assert Run(s0, more).procs == map[2 := Inserting(req, s.db.now, false)];
    more := Extend(s0, more, turn, late);
    assert Run(s0, more).procs == map[];
  }

  lemma ReplayFromEntry(s0: State, steps: seq<Step>, req: Request, late: nat) returns (more: seq<Step>)
    requires PromptRun(s0, steps, late)
    requires var s := Run(s0, steps); CacheHit(s.cache, req.identity, s.db.now) && s.procs == map[]
    ensures PromptRun(s0, more, late) && more == steps + [Reserve(3, req), Turn(3, Choice(Delivered, true))]
    ensures var s := Run(s0, steps);
            Run(s0, more).log == s.log + [Answered(req, Replay(s.cache[BuildKey(req.identity)].value))]
  {
    var s := Run(s0, steps);
    more := Extend(s0, steps, Reserve(3, req), late);
    assert Run(s0, more).procs == map[3 := CacheGet(req, s.db.now)];
    more := Extend(s0, more, Turn(3, Choice(Delivered, true)), late);
  }

  lemma StaleReplay(log: seq<Event>, i: Identity, b: nat, g: nat)
    requires g < b < |log| && log[b].Answered? && log[b].answer.Replay? && log[b].req.identity == i
    requires log[g].Granted? && log[g].identity == i
    requires forall c :: g < c < b ==> !log[c].Settled?
    ensures !ReplaysLatest(log)
  {
    assert log[..b][g] == log[g];
    assert forall c :: 0 <= c < b ==> log[..b][c] == log[c];
    assert !OnRecord(log[..b], i, log[b].answer.value);
  }

  /**
   * The bound is exact: for every cache write that lands two or more ticks late
   * there is a run that replays a purged result while a newer claim on the
   * identity is open, and no run in which the cache is never read has its answers.
   */
  lemma LateCacheWriteIsVisible(lease: nat, req: Request, value: Json, late: nat) returns (steps: seq<Step>)
    requires req.ttl > 0 && late >= 2
    ensures PromptRun(Initial(lease), steps, late) && UsesOnly(steps, iset{req.identity})
    ensures !ReplaysLatest(Run(Initial(lease), steps).log)
    ensures forall plain :: LedgerOnly(Initial(lease), plain) ==> Run(Initial(lease), plain).log != Run(Initial(lease), steps).log
  {
    var now;
    steps, now := LateCacheWriteOutlivesRow(lease, req, value, late);
    steps := ClaimBesideEntry(Initial(lease), steps, req, late);
    steps := ReplayFromEntry(Initial(lease), steps, req, late);
    var log := Run(Initial(lease), steps).log;
    assert |log| == 6 && log[3] == Granted(req.identity, 1, 1, now);
    StaleReplay(log, req.identity, 5, 3);
    forall plain | LedgerOnly(Initial(lease), plain)
      ensures Run(Initial(lease), plain).log != log
    {
      LedgerReplaysLatest(Initial(lease), plain);
    }
  }
}
