/**
 * Request hashes and the cache. The ledger answers KEY_MISMATCH to a request
 * whose hash is not the stored one; a cache hit does not look. The answers of a
 * run tell whether that ever mattered.
 */
module IdempotencyHashes {
  import opened Common
  import opened Idempotency
  import opened IdempotencyCache
  import R = IdempotencyReplays
  import C = IdempotencyClaims

  /** The identity's latest settlement. */
  ghost predicate Latest(log: seq<Event>, i: Identity, c: nat) {
    && c < |log| && log[c].Settled? && log[c].identity == i
    && forall k :: c < k < |log| && log[k].Settled? ==> log[k].identity != i
  }

  /** Where a replay's request and the latest settlement of its identity both carry a hash, the two are equal. */
  ghost predicate HashesKept(log: seq<Event>) {
    forall b, c: nat {:trigger Latest(log[..b], log[b].req.identity, c)} ::
      0 <= b < |log| && log[b].Answered? && log[b].answer.Replay? && Latest(log[..b], log[b].req.identity, c)
      ==> SameOrAbsent(log[c].hash, log[b].req.hash)
  }

  /** Two hashes that are both there, and not empty, are the same text. */
  predicate SameOrAbsent(a: Option<string>, b: Option<string>) {
    a == b || a in {None, Some("")} || b in {None, Some("")}
  }

  /** Every COMPLETED row stands as its identity's latest settlement left it. */
  ghost predicate HashOnRecord(log: seq<Event>, i: Identity, row: Row) {
    exists c: nat :: Latest(log, i, c) && log[c].hash == row.hash
  }

  ghost predicate HashesOnRecord(db: Db, log: seq<Event>) {
    forall i :: i in db.ledger && db.ledger[i].status.Completed? ==> HashOnRecord(log, i, db.ledger[i])
  }

  /** The step replays from the cache what the ledger would refuse as a key mismatch. */
  predicate Clashes(s: State, step: Step) {
    Hits(s, step) && OtherHash(s, s.procs[step.p].req)
  }

  lemma LatestExtends(log: seq<Event>, added: seq<Event>, i: Identity, c: nat)
    requires Latest(log, i, c) && forall k :: 0 <= k < |added| && added[k].Settled? ==> added[k].identity != i
    ensures Latest(log + added, i, c)
  {
    var all, n := log + added, |log|;
    assert forall k :: 0 <= k < |all| ==> if k < n then all[k] == log[k] else all[k] == added[k - n];
  }

  lemma LatestIsUnique(log: seq<Event>, i: Identity, c: nat, d: nat)
    requires Latest(log, i, c) && Latest(log, i, d)
    ensures c == d
  {
  }

  /** A row that is COMPLETED after a turn was so before, with no new settlement on it, or has just been settled. */
  lemma SettledRowsOfTurn(s: State, proc: Proc, c: Choice, i: Identity)
    requires var move := TurnOf(s, proc, c);
             i in Do(s.db, move.op).ledger && Do(s.db, move.op).ledger[i].status.Completed?
    ensures var move := TurnOf(s, proc, c);
            var row := Do(s.db, move.op).ledger[i];
            (i in s.db.ledger && s.db.ledger[i] == row && forall k :: 0 <= k < |move.events| && move.events[k].Settled? ==> move.events[k].identity != i) ||
            (|move.events| == 1 && move.events[0].Settled? && move.events[0].identity == i && move.events[0].hash == row.hash)
  {
  }

  lemma TurnKeepsHashes(s: State, proc: Proc, c: Choice)
    requires HashesOnRecord(s.db, s.log)
    ensures var move := TurnOf(s, proc, c); HashesOnRecord(Do(s.db, move.op), s.log + move.events)
  {
    var move := TurnOf(s, proc, c);
    var db, all := Do(s.db, move.op), s.log + move.events;
    forall i | i in db.ledger && db.ledger[i].status.Completed?
      ensures HashOnRecord(all, i, db.ledger[i])
    {
      SettledRowsOfTurn(s, proc, c, i);
      if i in s.db.ledger && s.db.ledger[i] == db.ledger[i] && forall k :: 0 <= k < |move.events| && move.events[k].Settled? ==> move.events[k].identity != i {
        assert HashOnRecord(s.log, i, db.ledger[i]);
        var c: nat :| Latest(s.log, i, c) && s.log[c].hash == db.ledger[i].hash;
        LatestExtends(s.log, move.events, i, c);
        assert all[c] == s.log[c];
      } else {
        assert all[|s.log|] == move.events[0];
        assert Latest(all, i, |s.log|);
      }
    }
  }

  lemma HashesStayOnRecord(s: State, step: Step)
    requires HashesOnRecord(s.db, s.log)
    ensures HashesOnRecord(Apply(s, step).db, Apply(s, step).log)
  {
    if step.Turn? && step.p in s.procs {
      TurnKeepsHashes(s, s.procs[step.p], step.choice);
    }
  }

  /** A turn that replays, without a clash, replays a row whose hash the request may have. */
  lemma ReplayedHash(s: State, p: nat, c: Choice, b: nat)
    requires p in s.procs && R.HitIsStored(s, Turn(p, c)) && !Clashes(s, Turn(p, c))
    requires var events := TurnOf(s, s.procs[p], c).events; b < |events| && events[b].Answered? && events[b].answer.Replay?
    ensures var e := TurnOf(s, s.procs[p], c).events[b];
            && b == 0 && e.req.identity in s.db.ledger && s.db.ledger[e.req.identity].status.Completed?
            && !HashesDiffer(s.db.ledger[e.req.identity].hash, e.req.hash)
  {
  }

  lemma KeptExtends(db: Db, log: seq<Event>, added: seq<Event>)
    requires HashesKept(log) && HashesOnRecord(db, log)
    requires forall b :: 0 <= b < |added| && added[b].Answered? && added[b].answer.Replay? ==>
               && b == 0 && added[b].req.identity in db.ledger && db.ledger[added[b].req.identity].status.Completed?
               && !HashesDiffer(db.ledger[added[b].req.identity].hash, added[b].req.hash)
    ensures HashesKept(log + added)
  {
    var all, n := log + added, |log|;
    forall b, c: nat | 0 <= b < |all| && all[b].Answered? && all[b].answer.Replay? && Latest(all[..b], all[b].req.identity, c)
      ensures !HashesDiffer(all[c].hash, all[b].req.hash)
    {
      if b < n {
        assert all[b] == log[b] && all[..b] == log[..b] && all[c] == log[c];
      } else {
        assert all[b] == added[b - n] && all[..n] == log;
        var i := all[b].req.identity;
        assert HashOnRecord(log, i, db.ledger[i]);
        var d: nat :| Latest(log, i, d) && log[d].hash == db.ledger[i].hash;
        LatestIsUnique(log, i, c, d);
      }
    }
  }

  lemma StepKeepsHashes(s: State, step: Step)
    requires HashesOnRecord(s.db, s.log) && HashesKept(s.log) && R.HitIsStored(s, step) && !Clashes(s, step)
    ensures HashesKept(Apply(s, step).log)
  {
    C.LogGrowsByAdded(s, step);
    var added := C.Added(s, step);
    forall b | 0 <= b < |added| && added[b].Answered? && added[b].answer.Replay?
      ensures && b == 0 && added[b].req.identity in s.db.ledger && s.db.ledger[added[b].req.identity].status.Completed?
              && !HashesDiffer(s.db.ledger[added[b].req.identity].hash, added[b].req.hash)
    {
      ReplayedHash(s, step.p, step.choice, b);
    }
    KeptExtends(s.db, s.log, added);
  }

  lemma {:induction false} LedgerKeepsHashes(s: State, steps: seq<Step>)
    requires LedgerOnly(s, steps) && HashesOnRecord(s.db, s.log) && HashesKept(s.log)
    ensures HashesKept(Run(s, steps).log)
    decreases |steps|
  {
    if steps != [] {
      HashesStayOnRecord(s, steps[0]);
      StepKeepsHashes(s, steps[0]);
      LedgerKeepsHashes(Apply(s, steps[0]), steps[1..]);
    }
  }

  /** A clash shows in the answers. */
  lemma ClashShows(s: State, step: Step)
    requires HashesOnRecord(s.db, s.log) && R.HitIsStored(s, step) && Clashes(s, step)
    ensures !HashesKept(Apply(s, step).log)
  {
    var req, n, log := s.procs[step.p].req, |s.log|, Apply(s, step).log;
    assert log[n] == Answered(req, Replay(s.cache[BuildKey(req.identity)].value)) && log[..n] == s.log;
    assert HashOnRecord(s.log, req.identity, s.db.ledger[req.identity]);
    var c: nat :| Latest(s.log, req.identity, c) && s.log[c].hash == s.db.ledger[req.identity].hash;
    assert Latest(log[..n], log[n].req.identity, c) && log[c] == s.log[c];
  }

  lemma BrokenStaysBroken(log: seq<Event>, added: seq<Event>)
    requires !HashesKept(log)
    ensures !HashesKept(log + added)
  {
    var all := log + added;
    var b, c: nat :| 0 <= b < |log| && log[b].Answered? && log[b].answer.Replay? && Latest(log[..b], log[b].req.identity, c) &&
      !SameOrAbsent(log[c].hash, log[b].req.hash);
    assert all[b] == log[b] && all[..b] == log[..b] && all[c] == log[c];
    assert Latest(all[..b], all[b].req.identity, c);
  }

  lemma {:induction false} BrokenForever(s: State, steps: seq<Step>)
    requires !HashesKept(s.log)
    ensures !HashesKept(Run(s, steps).log)
    decreases |steps|
  {
    if steps != [] {
      C.LogGrowsByAdded(s, steps[0]);
      BrokenStaysBroken(s.log, C.Added(s, steps[0]));
      BrokenForever(Apply(s, steps[0]), steps[1..]);
    }
  }

  lemma {:induction false} HashesTellClashes(s: State, steps: seq<Step>, ids: iset<Identity>)
    requires Inv(s, 1, ids) && UsesOnly(steps, ids) && PromptRun(s, steps, 1) && HashesOnRecord(s.db, s.log) && HashesKept(s.log)
    ensures HashesKept(Run(s, steps).log) <==> NoHashClash(s, steps)
    decreases |steps|
  {
    if steps != [] {
      var t := Apply(s, steps[0]);
      R.PromptHitIsStored(s, steps[0], ids);
      StepKeepsInv(s, steps[0], 1, ids);
      HashesStayOnRecord(s, steps[0]);
      if Clashes(s, steps[0]) {
        ClashShows(s, steps[0]);
        BrokenForever(t, steps[1..]);
      } else {
        StepKeepsHashes(s, steps[0]);
        HashesTellClashes(t, steps[1..], ids);
      }
    }
  }

  /**
   * The exact condition: a run whose cache writes are at most one tick late has
   * a cache-free run with its state and answers if and only if no hit meets a
   * row stored under another hash.
   */
  lemma CacheIsInvisibleExactly(lease: nat, steps: seq<Step>, ids: iset<Identity>)
    requires Apart(ids) && UsesOnly(steps, ids) && PromptRun(Initial(lease), steps, 1)
    ensures (exists plain :: LedgerOnly(Initial(lease), plain) && Run(Initial(lease), plain) == Run(Initial(lease), steps))
       <==> NoHashClash(Initial(lease), steps)
    ensures (exists plain :: LedgerOnly(Initial(lease), plain) && Run(Initial(lease), plain).log == Run(Initial(lease), steps).log)
       <==> NoHashClash(Initial(lease), steps)
  {
    var s0 := Initial(lease);
    HashesTellClashes(s0, steps, ids);
    if NoHashClash(s0, steps) {
      var plain := CacheIsInvisible(lease, steps, ids);
    }
    forall plain | LedgerOnly(s0, plain)
      ensures HashesKept(Run(s0, plain).log)
    {
      LedgerKeepsHashes(s0, plain);
    }
  }

  /** For any two requests on one identity under different hashes there is such a run, with every cache write in its own tick. */
  lemma HashClashIsVisible(lease: nat, req: Request, other: Request, value: Json) returns (steps: seq<Step>)
    requires req.ttl > 0 && other.identity == req.identity
    requires req.hash.Some? && req.hash.value != "" && other.hash.Some? && other.hash.value != "" && req.hash.value != other.hash.value
    ensures PromptRun(Initial(lease), steps, 0) && UsesOnly(steps, iset{req.identity})
    ensures Run(Initial(lease), steps).log == CacheWriteDue(lease, req, value).log + [Answered(other, Replay(value))]
    ensures forall plain :: LedgerOnly(Initial(lease), plain) ==> Run(Initial(lease), plain).log != Run(Initial(lease), steps).log
  {
    var s0 := Initial(lease);
    steps := WriteLate(lease, req, value, 0);
    steps := R.ReplayFromEntry(s0, steps, other, 0);
    var log := Run(s0, steps).log;
    assert log[3] == Answered(other, Replay(value)) && log[2] == log[..3][2];
    assert Latest(log[..3], log[3].req.identity, 2);
    forall plain | LedgerOnly(s0, plain)
      ensures Run(s0, plain).log != log
    {
      LedgerKeepsHashes(s0, plain);
    }
  }
}
