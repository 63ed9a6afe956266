/** Exclusivity of idempotency claims, the end of overtaken reservations, and single results. */
module IdempotencyClaims {
  import opened Common
  import opened Idempotency

  ghost predicate SettledIn(log: seq<Event>, token: nat) {
    exists c :: 0 <= c < |log| && log[c].Settled? && log[c].token == token
  }

  /** The ledger row is still this claim's own, and outlives its lease. */
  ghost predicate Holds(db: Db, g: Event, lease: nat)
    requires g.Granted?
  {
    && g.identity in db.ledger && db.ledger[g.identity].status.InProgress?
    && db.ledger[g.identity].id == g.id && db.ledger[g.identity].token == g.token
    && db.ledger[g.identity].claimedAt == g.at && db.ledger[g.identity].expiresAt >= g.at + lease
  }

  /** A claim is settled, or still owns its row, or its lease is over. */
  ghost predicate ClaimOk(s: State, g: Event)
    requires g.Granted?
  {
    && g.token < s.db.nextToken && g.at <= s.db.now
    && (SettledIn(s.log, g.token) || Holds(s.db, g, s.lease) || s.db.now > g.at + s.lease)
  }

  ghost predicate ClaimsOk(s: State) {
    forall a :: 0 <= a < |s.log| && s.log[a].Granted? ==> ClaimOk(s, s.log[a])
  }

  predicate StartedBefore(proc: Proc, now: int) {
    (proc.CacheGet? || proc.Inserting? || proc.Inspecting? || proc.TakingOver?) ==> proc.start <= now
  }

  ghost predicate StartsOk(s: State) {
    forall p :: p in s.procs ==> StartedBefore(s.procs[p], s.db.now)
  }

  /**
   * No claim on an identity is written while an earlier one is unsettled and
   * inside its lease.
   */
  ghost predicate Exclusive(log: seq<Event>, lease: nat) {
    forall a, b :: 0 <= a < b < |log| && log[a].Granted? && log[b].Granted? && log[a].identity == log[b].identity
      ==> SettledIn(log[..b], log[a].token) || log[b].at > log[a].at + lease
  }

  /** What the step writes to the ledger. */
  function OpOf(s: State, step: Step): LedgerOp {
    match step
    case Turn(p, c) => if p in s.procs then TurnOf(s, s.procs[p], c).op else Keep
    case Purge(cutoff) => PurgeTo(cutoff)
    case _ => Keep
  }

  /** A claim is written early enough that the row outlives the lease it grants. */
  predicate Timely(s: State, step: Step) {
    var op := OpOf(s, step);
    op.Insert? || op.TakeOver? ==> op.expiresAt >= s.db.now + s.lease
  }

  predicate TimelyRun(s: State, steps: seq<Step>)
    decreases |steps|
  {
    steps == [] || (Timely(s, steps[0]) && TimelyRun(Apply(s, steps[0]), steps[1..]))
  }

  ghost predicate Inv(s: State) {
    DbOk(s.db) && StartsOk(s) && ClaimsOk(s) && Exclusive(s.log, s.lease)
  }

  lemma SettledInGrows(log: seq<Event>, more: seq<Event>, token: nat)
    requires SettledIn(log, token)
    ensures SettledIn(log + more, token)
  {
    var c :| 0 <= c < |log| && log[c].Settled? && log[c].token == token;
    assert (log + more)[c] == log[c];
  }

  lemma SettledByAppended(log: seq<Event>, e: Event)
    requires e.Settled?
    ensures SettledIn(log + [e], e.token)
  {
    assert (log + [e])[|log|] == e;
  }

  lemma StartsStay(s: State, step: Step)
    requires StartsOk(s)
    ensures StartsOk(Apply(s, step))
  {
  }

  /** An open claim keeps its row, or is settled, or has run out its lease, whatever the next write is. */
  lemma HeldClaimAfterWrite(s: State, step: Step, g: Event)
    requires DbOk(s.db) && StartsOk(s) && g.Granted? && Holds(s.db, g, s.lease)
    ensures var t := Apply(s, step);
            SettledIn(t.log, g.token) || Holds(t.db, g, s.lease) || t.db.now > g.at + s.lease
  {
    match step
    case Turn(p, c) =>
      if p in s.procs {
        var move := TurnOf(s, s.procs[p], c);
        if (move.op.StoreResult? || move.op.Release?) && move.op.r.identity == g.identity {
          assert |move.events| == 1;
          SettledByAppended(s.log, move.events[0]);
        } else if move.op.TakeOver? {
          assert StartedBefore(s.procs[p], s.db.now);
        }
      }
    case _ =>
  }

  lemma ClaimStaysOk(s: State, step: Step, g: Event)
    requires DbOk(s.db) && StartsOk(s) && g.Granted? && ClaimOk(s, g)
    ensures ClaimOk(Apply(s, step), g)
  {
    var t := Apply(s, step);
    ApplyEvolves(s, step);
    if SettledIn(s.log, g.token) {
      assert t.log == s.log + t.log[|s.log|..];
      SettledInGrows(s.log, t.log[|s.log|..], g.token);
    } else if Holds(s.db, g, s.lease) {
      HeldClaimAfterWrite(s, step, g);
    }
  }

  /** What a step adds to the history. */
  function Added(s: State, step: Step): seq<Event> {
    if step.Turn? && step.p in s.procs then TurnOf(s, s.procs[step.p], step.choice).events else []
  }

  lemma LogGrowsByAdded(s: State, step: Step)
    ensures Apply(s, step).log == s.log + Added(s, step)
    ensures forall a :: 1 <= a < |Added(s, step)| ==> !Added(s, step)[a].Granted?
  {
  }

  /** A fresh claim owns its row, and every earlier claim on the identity is settled or over. */
  lemma NewClaimIsAlone(s: State, step: Step, g: Event)
    requires Inv(s) && Timely(s, step)
    requires Added(s, step) != [] && Added(s, step)[0].Granted?
    ensures var n, t := Added(s, step)[0], Apply(s, step);
            && n.at == s.db.now && ClaimOk(t, n)
            && (g.Granted? && g.identity == n.identity && ClaimOk(s, g) ==> SettledIn(s.log, g.token) || n.at > g.at + s.lease)
  {
    assert StartedBefore(s.procs[step.p], s.db.now);
  }

  lemma ClaimsStayOk(s: State, step: Step)
    requires Inv(s) && Timely(s, step)
    ensures ClaimsOk(Apply(s, step))
  {
    var t, n := Apply(s, step), |s.log|;
    LogGrowsByAdded(s, step);
    forall a | 0 <= a < |t.log| && t.log[a].Granted?
      ensures ClaimOk(t, t.log[a])
    {
      if a < n {
        assert t.log[a] == s.log[a];
        ClaimStaysOk(s, step, s.log[a]);
      } else {
        assert t.log[a] == Added(s, step)[a - n];
        NewClaimIsAlone(s, step, t.log[a]);
      }
    }
  }

  lemma ExclusivityStays(s: State, step: Step)
    requires Inv(s) && Timely(s, step)
    ensures Exclusive(Apply(s, step).log, s.lease)
  {
    var t, n := Apply(s, step), |s.log|;
    LogGrowsByAdded(s, step);
    forall a, b | 0 <= a < b < |t.log| && t.log[a].Granted? && t.log[b].Granted? && t.log[a].identity == t.log[b].identity
      ensures SettledIn(t.log[..b], t.log[a].token) || t.log[b].at > t.log[a].at + s.lease
    {
      assert b >= n ==> t.log[b] == Added(s, step)[b - n];
      assert b <= n && a < n && t.log[a] == s.log[a];
      if b < n {
        assert t.log[..b] == s.log[..b] && t.log[b] == s.log[b];
      } else {
        assert t.log[..n] == s.log;
        NewClaimIsAlone(s, step, s.log[a]);
      }
    }
  }

  lemma {:induction false} RunKeepsInv(s: State, steps: seq<Step>)
    requires Inv(s) && TimelyRun(s, steps)
    ensures Inv(Run(s, steps))
    decreases |steps|
  {
    if steps != [] {
      ApplyEvolves(s, steps[0]);
      StartsStay(s, steps[0]);
      ClaimsStayOk(s, steps[0]);
      ExclusivityStays(s, steps[0]);
      RunKeepsInv(Apply(s, steps[0]), steps[1..]);
    }
  }

  /**
   * Claims, as they are written to the ledger, are exclusive in every
   * interleaving of reserve, complete, fail and purge in which each is written
   * before `ttl - lease` has passed since its reserve call read the clock.
   */
  lemma ClaimsAreExclusive(lease: nat, steps: seq<Step>)
    requires TimelyRun(Initial(lease), steps)
    ensures Exclusive(Run(Initial(lease), steps).log, lease)
  {
    RunKeepsInv(Initial(lease), steps);
    RunEvolves(Initial(lease), steps);
  }

  /** After a claim written `delay` after its reserve call read the clock. */
  function OneClaim(lease: nat, req: Request, delay: nat): State {
    State(lease,
          Db(map[req.identity := Row(0, InProgress, 0, 1, None, req.hash, delay, req.ttl)], 1, 1, delay), map[], map[],
          [Granted(req.identity, 0, 0, delay), Answered(req, Acquired(Reservation(req.identity, 0, 0, 1)))])
  }

  lemma ClaimOnce(lease: nat, req: Request, delay: nat) returns (steps: seq<Step>)
    ensures Run(Initial(lease), steps) == OneClaim(lease, req, delay)
  {
    var c, s0 := Choice(Delivered, true), Initial(lease);
    steps := RunOneMore(s0, [], Reserve(0, req));
    assert Run(s0, steps).procs == map[0 := CacheGet(req, 0)];
    steps := RunOneMore(s0, steps, Turn(0, c));
    assert Run(s0, steps).procs == map[0 := Inserting(req, 0, false)];
    steps := RunOneMore(s0, steps, Tick(delay));
    steps := RunOneMore(s0, steps, Turn(0, c));
    assert Run(s0, steps).procs == map[];
  }

  /** Once the row is past its expiry a purge removes it, and the next reserve claims the identity again. */
  lemma ClaimAgain(lease: nat, req: Request, delay: nat, wait: nat, s: State, steps: seq<Step>) returns (more: seq<Step>)
    requires s == Run(Initial(lease), steps) == OneClaim(lease, req, delay) && req.ttl < delay + wait
    ensures var log := Run(Initial(lease), more).log;
            |log| > 2 && log[..2] == s.log && log[2] == Granted(req.identity, 1, 1, delay + wait)
  {
    var c, s0 := Choice(Delivered, true), Initial(lease);
    more := RunOneMore(s0, steps, Tick(wait));
    more := RunOneMore(s0, more, Purge(delay + wait));
    assert Run(s0, more).db == Db(map[], 1, 1, delay + wait);
    more := RunOneMore(s0, more, Reserve(1, req));
    assert Run(s0, more).procs == map[1 := CacheGet(req, delay + wait)];
    more := RunOneMore(s0, more, Turn(1, c));
    assert Run(s0, more).procs == map[1 := Inserting(req, delay + wait, false)];
    more := RunOneMore(s0, more, Turn(1, c));
  }

  /**
   * The bound is exact: as soon as one claim is written later than that, a
   * purge and a second reserve can follow inside its lease. In particular
   * ttl >= lease alone is not enough.
   */
  lemma LateClaimBreaksExclusivity(lease: nat, ttl: nat, delay: nat, i: Identity) returns (steps: seq<Step>)
    requires ttl < delay + lease
    ensures !Exclusive(Run(Initial(lease), steps).log, lease)
  {
    var req := Request(i, None, ttl);
    var wait: nat := if ttl + 1 > delay then ttl + 1 - delay else 0;
    steps := ClaimOnce(lease, req, delay);
    var s := Run(Initial(lease), steps);
    steps := ClaimAgain(lease, req, delay, wait, s, steps);
    var log := Run(Initial(lease), steps).log;
    assert log[0] == log[..2][0] == s.log[0];
    assert !SettledIn(log[..2], 0);
  }

  lemma RunOneMore(s: State, steps: seq<Step>, step: Step) returns (more: seq<Step>)
    ensures more == steps + [step]
    ensures Run(s, more) == Apply(Run(s, steps), step)
  {
    RunAppend(s, steps, step);
    more := steps + [step];
  }

  // ----- overtaken reservations -----

  /** The token no longer names an open claim on its identity. */
  predicate Dead(db: Db, i: Identity, token: nat) {
    !(i in db.ledger && db.ledger[i].status.InProgress? && db.ledger[i].token == token)
  }

  /** A token that has lost its row never gets it back, so it can neither complete nor delete anything, ever. */
  lemma DeadForever(s: State, steps: seq<Step>, r: Reservation, value: Json)
    requires DbOk(s.db) && r.token < s.db.nextToken && Dead(s.db, r.identity, r.token)
    ensures var ledger := Run(s, steps).db.ledger;
            CompleteCas(ledger, r, value) == ledger && FailDeleteCas(ledger, r) == ledger
  {
    RunEvolves(s, steps);
    var db := Run(s, steps).db;
    assert Dead(db, r.identity, r.token);
  }

  /** A takeover kills the reservation it takes the row from. */
  lemma TakeoverKills(s: State, p: nat, c: Choice, steps: seq<Step>, r: Reservation, value: Json)
    requires DbOk(s.db) && p in s.procs && s.procs[p].TakingOver? && r.identity == s.procs[p].req.identity
    requires CanTakeOver(s.db.ledger, r.identity, s.procs[p].start - s.lease)
    requires s.db.ledger[r.identity].token == r.token
    ensures var ledger := Run(Apply(s, Turn(p, c)), steps).db.ledger;
            CompleteCas(ledger, r, value) == ledger && FailDeleteCas(ledger, r) == ledger
  {
    ApplyEvolves(s, Turn(p, c));
    DeadForever(Apply(s, Turn(p, c)), steps, r, value);
  }

  // ----- one settlement per row -----

  /** Every row that still carries the settled id shows the result it was settled with. */
  ghost predicate ShowsResult(db: Db, e: Event)
    requires e.Settled?
  {
    && e.id < db.nextId
    && forall i :: i in db.ledger && db.ledger[i].id == e.id ==>
         db.ledger[i].status.Completed? && db.ledger[i].result == e.result
  }

  ghost predicate SettledOnce(log: seq<Event>) {
    forall a, b :: 0 <= a < b < |log| && log[a].Settled? && log[b].Settled? ==> log[a].id != log[b].id
  }

  /** No row id is settled twice, and a settled id never names an open row again. */
  ghost predicate SettlementsOk(s: State) {
    && (forall a :: 0 <= a < |s.log| && s.log[a].Settled? ==> ShowsResult(s.db, s.log[a]))
    && SettledOnce(s.log)
  }

  ghost predicate IdsDistinct(db: Db) {
    forall i, j :: i in db.ledger && j in db.ledger && db.ledger[i].id == db.ledger[j].id ==> i == j
  }

  lemma IdsStayDistinct(db: Db, op: LedgerOp)
    requires DbOk(db) && IdsDistinct(db)
    ensures IdsDistinct(Do(db, op))
  {
  }

  lemma OldSettlementStays(db: Db, op: LedgerOp, e: Event)
    requires DbOk(db) && e.Settled? && ShowsResult(db, e)
    ensures ShowsResult(Do(db, op), e)
  {
    DoEvolves(db, op);
  }

  /** A settlement is only ever written for a row that was open, and closes or removes it. */
  lemma NewSettlement(s: State, step: Step, e: Event)
    requires IdsDistinct(s.db) && DbOk(s.db)
    requires e.Settled? && e in Added(s, step)
    ensures Added(s, step) == [e]
    ensures e.identity in s.db.ledger && s.db.ledger[e.identity].id == e.id && s.db.ledger[e.identity].status.InProgress?
    ensures ShowsResult(Do(s.db, OpOf(s, step)), e)
  {
  }

  lemma DbAfter(s: State, step: Step)
    ensures Apply(s, step).db == Do(s.db, OpOf(s, step)).(now := Apply(s, step).db.now)
  {
  }

  lemma ExtendSettlements(was: Db, db: Db, log: seq<Event>, added: seq<Event>)
    requires SettledOnce(log)
    requires forall a :: 0 <= a < |log| && log[a].Settled? ==> ShowsResult(was, log[a]) && ShowsResult(db, log[a])
    requires forall e :: e in added && e.Settled? ==>
               && added == [e] && ShowsResult(db, e)
               && e.identity in was.ledger && was.ledger[e.identity].id == e.id && was.ledger[e.identity].status.InProgress?
    ensures SettledOnce(log + added)
    ensures forall a :: 0 <= a < |log + added| && (log + added)[a].Settled? ==> ShowsResult(db, (log + added)[a])
  {
    var all, n := log + added, |log|;
    assert forall a :: n <= a < |all| && all[a].Settled? ==> all[a] in added && added == [all[a]];
    forall a, b | 0 <= a < b < |all| && all[a].Settled? && all[b].Settled?
      ensures all[a].id != all[b].id
    {
      assert a < n && all[a] == log[a];
      if b >= n {
        assert all[b] in added;
      }
    }
  }

  lemma SettlementsStayOk(s: State, step: Step)
    requires DbOk(s.db) && IdsDistinct(s.db) && SettlementsOk(s)
    ensures SettlementsOk(Apply(s, step))
  {
    var op := OpOf(s, step);
    LogGrowsByAdded(s, step);
    DbAfter(s, step);
    forall a | 0 <= a < |s.log| && s.log[a].Settled?
      ensures ShowsResult(Do(s.db, op), s.log[a])
    {
      OldSettlementStays(s.db, op, s.log[a]);
    }
    forall e | e in Added(s, step) && e.Settled?
      ensures Added(s, step) == [e] && ShowsResult(Do(s.db, op), e)
      ensures e.identity in s.db.ledger && s.db.ledger[e.identity].id == e.id && s.db.ledger[e.identity].status.InProgress?
    {
      NewSettlement(s, step, e);
    }
    ExtendSettlements(s.db, Do(s.db, op), s.log, Added(s, step));
  }

  lemma {:induction false} RunKeepsSettlementsOk(s: State, steps: seq<Step>)
    requires DbOk(s.db) && IdsDistinct(s.db) && SettlementsOk(s)
    ensures SettlementsOk(Run(s, steps))
    decreases |steps|
  {
    if steps != [] {
      ApplyEvolves(s, steps[0]);
      IdsStayDistinct(s.db, OpOf(s, steps[0]));
      SettlementsStayOk(s, steps[0]);
      RunKeepsSettlementsOk(Apply(s, steps[0]), steps[1..]);
    }
  }

  /** In every run each stored row is completed or released at most once, and shows the result it was completed with. */
  lemma OneSettlementPerRow(lease: nat, steps: seq<Step>)
    ensures SettlementsOk(Run(Initial(lease), steps))
  {
    RunKeepsSettlementsOk(Initial(lease), steps);
  }

  /** A stored result is never altered before its row is purged. */
  lemma StoredResultIsFinal(s: State, steps: seq<Step>, i: Identity)
    requires DbOk(s.db) && i in s.db.ledger && s.db.ledger[i].status.Completed?
    ensures var db := Run(s, steps).db;
            if i in db.ledger && db.ledger[i].id == s.db.ledger[i].id then db.ledger[i] == s.db.ledger[i]
            else s.db.ledger[i].expiresAt < db.now
  {
    RunEvolves(s, steps);
  }
}
