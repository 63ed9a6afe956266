/** How often an outbox event may fail, what one claim may settle, and that a waiting event can always still be published. */
module OutboxHistory {
  import opened Common
  import opened Outbox

  /** Failures of the event that landed and left it PENDING. */
  function Failures(log: seq<Event>, id: nat): nat
    decreases |log|
  {
    if log == [] then 0
    else Failures(log[..|log| - 1], id) +
         (var e := log[|log| - 1]; if e.Settled? && e.id == id && e.status.Pending? then 1 else 0)
  }

  lemma FailuresOfOneMore(log: seq<Event>, e: Event, id: nat)
    ensures Failures(log + [e], id) == Failures(log, id) + if e.Settled? && e.id == id && e.status.Pending? then 1 else 0
  {
    assert (log + [e])[..|log|] == log;
  }

  /** Each landed failure used up a claim of its own, and none landed beyond the ceiling. */
  ghost predicate FailuresOk(s: State, id: nat) {
    && Failures(s.log, id) <= s.cfg.maxAttempts
    && (id in s.db.table ==>
          Failures(s.log, id) + (if s.db.table[id].token.Some? then 1 else 0) <= s.db.table[id].attempts)
    && (id >= s.db.nextId ==> Failures(s.log, id) == 0)
  }

  lemma FailureOfAStep(s: State, step: Step, id: nat)
    ensures Failures(Apply(s, step).log, id)
            == Failures(s.log, id) +
               (var op := WriteOf(s, step); if op.Fail? && op.id == id && !op.exhausted && Owned(s.db.table, id, op.token) then 1 else 0)
  {
    AddedIsShort(s, step);
    if Added(s, step) == [] {
      assert Apply(s, step).log == s.log;
    } else {
      FailuresOfOneMore(s.log, Added(s, step)[0], id);
    }
  }

  lemma FailuresStayOk(s: State, step: Step, id: nat)
    requires Inv(s) && FailuresOk(s, id)
    ensures FailuresOk(Apply(s, step), id)
  {
    var op := WriteOf(s, step);
    FailureOfAStep(s, step, id);
    if op.Fail? {
      assert ProcOk(s, s.procs[step.p]);
    }
  }

  lemma {:induction false} RunKeepsFailuresOk(s: State, steps: seq<Step>, id: nat)
    requires Inv(s) && FailuresOk(s, id)
    ensures FailuresOk(Run(s, steps), id) && Run(s, steps).cfg == s.cfg
    decreases |steps|
  {
    if steps != [] {
      RunKeepsInv(s, [steps[0]]);
      assert Run(s, [steps[0]]) == Run(Apply(s, steps[0]), []);
      FailuresStayOk(s, steps[0], id);
      RunKeepsFailuresOk(Apply(s, steps[0]), steps[1..], id);
    }
  }

  /** In every run at most maxAttempts failures of an event are accepted before the one that parks it. */
  lemma AtMostMaxAttemptsFailures(cfg: Config, steps: seq<Step>, id: nat)
    ensures Failures(Run(Initial(cfg), steps).log, id) <= cfg.maxAttempts
  {
    RunKeepsFailuresOk(Initial(cfg), steps, id);
  }

  // ----- one settlement per claim -----

  /** The claim has been settled and its token is gone from the row for good. */
  ghost predicate Spent(db: Db, e: Event)
    requires e.Settled?
  {
    && e.token < db.nextToken && !Owned(db.table, e.id, e.token) && e.id < db.nextId
    && (!e.status.Pending? && e.id in db.table ==> db.table[e.id].status == e.status && db.table[e.id].token.None?)
  }

  ghost predicate SettlementsOk(db: Db, log: seq<Event>) {
    && (forall a :: 0 <= a < |log| && log[a].Settled? ==> Spent(db, log[a]))
    && (forall a, b :: 0 <= a < b < |log| && log[a].Settled? && log[b].Settled? && log[a].id == log[b].id
          ==> log[a].token != log[b].token && log[a].status.Pending?)
  }

  lemma SpentLasts(cfg: Config, db: Db, op: Op, e: Event)
    requires IdsOk(db) && e.Settled? && Spent(db, e)
    ensures Spent(Do(cfg, db, op), e)
  {
  }

  lemma SettlementsStayOk(s: State, step: Step)
    requires IdsOk(s.db) && SettlementsOk(s.db, s.log)
    ensures SettlementsOk(Apply(s, step).db, Apply(s, step).log)
  {
    var t, n := Apply(s, step), |s.log|;
    var db := Do(s.cfg, s.db, WriteOf(s, step));
    AddedIsShort(s, step);
    forall a | 0 <= a < |t.log| && t.log[a].Settled?
      ensures Spent(db, t.log[a])
      ensures a >= n ==> a == n && Owned(s.db.table, t.log[a].id, t.log[a].token)
    {
      if a < n {
        assert t.log[a] == s.log[a];
        SpentLasts(s.cfg, s.db, WriteOf(s, step), s.log[a]);
      } else {
        assert t.log[a] == Added(s, step)[0];
      }
    }
    assert forall a :: 0 <= a < n ==> t.log[a] == s.log[a];
    assert forall a :: 0 <= a < |t.log| && t.log[a].Settled? ==> Spent(t.db, t.log[a]);
  }

  lemma {:induction false} RunKeepsSettlementsOk(s: State, steps: seq<Step>)
    requires IdsOk(s.db) && SettlementsOk(s.db, s.log)
    ensures SettlementsOk(Run(s, steps).db, Run(s, steps).log)
    decreases |steps|
  {
    if steps != [] {
      IdsStayOk(s.cfg, s.db, WriteOf(s, steps[0]));
      SettlementsStayOk(s, steps[0]);
      RunKeepsSettlementsOk(Apply(s, steps[0]), steps[1..]);
    }
  }

  /**
   * In every run each claim of an event is settled at most once, and nothing
   * settles after the settlement that publishes or parks the event.
   */
  lemma OneSettlementPerClaim(cfg: Config, steps: seq<Step>)
    ensures SettlementsOk(Run(Initial(cfg), steps).db, Run(Initial(cfg), steps).log)
  {
    RunKeepsSettlementsOk(Initial(cfg), steps);
  }

  // ----- leases -----

  ghost predicate Leased(t: Table, id: nat, token: nat, claimedAt: int) {
    Owned(t, id, token) && t[id].claimedAt == Some(claimedAt)
  }

  ghost predicate SettledIn(log: seq<Event>, id: nat, token: nat) {
    exists e :: e in log && e.Settled? && e.id == id && e.token == token
  }

  lemma LeaseAfterStep(s: State, step: Step, id: nat, token: nat, claimedAt: int)
    requires IdsOk(s.db) && Leased(s.db.table, id, token, claimedAt)
    ensures var t := Apply(s, step);
            Leased(t.db.table, id, token, claimedAt) || SettledIn(t.log, id, token) || t.db.now >= claimedAt + s.cfg.lease
  {
    var op := WriteOf(s, step);
    if (op.Publish? || op.Fail?) && op.id == id && op.token == token {
      var e := Note(s.db, op)[0];
      assert e in Added(s, step);
      assert e in Apply(s, step).log;
    }
  }

  lemma {:induction false} SettledInStays(s: State, steps: seq<Step>, id: nat, token: nat)
    requires SettledIn(s.log, id, token)
    ensures SettledIn(Run(s, steps).log, id, token)
    decreases |steps|
  {
    if steps != [] {
      var e :| e in s.log && e.Settled? && e.id == id && e.token == token;
      assert e in Apply(s, steps[0]).log;
      SettledInStays(Apply(s, steps[0]), steps[1..], id, token);
    }
  }

  lemma {:induction false} ClockAndConfig(s: State, steps: seq<Step>)
    ensures s.db.now <= Run(s, steps).db.now && Run(s, steps).cfg == s.cfg
    decreases |steps|
  {
    if steps != [] {
      ClockAndConfig(Apply(s, steps[0]), steps[1..]);
    }
  }

  /**
   * Competing dispatchers respect a lease: a claimed event stays with its claim
   * until that claim settles it or the lease is over.
   */
  lemma {:induction false} LeaseIsHonoured(s: State, steps: seq<Step>, id: nat, token: nat, claimedAt: int)
    requires IdsOk(s.db) && Leased(s.db.table, id, token, claimedAt)
    ensures var t := Run(s, steps);
            Leased(t.db.table, id, token, claimedAt) || SettledIn(t.log, id, token) || t.db.now >= claimedAt + s.cfg.lease
    decreases |steps|
  {
    if steps != [] {
      var t := Apply(s, steps[0]);
      IdsStayOk(s.cfg, s.db, WriteOf(s, steps[0]));
      LeaseAfterStep(s, steps[0], id, token, claimedAt);
      if Leased(t.db.table, id, token, claimedAt) {
        LeaseIsHonoured(t, steps[1..], id, token, claimedAt);
      } else if SettledIn(t.log, id, token) {
        SettledInStays(t, steps[1..], id, token);
      } else {
        ClockAndConfig(t, steps[1..]);
      }
    }
  }

  // ----- progress -----

  /** From which clock reading on a claim may take the row. */
  function DueFrom(row: Row, lease: nat): int {
    Max(row.nextRetryAt.GetOr(0), if row.claimedAt.Some? then row.claimedAt.value + lease else 0)
  }

  lemma RunOneMore(s: State, steps: seq<Step>, step: Step) returns (more: seq<Step>)
    ensures more == steps + [step] && Run(s, more) == Apply(Run(s, steps), step)
  {
    more := steps + [step];
    RunAppend(s, steps, step);
  }

  lemma {:induction false} RunAppend(s: State, steps: seq<Step>, step: Step)
    ensures Run(s, steps + [step]) == Apply(Run(s, steps), step)
    decreases |steps|
  {
    if steps == [] {
      assert [step][1..] == [];
      assert Run(s, [step]) == Run(Apply(s, step), []);
    } else {
      RunAppend(Apply(s, steps[0]), steps[1..], step);
      assert (steps + [step])[1..] == steps[1..] + [step];
    }
  }

  lemma OneMessage(t: Table, id: nat)
    requires id in t
    ensures ClaimedMessages(t, [id], {id}) == [Message(id, t[id].attempts + 1)]
  {
    assert [id][1..] == [];
    assert ClaimedMessages(t, [id], {id}) == [Message(id, t[id].attempts + 1)] + ClaimedMessages(t, [], {id});
  }

  /** The dispatcher that leases this one row. */
  lemma WaitAndClaim(s: State, id: nat, p: nat) returns (steps: seq<Step>)
    requires IdsOk(s.db) && id in s.db.table && s.db.table[id].status.Pending? && p !in s.procs
    ensures var t := Run(s, steps);
            && Owned(t.db.table, id, s.db.nextToken) && t.log == s.log
            && p in t.procs && t.procs[p].token == s.db.nextToken
            && |t.procs[p].queue| == 1 && t.procs[p].queue[0].id == id && t.procs[p].phase.Sending?
  {
    var row := s.db.table[id];
    var wait: nat := Max(0, DueFrom(row, s.cfg.lease) - s.db.now);
    steps := [];
    assert Run(s, steps) == s;
    steps := RunOneMore(s, steps, Tick(wait));
    var s1 := Run(s, steps);
    assert s1.db == s.db.(now := s.db.now + wait) && s1.procs == s.procs;
    assert id in DueIds(s1.db.table, s1.db.now, s1.db.now - s1.cfg.lease);
    assert IdSet([id]) == {id};
    assert Picked(s1.cfg, s1.db, IdSet([id]), s1.db.now) == {id};
    OneMessage(s1.db.table, id);
    steps := RunOneMore(s, steps, Dispatch(p, [id], s1.db.now));
  }

  /**
   * From every reachable state, whoever crashed or still holds a lease, an
   * event that is PENDING can still be handed to the broker and PUBLISHED.
   */
  lemma PendingCanBePublished(s: State, id: nat, p: nat) returns (steps: seq<Step>)
    requires IdsOk(s.db) && id in s.db.table && s.db.table[id].status.Pending? && p !in s.procs
    ensures var t := Run(s, steps);
            id in t.db.table && t.db.table[id].status.Published? && WasAccepted(t.log, id)
  {
    steps := WaitAndClaim(s, id, p);
    var s2 := Run(s, steps);
    steps := RunOneMore(s, steps, Turn(p, Took));
    var s3 := Run(s, steps);
    assert s3.log == s2.log + [Accepted(id)];
    assert s3.db == s2.db && s3.procs[p] == s2.procs[p].(phase := Sent);
    steps := RunOneMore(s, steps, Turn(p, Took));
    assert s3.log <= Run(s, steps).log;
  }
}
