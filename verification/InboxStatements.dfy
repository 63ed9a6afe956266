/** The inbox statements row by row, on the columns, and the delay between attempts. */
module InboxStatements {
  import opened Common
  import opened Inbox

  /** An insert adds the row of a first claim under a free identity, and nothing otherwise. */
  lemma InsertWrites(t: Table, i: Identity, id: nat, token: nat, at: int, j: Identity)
    ensures var after := InsertIfAbsent(t, i, id, token, at);
            && (j in after <==> j in t || j == i)
            && (j in t ==> after[j] == t[j])
            && (i !in t ==> after[i].id == id && after[i].status == InProgress && after[i].attempts == 1 && after[i].token == token &&
                            after[i].claimedAt == Some(at) && after[i].processedAt == None && after[i].nextAttemptAt == None)
  {
  }

  /** A reclaim moves the named row if and only if it is open under the former token; one attempt more, a new claim, no waiting time. */
  lemma ReclaimWrites(t: Table, i: Identity, id: nat, previous: nat, token: nat, now: int, j: Identity)
    requires j in t
    ensures var after := Reclaim(t, i, id, previous, token, now); var hit := j == i && t[j].id == id && t[j].token == previous && t[j].status == InProgress;
            && after.Keys == t.Keys
            && after[j] == (if hit then Row(t[j].id, InProgress, t[j].attempts + 1, token, Some(now), t[j].processedAt, None) else t[j])
  {
  }

  /** A completion closes exactly the open row of that id and token. */
  lemma CompleteWrites(t: Table, id: nat, token: nat, now: int, j: Identity)
    requires j in t
    ensures var after := Complete(t, id, token, now); var hit := t[j].id == id && t[j].token == token && t[j].status == InProgress;
            && after.Keys == t.Keys
            && after[j] == (if hit then Row(id, Processed, t[j].attempts, token, None, Some(now), None) else t[j])
  {
  }

  /** A failure gives the claim up and leaves the row open, for one delay. */
  lemma FailWrites(t: Table, id: nat, token: nat, cfg: Config, now: int, j: Identity)
    requires j in t
    ensures var after := Fail(t, id, token, cfg, now); var hit := t[j].id == id && t[j].token == token && t[j].status == InProgress;
            && after.Keys == t.Keys
            && after[j] == (if hit then Row(id, InProgress, t[j].attempts, token, None, t[j].processedAt, Some(now + Backoff(cfg, t[j].attempts)))
                            else t[j])
  {
  }

  /** The sweep touches a row if and only if it is open under a claim older than the lease, and parks it if and only if its attempts exceed the ceiling. */
  lemma SweepWrites(t: Table, cfg: Config, now: int, j: Identity)
    requires j in t
    ensures var after := BackOffExpired(ParkExpired(t, cfg, now), cfg, now);
            var hit := t[j].status == InProgress && t[j].claimedAt.Some? && t[j].claimedAt.value < now - cfg.lease;
            && after.Keys == t.Keys
            && after[j] == (if !hit then t[j]
                            else if t[j].attempts > cfg.maxAttempts
                            then Row(t[j].id, Suspended, t[j].attempts, t[j].token, None, t[j].processedAt, t[j].nextAttemptAt)
                            else Row(t[j].id, InProgress, t[j].attempts, t[j].token, None, t[j].processedAt, Some(now + Backoff(cfg, t[j].attempts))))
  {
  }

  /** Retention removes exactly the processed rows older than the cutoff. */
  lemma DeleteRemoves(t: Table, cutoff: int, j: Identity)
    ensures var after := DeleteProcessedBefore(t, cutoff);
            && (j in after <==> j in t && !(t[j].status == Processed && t[j].processedAt.Some? && t[j].processedAt.value < cutoff))
            && (j in after ==> after[j] == t[j])
  {
  }

  /** The first attempts wait for the base, and every further one twice as long, up to the ceiling; the base itself is never cut. */
  lemma BackoffDoubles(cfg: Config, attempts: nat)
    ensures var base := if cfg.retryBase > 0 then cfg.retryBase else 0;
            var ceiling := if cfg.retryMax > base then cfg.retryMax else base;
            && Backoff(cfg, 0) == Backoff(cfg, 1) == base
            && (attempts >= 1 ==>
                  Backoff(cfg, attempts + 1) == if 2 * Backoff(cfg, attempts) < ceiling then 2 * Backoff(cfg, attempts) else ceiling)
  {
    assert Pow2(0) == 1;
    if attempts >= 1 {
      var base, p := Max(cfg.retryBase, 0), Pow2(attempts - 1);
      assert Pow2(attempts) == 2 * p;
      assert base * Pow2(attempts) == 2 * (base * p);
      assert base * p >= 0 && Max(cfg.retryMax, base) >= 0;
    }
  }

  // ----- the answers -----

  /** What a receive does about the row it finds: processed means DUPLICATE, and only open, unclaimed and due means on to the reclaim. */
  lemma FoundRowDecides(s: State, p: nat, i: Identity, start: int)
    requires p in s.procs && s.procs[p] == Finding(i, start)
    ensures var t := Apply(s, Turn(p));
            && t.db == s.db
            && if i !in s.db.table then t.procs == s.procs - {p} && t.log == s.log + [Refused(i, None, Busy)]
               else
                 var row := s.db.table[i];
                 if row.status == Processed then t.procs == s.procs - {p} && t.log == s.log + [Refused(i, Some(row.id), Duplicate)]
                 else if row.status == Suspended || (row.claimedAt.Some? && start < row.claimedAt.value + s.cfg.lease) ||
                         (row.nextAttemptAt.Some? && start < row.nextAttemptAt.value)
                 then t.procs == s.procs - {p} && t.log == s.log + [Refused(i, Some(row.id), Busy)]
                 else t.procs == s.procs[p := Reclaiming(i, row, start)] && t.log == s.log
  {
  }

  /** Some claim of the row has completed it. */
  ghost predicate CompletedIn(log: seq<Event>, id: nat) {
    exists c :: 0 <= c < |log| && log[c].Settled? && log[c].id == id && log[c].done
  }

  ghost predicate ProcessedWereCompleted(t: Table, log: seq<Event>) {
    forall i :: i in t && t[i].status == Processed ==> CompletedIn(log, t[i].id)
  }

  ghost predicate DuplicatesWereCompleted(log: seq<Event>) {
    forall b :: 0 <= b < |log| && log[b].Refused? && log[b].verdict.Duplicate? ==>
      log[b].found.Some? && CompletedIn(log[..b], log[b].found.value)
  }

  lemma CompletedInGrows(log: seq<Event>, more: seq<Event>, id: nat)
    requires CompletedIn(log, id)
    ensures CompletedIn(log + more, id)
  {
    var c :| 0 <= c < |log| && log[c].Settled? && log[c].id == id && log[c].done;
    assert (log + more)[c] == log[c];
  }

  lemma NewlyProcessed(cfg: Config, db: Db, op: Op, i: Identity)
    requires i in Do(cfg, db, op).table && Do(cfg, db, op).table[i].status == Processed
    ensures var row := Do(cfg, db, op).table[i];
            (i in db.table && db.table[i] == row) || (op.MarkDone? && Note(db, op) == [Settled(row.id, op.token, true)])
  {
    if op.MarkDone? && i in db.table && Owned(db.table[i], op.id, op.token) {
      assert Lands(db.table, op.id, op.token);
    }
  }

  lemma CompletionsStayOnRecord(s: State, step: Step)
    requires ProcessedWereCompleted(s.db.table, s.log)
    ensures ProcessedWereCompleted(Apply(s, step).db.table, Apply(s, step).log)
  {
    var op, t := WriteOf(s, step), Apply(s, step);
    forall i | i in t.db.table && t.db.table[i].status == Processed
      ensures CompletedIn(t.log, t.db.table[i].id)
    {
      NewlyProcessed(s.cfg, s.db, op, i);
      if i in s.db.table && s.db.table[i] == t.db.table[i] {
        CompletedInGrows(s.log, Note(s.db, op), t.db.table[i].id);
      } else {
        assert t.log[|s.log|] == Settled(t.db.table[i].id, op.token, true);
      }
    }
  }

  lemma DuplicateFindsCompleted(s: State, step: Step, e: Event)
    requires e in Note(s.db, WriteOf(s, step)) && e.Refused? && e.verdict.Duplicate?
    ensures Note(s.db, WriteOf(s, step)) == [e] && e.found.Some?
    ensures exists i :: i in s.db.table && s.db.table[i].id == e.found.value && s.db.table[i].status == Processed
  {
    assert step.Turn? && s.procs[step.p].Finding?;
  }

  lemma DuplicatesStayCompleted(s: State, step: Step)
    requires ProcessedWereCompleted(s.db.table, s.log) && DuplicatesWereCompleted(s.log)
    ensures DuplicatesWereCompleted(Apply(s, step).log)
  {
    var t, n := Apply(s, step), |s.log|;
    forall b | 0 <= b < |t.log| && t.log[b].Refused? && t.log[b].verdict.Duplicate?
      ensures t.log[b].found.Some? && CompletedIn(t.log[..b], t.log[b].found.value)
    {
      if b < n {
        assert t.log[b] == s.log[b] && t.log[..b] == s.log[..b];
      } else {
        assert t.log[b] == Note(s.db, WriteOf(s, step))[b - n];
        DuplicateFindsCompleted(s, step, t.log[b]);
        assert b == n && t.log[..n] == s.log;
      }
    }
  }

  lemma {:induction false} RunKeepsCompletions(s: State, steps: seq<Step>)
    requires ProcessedWereCompleted(s.db.table, s.log) && DuplicatesWereCompleted(s.log)
    ensures DuplicatesWereCompleted(Run(s, steps).log)
    decreases |steps|
  {
    if steps != [] {
      CompletionsStayOnRecord(s, steps[0]);
      DuplicatesStayCompleted(s, steps[0]);
      RunKeepsCompletions(Apply(s, steps[0]), steps[1..]);
    }
  }

  /** In every run DUPLICATE is answered only about a row that some claim had completed before. */
  lemma DuplicateMeansCompleted(cfg: Config, steps: seq<Step>)
    ensures DuplicatesWereCompleted(Run(Initial(cfg), steps).log)
  {
    RunKeepsCompletions(Initial(cfg), steps);
  }
}
