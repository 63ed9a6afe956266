/** The outbox statements row by row, on the columns, and the delay between attempts. */
module OutboxStatements {
  import opened Common
  import opened Outbox
  import R = OutboxRepository

  /** A row may be claimed if and only if it is PENDING, its retry time has come, and no claim on it is younger than the lease. */
  lemma DueMeans(t: Table, lease: nat, now: int, id: nat)
    ensures id in DueIds(t, now, now - lease) <==>
              id in t && t[id].status == Pending &&
              (t[id].nextRetryAt.Some? ==> t[id].nextRetryAt.value <= now) &&
              (t[id].claimedAt.Some? ==> t[id].claimedAt.value + lease <= now)
  {
  }

  /** A claim marks the picked rows with its token and time, one attempt more, and no other row. */
  lemma ClaimWrites(t: Table, ids: set<nat>, token: nat, at: int, k: nat)
    requires k in t
    ensures var after := ClaimRows(t, ids, token, at); var was := t[k];
            && after.Keys == t.Keys
            && after[k] == (if k in ids then Row(was.status, was.attempts + 1, Some(token), Some(at), was.nextRetryAt, was.publishedAt) else was)
  {
  }

  /** A publication settles exactly the PENDING row of that id under its token. */
  lemma PublishWrites(t: Table, id: nat, token: nat, now: int, k: nat)
    requires k in t
    ensures var after := MarkPublished(t, id, token, now); var was := t[k];
            && after.Keys == t.Keys
            && after[k] == (if k == id && was.status == Pending && was.token == Some(token)
                            then Row(Published, was.attempts, None, None, was.nextRetryAt, Some(now)) else was)
  {
  }

  /** A failure gives that row back, or parks it. */
  lemma FailWrites(t: Table, id: nat, token: nat, exhausted: bool, retry: Option<int>, k: nat)
    requires k in t
    ensures var after := MarkFailed(t, id, token, exhausted, retry); var was := t[k];
            && after.Keys == t.Keys
            && after[k] == (if k == id && was.status == Pending && was.token == Some(token)
                            then Row(if exhausted then DeadLetter else Pending, was.attempts, None, None, retry, was.publishedAt) else was)
  {
  }

  /** Retention removes exactly the published rows older than the cutoff. */
  lemma DeleteRemoves(t: Table, cutoff: int, k: nat)
    ensures var after := DeletePublishedBefore(t, cutoff);
            && (k in after <==> k in t && !(t[k].status == Published && t[k].publishedAt.Some? && t[k].publishedAt.value < cutoff))
            && (k in after ==> after[k] == t[k])
  {
  }

  /** The first retry waits for the base and every further one twice as long, up to the ceiling. */
  lemma DelayDoubles(cfg: Config, attempts: nat)
    ensures var first := if cfg.retryBase < cfg.retryMax then cfg.retryBase else cfg.retryMax;
            Delay(cfg, 0) == first && Delay(cfg, 1) == first
    ensures cfg.retryBase >= 0 && cfg.retryMax >= 0 && attempts >= 1 ==>
              Delay(cfg, attempts + 1) == if 2 * Delay(cfg, attempts) < cfg.retryMax then 2 * Delay(cfg, attempts) else cfg.retryMax
  {
    assert Pow2(0) == 1;
    if attempts >= 1 {
      var p := Pow2(attempts - 1);
      assert Pow2(attempts) == 2 * p;
      assert cfg.retryBase * Pow2(attempts) == 2 * (cfg.retryBase * p);
      assert cfg.retryBase >= 0 ==> cfg.retryBase * p >= 0;
    }
  }

  /** Where one message ends: published when the broker takes it, parked when it is refused beyond the ceiling, and put off otherwise. */
  lemma OutcomeMeans(cfg: Config, row: Row, accepted: bool, now: int)
    ensures var r := R.Outcome(cfg, row, accepted, now);
            && r.attempts == row.attempts && r.token == None && r.claimedAt == None
            && (r.status == Published <==> accepted)
            && (r.status == DeadLetter <==> !accepted && cfg.maxAttempts < row.attempts)
            && (r.status == Pending <==> !accepted && row.attempts <= cfg.maxAttempts)
            && (r.status == Pending ==> r.nextRetryAt == Some(now + Delay(cfg, row.attempts)))
            && (r.status != Pending ==> r.nextRetryAt == row.nextRetryAt)
            && r.publishedAt == (if accepted then Some(now) else row.publishedAt)
  {
  }
}
