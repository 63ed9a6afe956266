/** The statements on ledger and cache row by row, on the columns. */
module IdempotencyStatements {
  import opened Common
  import opened Idempotency

  /** A claim adds the row of a free identity, and nothing otherwise. */
  lemma InsertWrites(ledger: Ledger, i: Identity, id: nat, token: nat, hash: Option<string>, expiresAt: int, now: int, j: Identity)
    ensures var after := InsertClaim(ledger, i, id, token, hash, expiresAt, now);
            && (j in after <==> j in ledger || j == i)
            && (j in ledger ==> after[j] == ledger[j])
            && (i !in ledger ==> after[i].id == id && after[i].status == InProgress && after[i].token == token && after[i].version == 1 &&
                                 after[i].result == None && after[i].hash == hash && after[i].claimedAt == now && after[i].expiresAt == expiresAt)
  {
  }

  /** A takeover moves the identity's row if and only if it is open under a claim from before the cutoff; id and hash stay. */
  lemma TakeoverWrites(ledger: Ledger, i: Identity, token: nat, cutoff: int, expiresAt: int, now: int, j: Identity)
    requires j in ledger
    ensures var after := TakeoverExpiredClaim(ledger, i, token, cutoff, expiresAt, now);
            var hit := j == i && ledger[j].status == InProgress && ledger[j].claimedAt < cutoff;
            && after.Keys == ledger.Keys
            && after[j] == (if hit then Row(ledger[j].id, InProgress, token, ledger[j].version + 1, None, ledger[j].hash, now, expiresAt) else ledger[j])
  {
  }

  /** A completion stores the result on exactly the open row of that id, token and version, which keeps its hash and expiry. */
  lemma CompleteWrites(ledger: Ledger, r: Reservation, value: Json, j: Identity)
    requires j in ledger
    ensures var after := CompleteCasById(ledger, r, value); var was := ledger[j];
            var hit := was.id == r.id && was.token == r.token && was.version == r.version && was.status == InProgress;
            && after.Keys == ledger.Keys
            && after[j] == (if hit then Row(was.id, Completed, was.token, was.version + 1, Some(value), was.hash, was.claimedAt, was.expiresAt) else was)
  {
  }

  /** A release deletes exactly that row. */
  lemma FailDeletes(ledger: Ledger, r: Reservation, j: Identity)
    ensures var after := FailDeleteCasById(ledger, r);
            && (j in after <==> j in ledger && !(ledger[j].id == r.id && ledger[j].token == r.token && ledger[j].version == r.version && ledger[j].status == InProgress))
            && (j in after ==> after[j] == ledger[j])
  {
  }

  /** A purge deletes exactly the rows whose expiry has passed. */
  lemma PurgeDeletes(ledger: Ledger, now: int, j: Identity)
    ensures var after := PurgeExpired(ledger, now);
            && (j in after <==> j in ledger && now <= ledger[j].expiresAt)
            && (j in after ==> after[j] == ledger[j])
  {
  }

  /** A settling process whose reservation still owns its row settles it, and goes on to the cache; any other is done. */
  lemma SettlingDecides(s: State, r: Reservation, value: Json, c: Choice)
    ensures var owns := r.identity in s.db.ledger && s.db.ledger[r.identity].status == InProgress && s.db.ledger[r.identity].id == r.id &&
                        s.db.ledger[r.identity].token == r.token && s.db.ledger[r.identity].version == r.version;
            && TurnOf(s, Completing(r, value), c).next == (if owns then Some(CompleteRead(r, value)) else None)
            && TurnOf(s, Completing(r, value), c).op == (if owns then StoreResult(r, value) else Keep)
            && TurnOf(s, Failing(r), c).next == (if owns then Some(Evicting(r.identity)) else None)
            && TurnOf(s, Failing(r), c).op == (if owns then Release(r) else Keep)
  {
  }

  /** A completion that has landed reads the expiry of its row, and writes what is left of it to the cache if anything is. */
  lemma CompletionGoesOn(s: State, r: Reservation, i: Identity, value: Json, expiresAt: int, c: Choice)
    ensures TurnOf(s, CompleteRead(r, value), c).next ==
              if r.identity in s.db.ledger && s.db.ledger[r.identity].id == r.id
              then Some(Caching(r.identity, value, s.db.ledger[r.identity].expiresAt)) else None
    ensures TurnOf(s, Caching(i, value, expiresAt), c).next ==
              if s.db.now < expiresAt then Some(CacheSetting(i, value, expiresAt - s.db.now, s.db.now)) else None
  {
  }

  /** What the cache commands of a process write, when the cache answers. */
  lemma CacheCommandsWrite(s: State, i: Identity, value: Json, ttl: int, at: int, c: Choice)
    ensures TurnOf(s, CacheSetting(i, value, ttl, at), c).cache
            == if c.cacheUp then s.cache[BuildKey(i) := CacheEntry(value, s.db.now + ttl)] else s.cache
    ensures TurnOf(s, Evicting(i), c).cache == if c.cacheUp then s.cache - {BuildKey(i)} else s.cache
  {
  }

  /** The key is the four parts joined by colons behind the prefix. */
  lemma KeyIsJoined(i: Identity)
    ensures BuildKey(i) == REDIS_PREFIX + ":" + i.tenant + ":" + i.company + ":" + i.scope + ":" + i.key
  {
    assert ":" + (i.tenant + ":" + (i.company + ":" + (i.scope + ":" + i.key))) == ":" + i.tenant + ":" + i.company + ":" + i.scope + ":" + i.key;
  }

  /** What a process that inspects the row it has found does next: the hash, the stored result, and the takeover, in that order. */
  lemma InspectionDecides(s: State, p: nat, req: Request, start: int, c: Choice)
    requires p in s.procs && s.procs[p] == Inspecting(req, start)
    ensures var t := Apply(s, Turn(p, c));
            && t.db == s.db && t.cache == s.cache
            && if req.identity !in s.db.ledger then t.log == s.log && t.procs == s.procs[p := Inserting(req, start, true)]
               else
                 var row := s.db.ledger[req.identity];
                 if row.hash.Some? && req.hash.Some? && row.hash.value != "" && req.hash.value != "" && row.hash.value != req.hash.value
                 then t.log == s.log + [Answered(req, KeyMismatch)] && t.procs == s.procs - {p}
                 else if row.status == Completed
                 then |t.log| == |s.log| + 1 && t.log[|s.log|].Answered? && t.log[|s.log|].answer == Replay(row.result.GetOr("null"))
                 else t.log == s.log && t.procs == s.procs[p := TakingOver(req, start)]
  {
  }
}
