/**
 * The ledger repository, the Redis cache adapter and the three use cases over
 * them, run by one caller at a time. Each method is tied to the statement
 * functions whose interleavings IdempotencyClaims and IdempotencyCache study.
 */
module IdempotencyRepository {
  import opened Common
  import opened Idempotency
  import opened IdempotencyCache

  /** The rows a settlement of the reservation lands on. */
  function Landing(ledger: Ledger, r: Reservation): set<Identity> {
    set i | i in ledger && Matches(ledger[i], r)
  }

  class PrismaIdempotencyRepository {
    var rows: Ledger
    var nextId: nat

    constructor ()
      ensures rows == map[] && nextId == 0
    {
      rows, nextId := map[], 0;
    }

    method FindByIdentity(i: Identity) returns (row: Option<Row>)
      ensures row == if i in rows then Some(rows[i]) else None
    {
      row := if i in rows then Some(rows[i]) else None;
    }

    /** None is a unique violation, or a call that failed, with or without its effect. */
    method InsertClaim(i: Identity, token: nat, expiresAt: int, hash: Option<string>, reply: Reply, now: int) returns (made: Option<Reservation>)
      modifies this
      ensures rows == if reply.Refused? then old(rows)
                      else Idempotency.InsertClaim(old(rows), i, old(nextId), token, hash, expiresAt, now)
      ensures nextId == if i in old(rows) || reply.Refused? then old(nextId) else old(nextId) + 1
      ensures made == if i !in old(rows) && reply.Delivered? then Some(Reservation(i, old(nextId), token, 1)) else None
    {
      made := None;
      if i in rows || reply.Refused? {
        return;
      }
      rows := rows[i := Row(nextId, InProgress, token, 1, None, hash, now, expiresAt)];
      made := if reply.Delivered? then Some(Reservation(i, nextId, token, 1)) else None;
      nextId := nextId + 1;
    }

    method TakeoverExpiredClaim(i: Identity, token: nat, cutoff: int, expiresAt: int, now: int) returns (taken: Option<Reservation>)
      modifies this`rows
      ensures rows == Idempotency.TakeoverExpiredClaim(old(rows), i, token, cutoff, expiresAt, now)
      ensures taken == if CanTakeOver(old(rows), i, cutoff) then Some(Reservation(i, rows[i].id, token, rows[i].version)) else None
    {
      taken := None;
      if i in rows && rows[i].status.InProgress? && rows[i].claimedAt < cutoff {
        var row := rows[i];
        rows := rows[i := row.(token := token, result := None, expiresAt := expiresAt, claimedAt := now, version := row.version + 1)];
        taken := Some(Reservation(i, rows[i].id, token, rows[i].version));
      }
    }

    /** Finds the row by its id; answers its expiry when the CAS landed. */
    method CompleteCas(r: Reservation, value: Json) returns (expiresAt: Option<int>)
      modifies this`rows
      ensures rows == CompleteCasById(old(rows), r, value)
      ensures expiresAt.Some? <==> Landing(old(rows), r) != {}
      ensures expiresAt.Some? ==> exists i :: i in Landing(old(rows), r) && expiresAt.value == old(rows)[i].expiresAt
    {
      var found := set i | i in rows && rows[i].id == r.id && rows[i].token == r.token && rows[i].version == r.version && rows[i].status.InProgress?;
      assert found == Landing(rows, r);
      if found == {} {
        expiresAt := None;
      } else {
        var i :| i in found;
        expiresAt := Some(rows[i].expiresAt);
      }
      rows := map i | i in rows ::
        if i in found then rows[i].(status := Completed, result := Some(value), version := rows[i].version + 1) else rows[i];
    }

    method FailDeleteCas(r: Reservation) returns (deleted: bool)
      modifies this`rows
      ensures rows == FailDeleteCasById(old(rows), r)
      ensures deleted == (Landing(old(rows), r) != {})
    {
      var found := set i | i in rows && rows[i].id == r.id && rows[i].token == r.token && rows[i].version == r.version && rows[i].status.InProgress?;
      assert found == Landing(rows, r);
      deleted := found != {};
      rows := rows - found;
    }

    method PurgeExpired(now: int) returns (count: nat)
      modifies this`rows
      ensures rows == Idempotency.PurgeExpired(old(rows), now)
      ensures count == |old(rows).Keys| - |rows.Keys|
    {
      var keep := map i | i in rows && rows[i].expiresAt >= now :: rows[i];
      SubsetSize(keep.Keys, rows.Keys);
      count := |rows.Keys| - |keep.Keys|;
      rows := keep;
    }
  }

  class RedisIdempotencyCache {
    var entries: Cache

    constructor ()
      ensures entries == map[]
    {
      entries := map[];
    }

    /** An expired key, an unreachable server and a missing key look the same. */
    method Get(key: string, up: bool, now: int) returns (value: Option<Json>)
      ensures value == if up && key in entries && now < entries[key].expiresAt then Some(entries[key].value) else None
    {
      value := if up && key in entries && entries[key].expiresAt > now then Some(entries[key].value) else None;
    }

    method Set(key: string, value: Json, ttl: int, up: bool, now: int)
      modifies this
      ensures entries == if up && ttl > 0 then old(entries)[key := CacheEntry(value, now + ttl)] else old(entries)
    {
      if ttl <= 0 || !up {
        return;
      }
      entries := entries[key := CacheEntry(value, now + ttl)];
    }

    method Delete(key: string, up: bool)
      modifies this
      ensures entries == if up then old(entries) - {key} else old(entries)
    {
      if up {
        entries := entries - {key};
      }
    }
  }

  /** The two stores as one value. */
  datatype Stores = Stores(ledger: Ledger, cache: Cache)

  ghost function BackFilled(cache: Cache, i: Identity, value: Json, expiresAt: int, up: bool, now: int): Cache {
    if up && now < expiresAt then cache[BuildKey(i) := CacheEntry(value, expiresAt)] else cache
  }

  /** What a reserve call does once it has found a row: the hash, the stored result and the lease decide in that order. */
  ghost function InspectAlone(was: Stores, lease: nat, req: Request, token: nat, up: bool, now: int): (Stores, Answer)
    requires req.identity in was.ledger
  {
    var i := req.identity;
    var row := was.ledger[i];
    if HashesDiffer(row.hash, req.hash) then (was, KeyMismatch)
    else if row.status.Completed? then
      (was.(cache := BackFilled(was.cache, i, row.result.GetOr("null"), row.expiresAt, up, now)),
       Replay(row.result.GetOr("null")))
    else
      (was.(ledger := Idempotency.TakeoverExpiredClaim(was.ledger, i, token, now - lease, now + req.ttl, now)),
       if row.claimedAt + lease < now then Acquired(Reservation(i, row.id, token, row.version + 1)) else Busy)
  }

  /**
   * The answer about a row that is there: KEY_MISMATCH if and only if row and
   * request carry different hashes, then the stored result of a completed row, then the row
   * itself if its claim is older than the lease, and otherwise BUSY.
   */
  ghost predicate Decided(row: Row, lease: nat, req: Request, token: nat, now: int, answer: Answer) {
    var different := row.hash.Some? && req.hash.Some? && row.hash.value != "" && req.hash.value != "" && row.hash.value != req.hash.value;
    && (answer.KeyMismatch? <==> different)
    && (answer.Replay? <==> !different && row.status == Completed)
    && (answer.Replay? && row.result.Some? ==> answer.value == row.result.value)
    && (answer.Acquired? <==> !different && row.status == InProgress && row.claimedAt < now - lease)
    && (answer.Acquired? ==> answer.reservation == Reservation(req.identity, row.id, token, row.version + 1))
    && (answer.Busy? <==> !different && row.status == InProgress && now - lease <= row.claimedAt)
  }

  /**
   * What a reserve call does when nothing runs beside it: the cache, the
   * insert and the inspection decide in that order. A first insert that fails leads to the inspection, which finds no row if it
   * had no effect, and the call's own live claim if it did; a second one that
   * fails is raised to the caller.
   */
  ghost function ReserveAlone(was: Stores, id: nat, lease: nat, req: Request, token: nat, up: bool, first: Reply, second: Reply, now: int)
    : (Stores, Option<Answer>)
  {
    var i := req.identity;
    if up && CacheHit(was.cache, i, now) then (was, Some(Replay(was.cache[BuildKey(i)].value)))
    else if i !in was.ledger then
      var claimed := was.(ledger := Idempotency.InsertClaim(was.ledger, i, id, token, req.hash, now + req.ttl, now));
      var acquired := Some(Acquired(Reservation(i, id, token, 1)));
      match first
      case Delivered => (claimed, acquired)
      case AckLost => (claimed, Some(Busy))
      case Refused =>
        (match second case Delivered => (claimed, acquired) case AckLost => (claimed, None) case Refused => (was, None))
    else
      var (stores, answer) := InspectAlone(was, lease, req, token, up, now);
      (stores, Some(answer))
  }

  /** From s to t one reserve call has come and gone, and has done just that. */
  ghost predicate ReservedAlone(s: State, t: State, req: Request, up: bool, first: Reply, second: Reply) {
    var (stores, answer) :=
      ReserveAlone(Stores(s.db.ledger, s.cache), s.db.nextId, s.lease, req, s.db.nextToken, up, first, second, s.db.now);
    && Stores(t.db.ledger, t.cache) == stores && t.procs == s.procs
    && (if answer.Some? then s.log < t.log && t.log[|t.log| - 1] == Answered(req, answer.value) else t.log == s.log)
  }

  /** Two turns into a call that the cache or the insert answers, it is done. */
  lemma AnsweredAtOnce(s: State, p: nat, req: Request, up: bool, first: Reply, second: Reply)
    requires p !in s.procs
    requires (up && CacheHit(s.cache, req.identity, s.db.now)) || (req.identity !in s.db.ledger && first.Delivered?)
    ensures var turn := Turn(p, Choice(first, up));
            var s2 := Apply(Apply(Apply(s, Reserve(p, req)), turn), turn);
            p !in s2.procs && ReservedAlone(s, s2, req, up, first, second)
  {
    var turn := Turn(p, Choice(first, up));
    var s1 := Apply(Apply(s, Reserve(p, req)), turn);
    assert s1.procs == if up && CacheHit(s.cache, req.identity, s.db.now) then s.procs
                       else s.procs[p := Inserting(req, s.db.now, false)];
    assert Apply(s1, turn).procs == s.procs;
  }

  /** What the ledger is when the first insert has failed. */
  function AfterFirstInsert(s: State, req: Request, first: Reply): State {
    if req.identity in s.db.ledger || first.Refused? then s
    else s.(db := Do(s.db, Insert(req.identity, req.hash, s.db.now + req.ttl)))
  }

  /** Two turns into any other call, it stands before the inspection. */
  lemma InspectsNext(s: State, p: nat, req: Request, up: bool, first: Reply)
    requires p !in s.procs && !(up && CacheHit(s.cache, req.identity, s.db.now))
    requires req.identity in s.db.ledger || !first.Delivered?
    ensures var turn := Turn(p, Choice(first, up));
            Apply(Apply(Apply(s, Reserve(p, req)), turn), turn)
            == AfterFirstInsert(s, req, first).(procs := s.procs[p := Inspecting(req, s.db.now)])
  {
    var turn := Turn(p, Choice(first, up));
    var s1 := Apply(Apply(s, Reserve(p, req)), turn);
    assert s1.procs == s.procs[p := Inserting(req, s.db.now, false)];
    assert Apply(s1, turn).procs == s.procs[p := Inspecting(req, s.db.now)];
  }

  lemma Idle(s: State, p: nat, c: Choice)
    requires p !in s.procs
    ensures Apply(s, Turn(p, c)) == s
  {
  }

  /** Five uninterrupted turns of a reserve process are the sequential reserve. */
  lemma MachineReservesAlone(s: State, p: nat, req: Request, up: bool, first: Reply, second: Reply)
    requires p !in s.procs
    ensures var turn, next := Turn(p, Choice(first, up)), Turn(p, Choice(second, up));
            ReservedAlone(s, Apply(Apply(Apply(Apply(Apply(Apply(s, Reserve(p, req)), turn), turn), next), next), next),
                          req, up, first, second)
  {
    var turn, i := Turn(p, Choice(first, up)), req.identity;
    var s2 := Apply(Apply(Apply(s, Reserve(p, req)), turn), turn);
    if (up && CacheHit(s.cache, i, s.db.now)) || (i !in s.db.ledger && first.Delivered?) {
      AnsweredAtOnce(s, p, req, up, first, second);
      Idle(s2, p, Choice(second, up));
    } else {
      InspectsNext(s, p, req, up, first);
      FromInspection(s, s2, p, req, up, first, second);
    }
  }

  lemma FromInspection(s: State, s2: State, p: nat, req: Request, up: bool, first: Reply, second: Reply)
    requires p !in s.procs && !(up && CacheHit(s.cache, req.identity, s.db.now))
    requires req.identity in s.db.ledger || !first.Delivered?
    requires s2 == AfterFirstInsert(s, req, first).(procs := s.procs[p := Inspecting(req, s.db.now)])
    ensures var next := Turn(p, Choice(second, up));
            ReservedAlone(s, Apply(Apply(Apply(s2, next), next), next), req, up, first, second)
  {
    if req.identity in s.db.ledger || first.AckLost? {
      ReserveKnownKey(AfterFirstInsert(s, req, first), s2, p, req, up, second);
    } else {
      ReserveAgain(s, s2, p, req, up, second);
    }
  }

  /** The first insert failed without effect: the second one decides. */
  lemma ReserveAgain(s: State, s2: State, p: nat, req: Request, up: bool, second: Reply)
    requires p !in s.procs && req.identity !in s.db.ledger && !(up && CacheHit(s.cache, req.identity, s.db.now))
    requires s2 == s.(procs := s.procs[p := Inspecting(req, s.db.now)])
    ensures var next := Turn(p, Choice(second, up));
            ReservedAlone(s, Apply(Apply(Apply(s2, next), next), next), req, up, Refused, second)
  {
    var next := Turn(p, Choice(second, up));
    var s3 := Apply(s2, next);
    assert s3 == s.(procs := s.procs[p := Inserting(req, s.db.now, true)]);
    assert Apply(s3, next).procs == s.procs;
  }

  ghost predicate InspectedAlone(s: State, t: State, req: Request, up: bool)
    requires req.identity in s.db.ledger
  {
    var (stores, answer) := InspectAlone(Stores(s.db.ledger, s.cache), s.lease, req, s.db.nextToken, up, s.db.now);
    && Stores(t.db.ledger, t.cache) == stores && t.procs == s.procs
    && s.log < t.log && t.log[|t.log| - 1] == Answered(req, answer)
  }

  /** The last three turns, once the insert has found the row. */
  lemma ReserveKnownKey(s: State, s2: State, p: nat, req: Request, up: bool, reply: Reply)
    requires p !in s.procs && req.identity in s.db.ledger
    requires s2 == s.(procs := s.procs[p := Inspecting(req, s.db.now)])
    ensures var turn := Turn(p, Choice(reply, up));
            InspectedAlone(s, Apply(Apply(Apply(s2, turn), turn), turn), req, up)
  {
    var turn, row := Turn(p, Choice(reply, up)), s.db.ledger[req.identity];
    var s3 := Apply(s2, turn);
    if HashesDiffer(row.hash, req.hash) {
      assert s3.procs == s.procs;
    } else if row.status.Completed? {
      assert s3.procs == s.procs[p := Caching(req.identity, row.result.GetOr("null"), row.expiresAt)];
      ReplayStoredResult(s, s3, p, req, up, reply);
    } else {
      assert s3.procs == s.procs[p := TakingOver(req, s.db.now)];
      TakeOverOrBusy(s, s3, p, req, up, reply);
    }
  }

  lemma ReplayStoredResult(s: State, s3: State, p: nat, req: Request, up: bool, reply: Reply)
    requires p !in s.procs && req.identity in s.db.ledger
    requires var row := s.db.ledger[req.identity];
             && row.status.Completed? && !(HashesDiffer(row.hash, req.hash))
             && s3 == s.(procs := s.procs[p := Caching(req.identity, row.result.GetOr("null"), row.expiresAt)],
                         log := s.log + [Answered(req, Replay(row.result.GetOr("null")))])
    ensures var turn := Turn(p, Choice(reply, up)); InspectedAlone(s, Apply(Apply(s3, turn), turn), req, up)
  {
    var row, s4 := s.db.ledger[req.identity], Apply(s3, Turn(p, Choice(reply, up)));
    assert s4.procs == if row.expiresAt - s.db.now > 0
                       then s.procs[p := CacheSetting(req.identity, row.result.GetOr("null"), row.expiresAt - s.db.now, s.db.now)]
                       else s.procs;
  }

  lemma TakeOverOrBusy(s: State, s3: State, p: nat, req: Request, up: bool, reply: Reply)
    requires p !in s.procs && req.identity in s.db.ledger
    requires var row := s.db.ledger[req.identity];
             row.status.InProgress? && !(HashesDiffer(row.hash, req.hash))
    requires s3 == s.(procs := s.procs[p := TakingOver(req, s.db.now)])
    ensures var turn := Turn(p, Choice(reply, up)); InspectedAlone(s, Apply(Apply(s3, turn), turn), req, up)
  {
    var s4 := Apply(s3, Turn(p, Choice(reply, up)));
    assert s4.procs == if CanTakeOver(s.db.ledger, req.identity, s.db.now - s.lease)
                       then s.procs[p := TookOver(req, s.db.nextToken, s.db.now)] else s.procs;
  }

  class IdempotencyUseCases {
    const repository: PrismaIdempotencyRepository
    const cache: RedisIdempotencyCache
    const lease: nat

    constructor (repository: PrismaIdempotencyRepository, cache: RedisIdempotencyCache, lease: nat)
      ensures this.repository == repository && this.cache == cache && this.lease == lease
    {
      this.repository, this.cache, this.lease := repository, cache, lease;
    }

    ghost function Both(): Stores
      reads this, repository, cache
    {
      Stores(repository.rows, cache.entries)
    }

    /**
     * Cache, insert, inspect, take over, in that order. The first statement
     * that answers decides.
     */
    method Reserve(req: Request, token: nat, up: bool, first: Reply, second: Reply, now: int) returns (answer: Option<Answer>)
      modifies repository, cache
      ensures (Both(), answer) == ReserveAlone(old(Both()), old(repository.nextId), lease, req, token, up, first, second, now)
      ensures req.identity in old(repository.rows) && !(up && CacheHit(old(cache.entries), req.identity, now)) ==>
                answer.Some? && Decided(old(repository.rows)[req.identity], lease, req, token, now, answer.value)
      ensures old(repository.nextId) <= repository.nextId
    {
      var i := req.identity;
      var cached := cache.Get(BuildKey(i), up, now);
      if cached.Some? {
        return Some(Replay(cached.value));
      }
      var inserted := repository.InsertClaim(i, token, now + req.ttl, req.hash, first, now);
      if inserted.Some? {
        return Some(Acquired(inserted.value));
      }
      var existing := repository.FindByIdentity(i);
      if existing.None? {
        inserted := repository.InsertClaim(i, token, now + req.ttl, req.hash, second, now);
        return if inserted.Some? then Some(Acquired(inserted.value)) else None;
      }
      var found := Inspect(req, existing.value, token, up, now);
      answer := Some(found);
    }

    /** Same key: mismatch, replay with back-fill, takeover or busy. */
    method Inspect(req: Request, row: Row, token: nat, up: bool, now: int) returns (answer: Answer)
      requires req.identity in repository.rows && repository.rows[req.identity] == row
      modifies repository, cache
      ensures (Both(), answer) == InspectAlone(old(Both()), lease, req, token, up, now)
      ensures Decided(row, lease, req, token, now, answer)
      ensures repository.nextId == old(repository.nextId)
    {
      var i := req.identity;
      if HashesDiffer(row.hash, req.hash) {
        return KeyMismatch;
      }
      if row.status.Completed? {
        var remaining := row.expiresAt - now;
        if remaining > 0 {
          cache.Set(BuildKey(i), row.result.GetOr("null"), remaining, up, now);
        }
        return Replay(row.result.GetOr("null"));
      }
      var taken := repository.TakeoverExpiredClaim(i, token, now - lease, now + req.ttl, now);
      answer := if taken.Some? then Acquired(taken.value) else Busy;
    }

    /** The ledger row, and then its mirror, or neither when ownership was lost. */
    method Complete(r: Reservation, value: Json, up: bool, now: int)
      modifies repository, cache
      ensures repository.rows == CompleteCasById(old(repository.rows), r, value)
      ensures var was, landing := old(Both()), Landing(old(repository.rows), r);
              if landing == {} then cache.entries == was.cache
              else exists i :: i in landing &&
                     cache.entries == BackFilled(was.cache, r.identity, value, was.ledger[i].expiresAt, up, now)
      ensures repository.nextId == old(repository.nextId)
    {
      var expiresAt := repository.CompleteCas(r, value);
      if expiresAt.Some? {
        var ttl := expiresAt.value - now;
        if ttl > 0 {
          cache.Set(BuildKey(r.identity), value, ttl, up, now);
        }
      }
    }

    method Fail(r: Reservation, up: bool)
      modifies repository, cache
      ensures repository.rows == FailDeleteCasById(old(repository.rows), r)
      ensures cache.entries == if Landing(old(repository.rows), r) != {} && up then old(cache.entries) - {BuildKey(r.identity)}
                               else old(cache.entries)
      ensures repository.nextId == old(repository.nextId)
    {
      var deleted := repository.FailDeleteCas(r);
      if deleted {
        cache.Delete(BuildKey(r.identity), up);
      }
    }
  }
}
