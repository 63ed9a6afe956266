/**
 * The inbox repository and the receive use case over it, run by one consumer
 * at a time. Each method is tied to the statement functions whose
 * interleavings Inbox studies.
 */
module InboxRepository {
  import opened Common
  import opened Inbox

  function Poison(t: Table, cfg: Config, now: int): set<Identity> {
    set i | i in t && Expired(t[i], now - cfg.lease) && t[i].attempts > cfg.maxAttempts
  }

  function Rest(t: Table, cfg: Config, now: int): set<Identity> {
    set i | i in t && Expired(t[i], now - cfg.lease) && t[i].attempts <= cfg.maxAttempts
  }

  function ExpiredRows(t: Table, cfg: Config, now: int): set<Identity> {
    set i | i in t && Expired(t[i], now - cfg.lease)
  }

  lemma ParkingLeavesTheRest(t: Table, cfg: Config, now: int)
    ensures Rest(ParkExpired(t, cfg, now), cfg, now) == Rest(t, cfg, now)
  {
  }

  lemma PoisonAndRestAreTheExpired(t: Table, cfg: Config, now: int)
    ensures |Poison(t, cfg, now)| + |Rest(ParkExpired(t, cfg, now), cfg, now)| == |ExpiredRows(t, cfg, now)|
  {
    ParkingLeavesTheRest(t, cfg, now);
    DisjointUnionSize(Poison(t, cfg, now), Rest(t, cfg, now));
    assert Poison(t, cfg, now) + Rest(t, cfg, now) == ExpiredRows(t, cfg, now);
  }

  class PrismaInboxRepository {
    var rows: Table
    var nextId: nat

    constructor ()
      ensures rows == map[] && nextId == 0
    {
      rows, nextId := map[], 0;
    }

    method InsertIfAbsent(i: Identity, token: nat, claimedAt: int) returns (id: Option<nat>)
      modifies this
      ensures rows == Inbox.InsertIfAbsent(old(rows), i, old(nextId), token, claimedAt)
      ensures id == if i in old(rows) then None else Some(old(nextId))
      ensures nextId == if i in old(rows) then old(nextId) else old(nextId) + 1
    {
      if i in rows {
        return None;
      }
      rows := rows[i := Row(nextId, InProgress, 1, token, Some(claimedAt), None, None)];
      id := Some(nextId);
      nextId := nextId + 1;
    }

    method FindUnique(i: Identity) returns (row: Option<Row>)
      ensures row == if i in rows then Some(rows[i]) else None
    {
      row := if i in rows then Some(rows[i]) else None;
    }

    method Reclaim(i: Identity, id: nat, previous: nat, token: nat, now: int) returns (won: bool)
      modifies this`rows
      ensures rows == Inbox.Reclaim(old(rows), i, id, previous, token, now)
      ensures won == CanReclaim(old(rows), i, id, previous)
    {
      won := i in rows && rows[i].id == id && rows[i].token == previous && rows[i].status.InProgress?;
      if won {
        var row := rows[i];
        rows := rows[i := row.(token := token, claimedAt := Some(now), nextAttemptAt := None, attempts := row.attempts + 1)];
      }
    }

    method Complete(id: nat, token: nat, now: int) returns (landed: bool)
      modifies this`rows
      ensures rows == Inbox.Complete(old(rows), id, token, now)
      ensures landed == Lands(old(rows), id, token)
    {
      var owned := set i | i in rows && rows[i].id == id && rows[i].token == token && rows[i].status.InProgress?;
      landed := owned != {};
      assert forall i :: i in owned <==> i in rows && Owned(rows[i], id, token);
      rows := map i | i in rows ::
        if i in owned then rows[i].(status := Processed, processedAt := Some(now), claimedAt := None, nextAttemptAt := None)
        else rows[i];
    }

    method Fail(id: nat, token: nat, cfg: Config, now: int) returns (landed: bool)
      modifies this`rows
      ensures rows == Inbox.Fail(old(rows), id, token, cfg, now)
      ensures landed == Lands(old(rows), id, token)
    {
      var floor := Max(cfg.retryBase, 0);
      var ceiling := Max(cfg.retryMax, floor);
      var owned := set i | i in rows && rows[i].id == id && rows[i].token == token && rows[i].status.InProgress?;
      landed := owned != {};
      rows := map i | i in rows ::
        if i in owned
        then rows[i].(claimedAt := None, nextAttemptAt := Some(now + Min(floor * Pow2(Max(rows[i].attempts - 1, 0)), ceiling)))
        else rows[i];
    }

    method ParkPoison(cfg: Config, now: int) returns (count: nat)
      modifies this`rows
      ensures rows == ParkExpired(old(rows), cfg, now)
      ensures count == |Poison(old(rows), cfg, now)|
    {
      var cutoff := now - cfg.lease;
      var poison := set i | i in rows && Expired(rows[i], cutoff) && rows[i].attempts > cfg.maxAttempts;
      rows := map i | i in rows :: if i in poison then rows[i].(status := Suspended, claimedAt := None) else rows[i];
      count := |poison|;
    }

    method BackOffRest(cfg: Config, now: int) returns (count: nat)
      modifies this`rows
      ensures rows == BackOffExpired(old(rows), cfg, now)
      ensures count == |Rest(old(rows), cfg, now)|
    {
      var cutoff := now - cfg.lease;
      var rest := set i | i in rows && Expired(rows[i], cutoff) && rows[i].attempts <= cfg.maxAttempts;
      rows := map i | i in rows ::
        if i in rest then rows[i].(claimedAt := None, nextAttemptAt := Some(now + Backoff(cfg, rows[i].attempts))) else rows[i];
      count := |rest|;
    }

    /** Two statements, one after the other; each expired row is touched by exactly one of them. */
    method ReconcileExpiredClaims(cfg: Config, now: int) returns (touched: nat)
      modifies this`rows
      ensures rows == BackOffExpired(ParkExpired(old(rows), cfg, now), cfg, now)
      ensures touched == |ExpiredRows(old(rows), cfg, now)|
    {
      PoisonAndRestAreTheExpired(rows, cfg, now);
      var suspended := ParkPoison(cfg, now);
      var backoffed := BackOffRest(cfg, now);
      touched := suspended + backoffed;
    }

    method DeleteProcessedOlderThan(retention: nat, now: int) returns (count: nat)
      modifies this`rows
      ensures rows == DeleteProcessedBefore(old(rows), now - retention)
      ensures rows.Keys <= old(rows).Keys && count == |old(rows).Keys - rows.Keys|
    {
      var cutoff := now - retention;
      var gone := set i | i in rows && rows[i].status.Processed? && rows[i].processedAt.Some? && rows[i].processedAt.value < cutoff;
      count := |gone|;
      assert rows.Keys - DeleteProcessedBefore(rows, cutoff).Keys == gone;
      rows := map i | i in rows && !(rows[i].status.Processed? && rows[i].processedAt.Some? && rows[i].processedAt.value < cutoff) :: rows[i];
    }
  }

  datatype Answer = Acquired(id: nat, token: nat) | AlreadyDone | Occupied

  /**
   * What a receive does when nothing runs beside it: a first delivery is
   * acquired; a later one exactly when the row is open, outside any lease and
   * due, and then counts one attempt more.
   */
  function ReceiveAlone(t: Table, cfg: Config, i: Identity, id: nat, token: nat, now: int): (Table, Answer) {
    if i !in t then (Inbox.InsertIfAbsent(t, i, id, token, now), Acquired(id, token))
    else
      match Judge(cfg, t[i], now)
      case MayReclaim => (Inbox.Reclaim(t, i, t[i].id, t[i].token, token, now), Acquired(t[i].id, token))
      case Duplicate => (t, AlreadyDone)
      case Busy => (t, Occupied)
  }

  /** What a receive leaves in the history: its claim, or the answer that refuses it. */
  function Recorded(s: State, i: Identity, answer: Answer): Event {
    match answer
    case Acquired(id, token) => Granted(i, id, token, s.db.now, s.db.now)
    case AlreadyDone => Refused(i, if i in s.db.table then Some(s.db.table[i].id) else None, Duplicate)
    case Occupied => Refused(i, if i in s.db.table then Some(s.db.table[i].id) else None, Busy)
  }

  /** Four uninterrupted turns of a receive process do just that, and record the claim or the answer. */
  lemma MachineReceivesAlone(s: State, p: nat, i: Identity)
    requires p !in s.procs
    ensures var t := Apply(Apply(Apply(Apply(Apply(s, Receive(p, i)), Turn(p)), Turn(p)), Turn(p)), Turn(p));
            var (table, answer) := ReceiveAlone(s.db.table, s.cfg, i, s.db.nextId, s.db.nextToken, s.db.now);
            && t.db.table == table && t.procs == s.procs
            && t.log == s.log + [Recorded(s, i, answer)]
  {
    var s0 := Apply(s, Receive(p, i));
    assert s0.procs == s.procs[p := Inserting(i, s.db.now)];
    var s1 := Apply(s0, Turn(p));
    if i in s.db.table {
      assert s1 == s.(procs := s.procs[p := Finding(i, s.db.now)]);
      FoundAlone(s, s1, p, i);
    } else {
      assert s1.procs == s.procs[p := Answering(i, s.db.nextId, s.db.nextToken, s.db.now)];
      assert Apply(s1, Turn(p)).procs == s.procs;
    }
  }

  lemma FoundAlone(s: State, s1: State, p: nat, i: Identity)
    requires p !in s.procs && i in s.db.table && s1 == s.(procs := s.procs[p := Finding(i, s.db.now)])
    ensures var t := Apply(Apply(Apply(s1, Turn(p)), Turn(p)), Turn(p));
            var (table, answer) := ReceiveAlone(s.db.table, s.cfg, i, s.db.nextId, s.db.nextToken, s.db.now);
            && t.db.table == table && t.procs == s.procs
            && t.log == s.log + [Recorded(s, i, answer)]
  {
    var s2 := Apply(s1, Turn(p));
    if Judge(s.cfg, s.db.table[i], s.db.now).MayReclaim? {
      assert s2 == s.(procs := s.procs[p := Reclaiming(i, s.db.table[i], s.db.now)]);
      var s3 := Apply(s2, Turn(p));
      assert s3.procs == s.procs[p := Answering(i, s.db.table[i].id, s.db.nextToken, s.db.now)];
      assert Apply(s3, Turn(p)).procs == s.procs;
    } else {
      assert s2.procs == s.procs;
    }
  }

  class ReceiveInboxMessageUseCase {
    const repository: PrismaInboxRepository
    const cfg: Config

    constructor (repository: PrismaInboxRepository, cfg: Config)
      ensures this.repository == repository && this.cfg == cfg
    {
      this.repository, this.cfg := repository, cfg;
    }

    /**
     * Insert, find, reclaim; an acquired message is owned. DUPLICATE is answered for
     * processed messages alone; parked ones, those inside a lease and those that
     * are not due are BUSY. A refusal writes nothing.
     */
    method Execute(i: Identity, token: nat, now: int) returns (answer: Answer)
      modifies repository
      ensures (repository.rows, answer) == ReceiveAlone(old(repository.rows), cfg, i, old(repository.nextId), token, now)
      ensures answer.Acquired? ==> i in repository.rows && Owned(repository.rows[i], answer.id, token)
      ensures answer.AlreadyDone? <==> i in old(repository.rows) && old(repository.rows)[i].status == Processed
      ensures i in old(repository.rows) ==>
                var row := old(repository.rows)[i];
                var open := row.status == InProgress && (row.claimedAt.None? || row.claimedAt.value + cfg.lease <= now) &&
                            (row.nextAttemptAt.None? || row.nextAttemptAt.value <= now);
                && (answer.Occupied? <==> row.status == Suspended || (row.status == InProgress && !open))
                && (answer.Acquired? <==> open)
      ensures i !in old(repository.rows) ==> answer == Acquired(old(repository.nextId), token)
      ensures !answer.Acquired? ==> repository.rows == old(repository.rows)
    {
      var inserted := repository.InsertIfAbsent(i, token, now);
      if inserted.Some? {
        return Acquired(inserted.value, token);
      }
      var existing := repository.FindUnique(i);
      if existing.None? || existing.value.status.Suspended? {
        return Occupied;
      }
      if existing.value.status.Processed? {
        return AlreadyDone;
      }
      var claimLive := existing.value.claimedAt.Some? && now - existing.value.claimedAt.value < cfg.lease;
      if claimLive {
        return Occupied;
      }
      if existing.value.nextAttemptAt.Some? && existing.value.nextAttemptAt.value > now {
        return Occupied;
      }
      var reclaimed := repository.Reclaim(i, existing.value.id, existing.value.token, token, now);
      if !reclaimed {
        return Occupied;
      }
      return Acquired(existing.value.id, token);
    }
  }
}
