/**
 * The outbox repository and the publishing use case over it, run by one
 * dispatcher. Each method is tied to the statement functions whose
 * interleavings Outbox studies.
 */
module OutboxRepository {
  import opened Common
  import opened Outbox

  /** Row ids stand for the order of creation. */
  class PrismaOutboxRepository {
    var rows: Table
    var nextId: nat

    ghost predicate Valid()
      reads this
    {
      forall id :: id in rows ==> id < nextId
    }

    constructor ()
      ensures Valid() && rows == map[] && nextId == 0
    {
      rows, nextId := map[], 0;
    }

    method Append(nextRetryAt: Option<int>, occurredAt: int) returns (id: nat)
      requires Valid()
      modifies this
      ensures Valid() && id == old(nextId) && nextId == id + 1
      ensures rows == old(rows)[id := Row(Pending, 0, None, None, Some(nextRetryAt.GetOr(occurredAt)), None)]
    {
      id := nextId;
      rows := rows[id := Row(Pending, 0, None, None, Some(nextRetryAt.GetOr(occurredAt)), None)];
      nextId := nextId + 1;
    }

    /** The oldest due rows, at most batchSize of them, all under one token. */
    method ClaimBatch(batchSize: nat, lease: nat, token: nat, now: int) returns (claimed: seq<nat>, records: map<nat, Row>)
      requires Valid()
      modifies this`rows
      ensures Valid()
      ensures rows == ClaimRows(old(rows), IdSet(claimed), token, now)
      ensures IdSet(claimed) <= DueIds(old(rows), now, now - lease)
      ensures forall i, j :: 0 <= i < j < |claimed| ==> claimed[i] < claimed[j]
      ensures records == map id | id in claimed && id in rows :: rows[id]
      ensures |claimed| <= batchSize
      ensures forall id :: id in DueIds(old(rows), now, now - lease) && id !in claimed ==>
                |claimed| == batchSize && forall k :: 0 <= k < |claimed| ==> claimed[k] < id
    {
      claimed := [];
      var id: nat := 0;
      while id < nextId && |claimed| < batchSize
        invariant id <= nextId && |claimed| <= batchSize
        invariant forall k :: 0 <= k < |claimed| ==> claimed[k] < id && claimed[k] in DueIds(rows, now, now - lease)
        invariant forall i, j :: 0 <= i < j < |claimed| ==> claimed[i] < claimed[j]
        invariant forall other :: other in DueIds(rows, now, now - lease) && other < id ==> other in claimed
      {
        if id in rows && Due(rows[id], now, now - lease) {
          claimed := claimed + [id];
        }
        id := id + 1;
      }
      rows := map k | k in rows ::
        if k in claimed
        then rows[k].(token := Some(token), claimedAt := Some(now), attempts := rows[k].attempts + 1)
        else rows[k];
      records := map k | k in claimed && k in rows :: rows[k];
    }

    method MarkPublished(id: nat, token: nat, now: int)
      requires Valid()
      modifies this`rows
      ensures Valid() && rows == Outbox.MarkPublished(old(rows), id, token, now)
    {
      if id in rows && rows[id].token == Some(token) && rows[id].status.Pending? {
        rows := rows[id := rows[id].(status := Published, publishedAt := Some(now), claimedAt := None, token := None)];
      }
    }

    /** Read, decide, compare-and-set. */
    method MarkFailed(id: nat, token: nat, nextRetryAt: int, maxAttempts: nat)
      requires Valid()
      modifies this`rows
      ensures Valid()
      ensures rows == if Owned(old(rows), id, token)
                      then var exhausted := old(rows)[id].attempts > maxAttempts;
                        Outbox.MarkFailed(old(rows), id, token, exhausted, if exhausted then old(rows)[id].nextRetryAt else Some(nextRetryAt))
                      else old(rows)
    {
      if id in rows && rows[id].token == Some(token) && rows[id].status.Pending? {
        var row := rows[id];
        var isExhausted := row.attempts > maxAttempts;
        rows := rows[id := row.(status := if isExhausted then DeadLetter else Pending,
                                nextRetryAt := if isExhausted then row.nextRetryAt else Some(nextRetryAt),
                                claimedAt := None, token := None)];
      }
    }

    method DeletePublishedOlderThan(hours: nat, now: int) returns (count: nat)
      requires Valid()
      modifies this`rows
      ensures Valid() && rows == DeletePublishedBefore(old(rows), now - hours * 60 * 60 * 1000)
      ensures rows.Keys <= old(rows).Keys && count == |old(rows).Keys - rows.Keys|
    {
      var cutoff := now - hours * 60 * 60 * 1000;
      var gone := set id | id in rows && rows[id].status.Published? && rows[id].publishedAt.Some? && rows[id].publishedAt.value < cutoff;
      count := |gone|;
      assert rows.Keys - DeletePublishedBefore(rows, cutoff).Keys == gone;
      rows := map id | id in rows && !(rows[id].status.Published? && rows[id].publishedAt.Some? && rows[id].publishedAt.value < cutoff) :: rows[id];
    }
  }

  /** Where a leased row ends up. */
  function Outcome(cfg: Config, row: Row, accepted: bool, now: int): Row {
    if accepted then Row(Published, row.attempts, None, None, row.nextRetryAt, Some(now))
    else if row.attempts > cfg.maxAttempts then Row(DeadLetter, row.attempts, None, None, row.nextRetryAt, row.publishedAt)
    else Row(Pending, row.attempts, None, None, Some(now + Delay(cfg, row.attempts)), row.publishedAt)
  }

  /** One pass over the claimed rows: each by the broker's answer and its attempts, no other row touched. */
  ghost predicate PassDone(cfg: Config, before: Table, after: Table, ids: seq<nat>, broker: set<nat>, now: int) {
    && after.Keys == before.Keys
    && forall id :: id in before ==>
         after[id] == if id in ids then Outcome(cfg, before[id].(attempts := before[id].attempts + 1), id in broker, now) else before[id]
  }

  // ----- the interleaved dispatcher, left alone -----

  /** The dispatcher's batch from this message on, each row leased under its token with the attempts it was claimed with. */
  ghost predicate Carries(s: State, p: nat, token: nat, queue: seq<Message>) {
    && p in s.procs && s.procs[p] == Proc(token, queue, Sending)
    && (forall k :: 0 <= k < |queue| ==>
          Owned(s.db.table, queue[k].id, token) && s.db.table[queue[k].id].attempts == queue[k].attempts)
    && (forall j, k :: 0 <= j < k < |queue| ==> queue[j].id != queue[k].id)
  }

  /** The dispatcher has dealt with its first message and with nothing else. */
  ghost predicate HeadDone(s: State, t: State, p: nat, token: nat, queue: seq<Message>, accepted: bool)
    requires Carries(s, p, token, queue) && queue != []
  {
    var id := queue[0].id;
    && t.cfg == s.cfg && t.db.now == s.db.now
    && t.db.table == s.db.table[id := Outcome(s.cfg, s.db.table[id], accepted, s.db.now)]
    && t.procs == if |queue| == 1 then s.procs - {p} else s.procs[p := Proc(token, queue[1..], Sending)]
  }

  lemma AcceptedAlone(s: State, p: nat, token: nat, queue: seq<Message>)
    requires Carries(s, p, token, queue) && queue != []
    ensures HeadDone(s, Apply(Apply(s, Turn(p, Took)), Turn(p, Took)), p, token, queue, true)
  {
    var t := Apply(s, Turn(p, Took));
    assert t.db == s.db && t.procs == s.procs[p := Proc(token, queue, Sent)];
    var u := Apply(t, Turn(p, Took));
    assert u.procs == if |queue| == 1 then s.procs - {p} else s.procs[p := Proc(token, queue[1..], Sending)];
  }

  lemma RefusedAlone(s: State, p: nat, token: nat, queue: seq<Message>)
    requires Carries(s, p, token, queue) && queue != []
    ensures HeadDone(s, Apply(Apply(Apply(s, Turn(p, Refused)), Turn(p, Refused)), Turn(p, Refused)), p, token, queue, false)
  {
    var id := queue[0].id;
    var row := s.db.table[id];
    var retryAt := s.db.now + Delay(s.cfg, row.attempts);
    var t := Apply(s, Turn(p, Refused));
    assert t.db == s.db && t.procs == s.procs[p := Proc(token, queue, FailReading(retryAt))];
    var u := Apply(t, Turn(p, Refused));
    var exhausted := row.attempts > s.cfg.maxAttempts;
    assert u.db == s.db;
    assert u.procs == s.procs[p := Proc(token, queue, FailWriting(exhausted, if exhausted then row.nextRetryAt else Some(retryAt)))];
    RefusalWritten(s, u, p, token, queue);
  }

  lemma RefusalWritten(s: State, u: State, p: nat, token: nat, queue: seq<Message>)
    requires Carries(s, p, token, queue) && queue != [] && u.db == s.db && u.cfg == s.cfg
    requires var row := s.db.table[queue[0].id];
             var exhausted := row.attempts > s.cfg.maxAttempts;
             u.procs == s.procs[p := Proc(token, queue, FailWriting(exhausted,
               if exhausted then row.nextRetryAt else Some(s.db.now + Delay(s.cfg, row.attempts))))]
    ensures HeadDone(s, Apply(u, Turn(p, Refused)), p, token, queue, false)
  {
    assert Apply(u, Turn(p, Refused)).procs == if |queue| == 1 then s.procs - {p} else s.procs[p := Proc(token, queue[1..], Sending)];
  }

  lemma RestIsCarried(s: State, t: State, p: nat, token: nat, queue: seq<Message>, accepted: bool)
    requires Carries(s, p, token, queue) && |queue| > 1 && HeadDone(s, t, p, token, queue, accepted)
    ensures Carries(t, p, token, queue[1..])
  {
  }

  /** Where the rows end: those of the queue by the broker's answer, the others where they were. */
  ghost predicate QueueDone(s: State, t: State, p: nat, queue: seq<Message>, broker: set<nat>) {
    && t.procs == s.procs - {p} && t.db.table.Keys == s.db.table.Keys
    && forall id :: id in s.db.table ==>
         t.db.table[id] == if exists k :: 0 <= k < |queue| && queue[k].id == id
                           then Outcome(s.cfg, s.db.table[id], id in broker, s.db.now) else s.db.table[id]
  }

  lemma QueueDoneExtends(s: State, t: State, u: State, p: nat, token: nat, queue: seq<Message>, broker: set<nat>)
    requires Carries(s, p, token, queue) && |queue| > 1
    requires HeadDone(s, t, p, token, queue, queue[0].id in broker) && QueueDone(t, u, p, queue[1..], broker)
    ensures QueueDone(s, u, p, queue, broker)
  {
    forall id | id in s.db.table
      ensures u.db.table[id] == if exists k :: 0 <= k < |queue| && queue[k].id == id
                                then Outcome(s.cfg, s.db.table[id], id in broker, s.db.now) else s.db.table[id]
    {
      assert (exists k :: 0 <= k < |queue| && queue[k].id == id) <==>
             queue[0].id == id || exists k :: 0 <= k < |queue[1..]| && queue[1..][k].id == id by {
        if k :| 1 <= k < |queue| && queue[k].id == id {
          assert queue[1..][k - 1].id == id;
        }
      }
    }
  }

  /** A dispatcher left alone deals with its whole batch as the sequential pass does. */
  lemma {:induction false} MachineDispatchesAlone(s: State, p: nat, token: nat, queue: seq<Message>, broker: set<nat>) returns (t: State, steps: seq<Step>)
    requires Carries(s, p, token, queue) && queue != []
    ensures t == Run(s, steps) && QueueDone(s, t, p, queue, broker)
    decreases |queue|
  {
    var accepted := queue[0].id in broker;
    if accepted {
      AcceptedAlone(s, p, token, queue);
      steps := [Turn(p, Took), Turn(p, Took)];
      t := Apply(Apply(s, steps[0]), steps[1]);
      RunTwo(s, steps[0], steps[1]);
    } else {
      RefusedAlone(s, p, token, queue);
      steps := [Turn(p, Refused), Turn(p, Refused), Turn(p, Refused)];
      t := Apply(Apply(Apply(s, steps[0]), steps[1]), steps[2]);
      RunThree(s, steps[0], steps[1], steps[2]);
    }
    if |queue| > 1 {
      RestIsCarried(s, t, p, token, queue, accepted);
      var u, more := MachineDispatchesAlone(t, p, token, queue[1..], broker);
      QueueDoneExtends(s, t, u, p, token, queue, broker);
      RunSplits(s, steps, more);
      t, steps := u, steps + more;
    }
  }

  lemma {:induction false} AllPickedAreClaimed(t: Table, ids: seq<nat>, picked: set<nat>)
    requires forall k :: 0 <= k < |ids| ==> ids[k] in t && ids[k] in picked
    ensures var queue := ClaimedMessages(t, ids, picked);
            |queue| == |ids| && forall k :: 0 <= k < |ids| ==> queue[k] == Message(ids[k], t[ids[k]].attempts + 1)
    decreases |ids|
  {
    if ids != [] {
      AllPickedAreClaimed(t, ids[1..], picked);
      assert ClaimedMessages(t, ids, picked) == [Message(ids[0], t[ids[0]].attempts + 1)] + ClaimedMessages(t, ids[1..], picked);
    }
  }

  /** A claim of due rows leaves the dispatcher carrying them. */
  lemma ClaimCarries(s: State, p: nat, ids: seq<nat>)
    requires p !in s.procs && (forall id :: id in ids ==> id in DueIds(s.db.table, s.db.now, s.db.now - s.cfg.lease))
    requires forall j, k :: 0 <= j < k < |ids| ==> ids[j] != ids[k]
    ensures var t := Apply(s, Dispatch(p, ids, s.db.now)); var queue := ClaimedMessages(s.db.table, ids, IdSet(ids));
            && Carries(t, p, s.db.nextToken, queue) && |queue| == |ids| && (forall k :: 0 <= k < |ids| ==> queue[k].id == ids[k])
            && t.cfg == s.cfg && t.db.now == s.db.now && t.procs.Keys == s.procs.Keys + {p} && t.procs - {p} == s.procs
            && t.db.table == ClaimRows(s.db.table, IdSet(ids), s.db.nextToken, s.db.now)
  {
    var picked := Picked(s.cfg, s.db, IdSet(ids), s.db.now);
    assert picked == IdSet(ids);
    assert forall k :: 0 <= k < |ids| ==> ids[k] in ids;
    AllPickedAreClaimed(s.db.table, ids, picked);
  }

  /**
   * A dispatcher process that claims these due rows and is left alone ends where
   * the sequential pass over them does.
   */
  lemma MachineRunsOnePass(s: State, p: nat, ids: seq<nat>, broker: set<nat>) returns (t: State, steps: seq<Step>)
    requires p !in s.procs && ids != [] && (forall id :: id in ids ==> id in DueIds(s.db.table, s.db.now, s.db.now - s.cfg.lease))
    requires forall j, k :: 0 <= j < k < |ids| ==> ids[j] != ids[k]
    ensures t == Run(s, steps) && t.procs == s.procs && PassDone(s.cfg, s.db.table, t.db.table, ids, broker, s.db.now)
  {
    var step, queue := Dispatch(p, ids, s.db.now), ClaimedMessages(s.db.table, ids, IdSet(ids));
    var claimed := Apply(s, step);
    ClaimCarries(s, p, ids);
    t, steps := MachineDispatchesAlone(claimed, p, s.db.nextToken, queue, broker);
    RunFirst(s, step, steps);
    PassOfQueue(s, claimed, t, p, ids, queue, broker);
    steps := [step] + steps;
  }

  lemma RunFirst(s: State, step: Step, steps: seq<Step>)
    ensures Run(s, [step] + steps) == Run(Apply(s, step), steps)
  {
    assert ([step] + steps)[1..] == steps;
  }

  lemma PassOfQueue(s: State, claimed: State, t: State, p: nat, ids: seq<nat>, queue: seq<Message>, broker: set<nat>)
    requires QueueDone(claimed, t, p, queue, broker)
    requires claimed.db.table == ClaimRows(s.db.table, IdSet(ids), s.db.nextToken, s.db.now)
    requires claimed.cfg == s.cfg && claimed.db.now == s.db.now
    requires |queue| == |ids| && forall k :: 0 <= k < |ids| ==> queue[k].id == ids[k]
    ensures PassDone(s.cfg, s.db.table, t.db.table, ids, broker, s.db.now)
  {
    forall id | id in s.db.table
      ensures id in ids <==> exists k :: 0 <= k < |queue| && queue[k].id == id
    {
      if k :| 0 <= k < |ids| && ids[k] == id {
        assert queue[k].id == id;
      }
    }
  }

  lemma RunTwo(s: State, a: Step, b: Step)
    ensures Run(s, [a, b]) == Apply(Apply(s, a), b)
  {
    assert [a, b][1..] == [b] && [b][1..] == [];
    assert Run(Apply(s, a), [b]) == Run(Apply(Apply(s, a), b), []);
  }

  lemma RunThree(s: State, a: Step, b: Step, c: Step)
    ensures Run(s, [a, b, c]) == Apply(Apply(Apply(s, a), b), c)
  {
    assert [a, b, c][1..] == [b, c];
    RunTwo(Apply(s, a), b, c);
  }

  lemma {:induction false} RunSplits(s: State, steps: seq<Step>, later: seq<Step>)
    ensures Run(s, steps + later) == Run(Run(s, steps), later)
    decreases |steps|
  {
    if steps == [] {
      assert steps + later == later;
    } else {
      assert (steps + later)[1..] == steps[1..] + later;
      RunSplits(Apply(s, steps[0]), steps[1..], later);
    }
  }

  class PublishPendingBatchUseCase {
    const repository: PrismaOutboxRepository
    const cfg: Config
    const batchSize: nat
    var dispatching: bool

    constructor (repository: PrismaOutboxRepository, cfg: Config, batchSize: nat)
      ensures this.repository == repository && this.cfg == cfg && this.batchSize == batchSize && !dispatching
    {
      this.repository, this.cfg, this.batchSize, dispatching := repository, cfg, batchSize, false;
    }

    /**
     * One pass over the oldest due rows: each claimed row is published exactly
     * if the broker takes it, parked exactly if it is refused beyond the ceiling
     * and backed off otherwise; no other row changes. A pass that finds another
     * one under way does nothing.
     */
    method Execute(broker: set<nat>, token: nat, now: int) returns (claimed: seq<nat>)
      requires repository.Valid()
      requires forall id :: id in repository.rows ==> repository.rows[id].token != Some(token)
      modifies this`dispatching, repository`rows
      ensures repository.Valid() && dispatching == old(dispatching)
      ensures old(dispatching) ==> claimed == [] && repository.rows == old(repository.rows)
      ensures !old(dispatching) ==>
                && IdSet(claimed) <= DueIds(old(repository.rows), now, now - cfg.lease)
                && (forall id :: id in DueIds(old(repository.rows), now, now - cfg.lease) && id !in claimed ==>
                      |claimed| == batchSize && forall k :: 0 <= k < |claimed| ==> claimed[k] < id)
      ensures PassDone(cfg, old(repository.rows), repository.rows, claimed, broker, now)
    {
      if dispatching {
        return [];
      }
      dispatching := true;
      var records;
      claimed, records := repository.ClaimBatch(batchSize, cfg.lease, token, now);
      assert forall id :: id in claimed <==> id in IdSet(claimed);
      DispatchAll(claimed, records, broker, token, now);
      dispatching := false;
    }

    method DispatchAll(claimed: seq<nat>, records: map<nat, Row>, broker: set<nat>, token: nat, now: int)
      requires repository.Valid()
      requires forall i, j :: 0 <= i < j < |claimed| ==> claimed[i] != claimed[j]
      requires forall id :: id in claimed ==> Owned(repository.rows, id, token) && id in records && records[id] == repository.rows[id]
      modifies repository`rows
      ensures repository.Valid() && repository.rows.Keys == old(repository.rows.Keys)
      ensures forall id :: id in repository.rows ==>
                repository.rows[id] == if id in claimed then Outcome(cfg, old(repository.rows)[id], id in broker, now)
                                       else old(repository.rows)[id]
    {
      ghost var was := repository.rows;
      for k := 0 to |claimed|
        invariant repository.Valid() && repository.rows.Keys == was.Keys
        invariant forall id :: id in was ==>
          repository.rows[id] == if id in claimed[..k] then Outcome(cfg, was[id], id in broker, now) else was[id]
      {
        var id := claimed[k];
        assert id !in claimed[..k];
        DispatchOne(id, records[id].attempts, id in broker, token, now);
        assert claimed[..k + 1] == claimed[..k] + [id];
      }
      assert claimed[..|claimed|] == claimed;
    }

    method DispatchOne(id: nat, attempts: nat, accepted: bool, token: nat, now: int)
      requires repository.Valid()
      modifies repository`rows
      ensures repository.Valid()
      ensures !Owned(old(repository.rows), id, token) ==> repository.rows == old(repository.rows)
      ensures Owned(old(repository.rows), id, token) && attempts == old(repository.rows)[id].attempts ==>
                repository.rows == old(repository.rows)[id := Outcome(cfg, old(repository.rows)[id], accepted, now)]
    {
      if !accepted {
        var delay := Min(cfg.retryMax, cfg.retryBase * Pow2(Max(0, attempts - 1)));
        repository.MarkFailed(id, token, now + delay, cfg.maxAttempts);
        return;
      }
      repository.MarkPublished(id, token, now);
    }
  }
}
