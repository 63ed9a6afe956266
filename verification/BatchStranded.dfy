/**
 * How an open batch job comes to be stranded: a synchronous one whose caller
 * crashes, and an asynchronous one that is cancelled and has lost its messages.
 */
module BatchStranded {
  import opened Common
  import opened BatchTables
  import opened BatchPipeline
  import opened BatchLiveness

  function Submitted(mode: Mode, entities: seq<string>, now: int): Db {
    CreateJobWithRows(EmptyDb, mode, entities, now)
  }

  lemma FirstRowWaits(mode: Mode, entities: seq<string>, now: int)
    requires entities != []
    ensures var db := Submitted(mode, entities, now);
            && db.jobs == map[0 := Job(mode, if mode.Sync? then JobRunning else JobPending, |entities|, 0, 0, 0, 0, false)]
            && 0 in db.rows && db.rows[0].job == 0 && db.rows[0].status.RowPending?
  {
    assert 0 in Interval(0, |entities|);
  }

  lemma JustSubmitted(mode: Mode, entities: seq<string>, now: int) returns (t: State)
    requires entities != []
    ensures Reaches(Initial, t) && t.db == Submitted(mode, entities, now) && t.procs.Keys == {0} && t.queue == {}
  {
    ReachesItself(Initial);
    ReachOn(Initial, Initial, Submit(0, mode, entities, now));
    t := Apply(Initial, Submit(0, mode, entities, now));
  }

  /** A submission whose process is gone before anything else happened. */
  lemma SubmitAndCrash(mode: Mode, entities: seq<string>, now: int) returns (t: State)
    requires entities != []
    ensures Reaches(Initial, t) && t.db == Submitted(mode, entities, now) && t.procs == map[] && t.queue == {}
  {
    t := JustSubmitted(mode, entities, now);
    t := Arrived(Initial, t, Crash(0));
    assert t.procs.Keys == {};
  }

  lemma ReachedStrandedCannotClose(t: State)
    requires Reaches(Initial, t) && Stranded(t, 0, 0)
    ensures !CanStillClose(t, 0)
  {
    InitialIsOk();
    ReachedIsOk(Initial, t);
    StrandedCannotClose(t, 0, 0);
  }

  lemma InitialIsOk()
    ensures BatchPipeline.Inv(Initial)
  {
    assert BatchPipeline.Run(Initial, []) == Initial;
    Reachable([]);
  }

  /** A synchronous submission whose caller crashes leaves a job that no continuation closes. */
  lemma CrashedCallerStrandsSyncJob(entities: seq<string>, now: int) returns (t: State)
    requires entities != []
    ensures Reaches(Initial, t) && CanClose(t.db, 0) && t.db.jobs[0].mode.Sync? && !CanStillClose(t, 0)
  {
    t := SubmitAndCrash(Sync, entities, now);
    FirstRowWaits(Sync, entities, now);
    ReachedStrandedCannotClose(t);
  }

  // ----- a consumed message -----

  /** An asynchronous submission, all of it handed to the queue in two messages. */
  function Sent(entities: seq<string>, k: nat, now: int): State
    requires k <= |entities|
  {
    State(Submitted(Async, entities, now), {First(entities, k), Second(entities, k)}, map[], [OpCreate(Async, entities, now)], map[], [])
  }

  function First(entities: seq<string>, k: nat): Dispatch
    requires k <= |entities|
  {
    Dispatch(0, CreatedRows(EmptyDb, |entities|)[..k])
  }

  function Second(entities: seq<string>, k: nat): Dispatch
    requires k <= |entities|
  {
    Dispatch(0, CreatedRows(EmptyDb, |entities|)[k..])
  }

  lemma ReachSubmitted(entities: seq<string>, k: nat, now: int)
    requires 0 < k < |entities|
    ensures var d := Dispatch(0, CreatedRows(EmptyDb, |entities|));
            Reaches(Initial, Sent(entities, k, now).(queue := {}, procs := map[0 := Dispatching(d)]))
  {
    ReachesItself(Initial);
    ReachOn(Initial, Initial, Submit(0, Async, entities, now));
    assert Apply(Initial, Submit(0, Async, entities, now))
        == Sent(entities, k, now).(queue := {}, procs := map[0 := Dispatching(Dispatch(0, CreatedRows(EmptyDb, |entities|)))]);
  }

  lemma EnqueueAdds(t: State, d: Dispatch, chunk: Dispatch)
    requires t.procs == map[0 := Dispatching(d)] && chunk.job == d.job && forall id :: id in chunk.rows ==> id in d.rows
    ensures Apply(t, Enqueue(0, d.job, chunk.rows)) == t.(queue := t.queue + {chunk})
  {
  }

  lemma PublisherLeaves(t: State, d: Dispatch)
    requires t.procs == map[0 := Dispatching(d)]
    ensures Apply(t, EnqueueDone(0)) == t.(procs := map[])
  {
    assert t.procs - {0} == map[];
  }

  lemma ReachSent(entities: seq<string>, k: nat, now: int)
    requires 0 < k < |entities|
    ensures Reaches(Initial, Sent(entities, k, now))
  {
    var first, second, d := First(entities, k), Second(entities, k), Dispatch(0, CreatedRows(EmptyDb, |entities|));
    var s1 := Sent(entities, k, now).(queue := {}, procs := map[0 := Dispatching(d)]);
    ReachSubmitted(entities, k, now);
    EnqueueAdds(s1, d, first);
    ReachOn(Initial, s1, Enqueue(0, 0, first.rows));
    var s2 := s1.(queue := s1.queue + {first});
    EnqueueAdds(s2, d, second);
    ReachOn(Initial, s2, Enqueue(0, 0, second.rows));
    var s3 := s2.(queue := s2.queue + {second});
    PublisherLeaves(s3, d);
    ReachOn(Initial, s3, EnqueueDone(0));
    assert {} + {first} + {second} == {first, second};
  }

  /** What the tables hold once a worker has claimed the first row and died, and the job has been cancelled. */
  function Claimed(entities: seq<string>, now: int): Db {
    SetCancelRequested(ClaimRow(MarkJobRunning(Submitted(Async, entities, now), 0), 0, 0), 0)
  }

  lemma SubmittedRows(entities: seq<string>, now: int)
    ensures var rows := Submitted(Async, entities, now).rows;
            rows.Keys == Interval(0, |entities|) && forall id :: id in rows ==> rows[id].job == 0 && rows[id].status.RowPending?
  {
  }

  lemma ClaimedIs(entities: seq<string>, now: int)
    requires entities != []
    ensures var db, was := Claimed(entities, now), Submitted(Async, entities, now);
            && db.jobs == map[0 := Job(Async, JobRunning, |entities|, 0, 0, 0, 0, true)]
            && 0 in was.rows && db.rows.Keys == was.rows.Keys && db.rows[0].job == 0 && db.rows[0].status.Processing?
            && forall id :: id in was.rows && id != 0 ==> db.rows[id] == was.rows[id]
  {
    FirstRowWaits(Async, entities, now);
  }

  lemma OneIsHeld(rows: map<nat, Row>, n: nat)
    requires n > 1 && rows.Keys == Interval(0, n) && rows[0].status.Processing?
    requires forall id :: id in rows ==> rows[id].job == 0 && (id != 0 ==> rows[id].status.RowPending?)
    ensures |WithStatus(rows, 0, RowPending)| < n && 1 in WithStatus(rows, 0, RowPending)
    ensures SettledRows(rows, 0) == {} && 1 in RowsOf(rows, 0)
  {
    assert 0 in Interval(0, n) && 1 in Interval(0, n);
    assert WithStatus(rows, 0, RowPending) == Interval(0, n) - {0};
  }

  lemma ClaimedFacts(entities: seq<string>, now: int)
    requires |entities| > 1
    ensures var db := Claimed(entities, now);
            && db.jobs == map[0 := Job(Async, JobRunning, |entities|, 0, 0, 0, 0, true)]
            && |WithStatus(db.rows, 0, RowPending)| < |entities| && 1 in WithStatus(db.rows, 0, RowPending)
            && SettledRows(db.rows, 0) == {} && 1 in RowsOf(db.rows, 0)
  {
    var db := Claimed(entities, now);
    SubmittedRows(entities, now);
    ClaimedIs(entities, now);
    OneIsHeld(db.rows, |entities|);
  }

  /** One statement of the only process. */
  lemma TurnedAlone(s: State, t: State, p: nat, proc: Proc, move: Move) returns (u: State)
    requires Reaches(s, t) && t.procs == map[p := proc] && move == Turn(t.db, proc, Any)
    ensures Reaches(s, u) && u.queue == t.queue && u.db == Do(t.db, move.op)
    ensures u.procs == if move.next.Some? then map[p := move.next.value] else map[]
  {
    u := Apply(t, Advance(p, Any));
    ReachOn(s, t, Advance(p, Any));
    var recorded := Record(t, proc);
    RecordIsHistory(t, proc);
    assert u.procs == Place(recorded, p, move.next).procs;
    assert t.procs - {p} == map[];
  }

  lemma DeliveredAlone(s: State, t: State, d: Dispatch, p: nat) returns (u: State)
    requires Reaches(s, t) && t.procs == map[] && d in t.queue
    ensures Reaches(s, u) && u.queue == t.queue && u.db == MarkJobRunning(t.db, d.job) && u.procs == map[p := CancelCheck(d, 0)]
  {
    u := Arrived(s, t, Deliver(p, d));
    u := TurnedAlone(s, u, p, ChunkStart(d), Move(OpMarkRunning(d.job), Some(CancelCheck(d, 0))));
  }

  lemma ClaimedAlone(s: State, t: State, d: Dispatch, p: nat) returns (u: State)
    requires Reaches(s, t) && t.procs == map[p := CancelCheck(d, 0)] && d.rows != []
    requires !CancelWanted(t.db, d.job) && CanClaim(t.db, d.rows[0])
    ensures Reaches(s, u) && u.queue == t.queue && u.db == ClaimRow(t.db, d.rows[0], 0) && u.procs.Keys == {p}
  {
    u := TurnedAlone(s, t, p, CancelCheck(d, 0), Move(OpNone, Some(Claiming(d, 0))));
    u := TurnedAlone(s, u, p, Claiming(d, 0),
                     Move(OpClaim(d.rows[0], 0), Some(Rechecking(d, 0, t.db.rows[d.rows[0]].token + 1))));
  }

  /** A worker takes a message, claims its first row, and dies. */
  lemma ClaimAndDie(s: State, t: State, d: Dispatch, p: nat) returns (u: State)
    requires Reaches(s, t) && t.procs == map[] && d in t.queue && d.rows != []
    requires !CancelWanted(t.db, d.job) && CanClaim(t.db, d.rows[0])
    ensures Reaches(s, u) && u.procs == map[] && u.queue == t.queue
    ensures u.db == ClaimRow(MarkJobRunning(t.db, d.job), d.rows[0], 0)
  {
    u := DeliveredAlone(s, t, d, p);
    u := ClaimedAlone(s, u, d, p);
    u := Arrived(s, u, Crash(p));
    assert u.procs.Keys == {};
  }

  lemma FlagSetAlone(s: State, t: State, j: nat, p: nat) returns (u: State)
    requires Reaches(s, t) && t.procs == map[] && CanClose(t.db, j)
    ensures Reaches(s, u) && u.db == SetCancelRequested(t.db, j) && u.procs == map[p := CancelPendingRead(j)] && u.queue == t.queue
  {
    u := Arrived(s, t, RequestCancel(p, j));
    u := TurnedAlone(s, u, p, CancelFlagging(j), Move(OpCancelFlag(j), Some(CancelPendingRead(j))));
  }

  /** A cancel request on a job with waiting rows: the flag is set, and that is all. */
  lemma CancelGivesUp(s: State, t: State, j: nat, p: nat) returns (u: State)
    requires Reaches(s, t) && t.procs == map[] && CanClose(t.db, j) && WithStatus(t.db.rows, j, RowPending) != {}
    ensures Reaches(s, u) && u.db == SetCancelRequested(t.db, j) && u.procs == map[] && u.queue == t.queue
  {
    u := FlagSetAlone(s, t, j, p);
    u := TurnedAlone(s, u, p, CancelPendingRead(j), Move(OpNone, None));
  }

  lemma ReadAlone(s: State, t: State, d: Dispatch, p: nat) returns (u: State)
    requires Reaches(s, t) && t.procs == map[p := CancelCheck(d, 0)] && CanClose(t.db, d.job) && CancelWanted(t.db, d.job)
    requires t.db.jobs[d.job].processed < t.db.jobs[d.job].total
    ensures Reaches(s, u) && u.queue == t.queue && u.db == t.db
    ensures u.procs == map[p := PendingRead(d.job, t.db.jobs[d.job].processed, t.db.jobs[d.job].total)]
  {
    var job := t.db.jobs[d.job];
    u := TurnedAlone(s, t, p, CancelCheck(d, 0), Move(OpNone, Some(FinaliseCheck(d.job))));
    u := TurnedAlone(s, u, p, FinaliseCheck(d.job), Move(OpNone, Some(PendingRead(d.job, job.processed, job.total))));
  }

  /** Delivered after the request while a row is in flight, a message is consumed without effect. */
  lemma Consumed(s: State, t: State, d: Dispatch, p: nat) returns (u: State)
    requires Reaches(s, t) && t.procs == map[] && d in t.queue && CanClose(t.db, d.job) && CancelWanted(t.db, d.job)
    requires t.db.jobs[d.job].processed + |WithStatus(t.db.rows, d.job, RowPending)| < t.db.jobs[d.job].total
    ensures Reaches(s, u) && u.db == t.db && u.procs == map[] && u.queue == t.queue - {d}
  {
    var job := t.db.jobs[d.job];
    u := DeliveredAlone(s, t, d, p);
    u := ReadAlone(s, u, d, p);
    u := TurnedAlone(s, u, p, PendingRead(d.job, job.processed, job.total), Move(OpNone, None));
    u := Lost(s, u, d);
  }

  lemma Lost(s: State, t: State, d: Dispatch) returns (u: State)
    requires Reaches(s, t)
    ensures Reaches(s, u) && u.db == t.db && u.procs == t.procs && u.queue == t.queue - {d}
  {
    ReachOn(s, t, Lose(d));
    u := Apply(t, Lose(d));
  }

  /** Both messages go that way. */
  lemma BothConsumed(s: State, entities: seq<string>, k: nat, now: int) returns (t: State)
    requires 0 < k < |entities| && s == Sent(entities, k, now)
    ensures Reaches(s, t) && t.procs == map[] && t.queue == {} && t.db == Claimed(entities, now)
  {
    FirstRowWaits(Async, entities, now);
    ClaimedFacts(entities, now);
    ReachesItself(s);
    t := ClaimAndDie(s, s, First(entities, k), 1);
    assert SetCancelRequested(t.db, 0) == Claimed(entities, now);
    assert WithStatus(t.db.rows, 0, RowPending) == WithStatus(Claimed(entities, now).rows, 0, RowPending);
    t := CancelGivesUp(s, t, 0, 2);
    t := Consumed(s, t, First(entities, k), 3);
    if Second(entities, k) in t.queue {
      t := Consumed(s, t, Second(entities, k), 3);
    }
  }

  /** Nobody is about, no message is left, and every row of the cancelled job waits. */
  ghost predicate AllWaitForNobody(t: State) {
    && t.procs == map[] && t.queue == {}
    && CanClose(t.db, 0) && t.db.jobs[0].mode.Async? && t.db.jobs[0].cancelRequested
    && WithStatus(t.db.rows, 0, RowPending) == RowsOf(t.db.rows, 0) != {}
  }

  lemma OnlyWaiting(rows: map<nat, Row>, j: nat)
    requires SettledRows(rows, j) == {} && WithStatus(rows, j, Processing) == {}
    ensures WithStatus(rows, j, RowPending) == RowsOf(rows, j)
  {
    forall id | id in RowsOf(rows, j)
      ensures rows[id].status.RowPending?
    {
      assert id !in SettledRows(rows, j) && id !in WithStatus(rows, j, Processing);
    }
  }

  lemma ResetHandsBack(s: State, t: State) returns (u: State)
    requires Reaches(s, t) && t.procs == map[] && t.queue == {}
    requires CanClose(t.db, 0) && t.db.jobs[0].mode.Async? && t.db.jobs[0].cancelRequested
    requires SettledRows(t.db.rows, 0) == {} && RowsOf(t.db.rows, 0) != {}
    ensures Reaches(s, u) && AllWaitForNobody(u)
  {
    u := ResetAll(s, t, 0);
    OnlyWaiting(u.db.rows, 0);
  }

  /**
   * So does an asynchronous one whose messages have all been sent and consumed: a
   * worker claims a row and dies, the job is cancelled, the workers of the two
   * messages stop because a row is in flight, and a reset hands that row back.
   */
  lemma LostMessageStrandsCancelledJob(entities: seq<string>, k: nat, now: int) returns (t: State)
    requires 0 < k < |entities|
    ensures Reaches(Initial, Sent(entities, k, now)) && Reaches(Sent(entities, k, now), t)
    ensures AllWaitForNobody(t) && !CanStillClose(t, 0)
  {
    var s := Sent(entities, k, now);
    ReachSent(entities, k, now);
    InitialIsOk();
    ReachedIsOk(Initial, s);
    t := BothConsumed(s, entities, k, now);
    ClaimedFacts(entities, now);
    t := ResetHandsBack(s, t);
    ReachedIsOk(s, t);
    var id :| id in WithStatus(t.db.rows, 0, RowPending);
    StrandedCannotClose(t, 0, id);
  }
}
