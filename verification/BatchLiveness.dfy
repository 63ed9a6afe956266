/**
 * When an open batch job can still be closed. Once nobody carries it on and no
 * message of it is queued, everything hangs on the reconciler and on cancel
 * requests, and these do not reach a job with waiting rows that is synchronous
 * or has been asked to cancel.
 */
module BatchLiveness {
  import opened Common
  import opened BatchTables
  import opened BatchPipeline

  /** The process carries the job forward, or hands out or closes it. */
  predicate WorksOn(proc: Proc, j: nat) {
    match proc
    case ChunkStart(d) => d.job == j
    case CancelCheck(d, _) => d.job == j
    case Claiming(d, _) => d.job == j
    case Rechecking(d, _, _) => d.job == j
    case HandingBack(d, _, _) => d.job == j
    case Handling(d, _, _) => d.job == j
    case Dispatching(d) => d.job == j
    case FinaliseCheck(k) => k == j
    case FinaliseRead(k) => k == j
    case FinaliseCas(k, _) => k == j
    case PendingRead(k, _, _) => k == j
    case CancelCas(k, _) => k == j
    case FailingDispatch(k) => k == j
    case Resuming(k) => k == j
    case Requeueing(k, _) => k == j
    case _ => false
  }

  /** Nobody works on the job and no message of it is queued. */
  ghost predicate Quiet(s: State, j: nat) {
    && (forall p :: p in s.procs ==> !WorksOn(s.procs[p], j))
    && (forall d :: d in s.queue ==> d.job != j)
  }

  /**
   * The process can bring the job to its end. A worker that read its counters
   * before another row was settled cannot: what it adds to them never reaches
   * the total.
   */
  predicate Carries(db: Db, proc: Proc, j: nat) {
    WorksOn(proc, j) && (proc.PendingRead? ==> |SettledRows(db.rows, j)| <= proc.processed)
  }

  ghost predicate Carried(s: State, j: nat) {
    (exists p :: p in s.procs && Carries(s.db, s.procs[p], j)) || (exists d :: d in s.queue && d.job == j)
  }

  /** The reconciler hands out its waiting rows again. */
  predicate Resumable(job: Job) {
    job.mode.Async? && !job.cancelRequested
  }

  ghost predicate Stranded(s: State, j: nat, id: nat) {
    && CanClose(s.db, j) && !Resumable(s.db.jobs[j]) && !Carried(s, j)
    && id in s.db.rows && s.db.rows[id].job == j && s.db.rows[id].status.RowPending?
  }

  // ----- stranded jobs stay open -----

  /** A statement that is about other jobs leaves this one open, stranded and with its waiting row. */
  ghost predicate StillWaits(a: Db, b: Db, j: nat, id: nat)
    requires j in a.jobs
  {
    && CanClose(b, j) && b.jobs[j].mode == a.jobs[j].mode && (a.jobs[j].cancelRequested ==> b.jobs[j].cancelRequested)
    && id in b.rows && b.rows[id].job == j && b.rows[id].status.RowPending?
  }

  lemma SharedStatementsLeaveWaiting(db: Db, op: Op, j: nat, id: nat)
    requires WellFormed(db) && CanClose(db, j) && id in db.rows && db.rows[id].job == j && db.rows[id].status.RowPending?
    requires op.OpCreate? || op.OpReset? || op.OpAbandon? || op.OpRecount? || op.OpNone? || op == OpCancelFlag(j)
    ensures StillWaits(db, Do(db, op), j, id)
  {
  }

  lemma OtherJobsLeaveWaiting(db: Db, op: Op, j: nat, id: nat, k: nat)
    requires WellFormed(db) && CanClose(db, j) && id in db.rows && db.rows[id].job == j && db.rows[id].status.RowPending?
    requires k != j
    requires match op
             case OpMarkRunning(m) => m == k
             case OpClose(m, _) => m == k
             case OpCancelFlag(m) => m == k
             case OpClaim(row, _) => row in db.rows ==> db.rows[row].job == k
             case OpSettle(row, m, _, _, _) => m == k && (row in db.rows ==> db.rows[row].job == k)
             case OpNone => true
             case _ => false
    ensures StillWaits(db, Do(db, op), j, id)
  {
  }

  /** The job a process is about. */
  function JobOf(proc: Proc): nat {
    match proc
    case ChunkStart(d) => d.job
    case CancelCheck(d, _) => d.job
    case Claiming(d, _) => d.job
    case Rechecking(d, _, _) => d.job
    case HandingBack(d, _, _) => d.job
    case Handling(d, _, _) => d.job
    case Dispatching(d) => d.job
    case FinaliseCheck(k) => k
    case FinaliseRead(k) => k
    case FinaliseCas(k, _) => k
    case PendingRead(k, _, _) => k
    case CancelCas(k, _) => k
    case Announcing(k, _) => k
    case FailingDispatch(k) => k
    case CancelFlagging(k) => k
    case CancelPendingRead(k) => k
    case Resuming(k) => k
    case Requeueing(k, _) => k
  }

  lemma WorkIsOnItsJob(proc: Proc, j: nat)
    ensures WorksOn(proc, j) ==> JobOf(proc) == j
    ensures JobOf(proc) == j && !WorksOn(proc, j) ==> proc.Announcing? || proc.CancelFlagging? || proc.CancelPendingRead?
  {
  }

  lemma TurnStaysOnItsJob(db: Db, proc: Proc, c: Choice)
    ensures var move := Turn(db, proc, c); move.next.Some? ==> JobOf(move.next.value) == JobOf(proc)
  {
  }

  lemma TurnWritesItsJob(db: Db, proc: Proc, c: Choice)
    requires ProcOk(db, proc)
    ensures match Turn(db, proc, c).op
            case OpMarkRunning(m) => m == JobOf(proc)
            case OpClose(m, _) => m == JobOf(proc)
            case OpCancelFlag(m) => m == JobOf(proc)
            case OpClaim(row, _) => row in db.rows ==> db.rows[row].job == JobOf(proc)
            case OpSettle(row, m, _, _, _) => m == JobOf(proc) && (row in db.rows ==> db.rows[row].job == JobOf(proc))
            case OpNone => true
            case _ => false
  {
  }

  /** What an idle cancel handler does about a job with waiting rows: it sets the flag, and gives up. */
  lemma CancelHandlerGivesUp(db: Db, proc: Proc, c: Choice, j: nat, id: nat)
    requires JobOf(proc) == j && !WorksOn(proc, j)
    requires id in db.rows && db.rows[id].job == j && db.rows[id].status.RowPending?
    ensures var move := Turn(db, proc, c);
            && (move.op == OpNone || move.op == OpCancelFlag(j))
            && (move.next.Some? ==> !WorksOn(move.next.value, j))
  {
    assert id in WithStatus(db.rows, j, RowPending);
  }

  /** A worker whose counters are out of date leaves the job alone. */
  lemma LateReaderGivesUp(db: Db, proc: Proc, c: Choice)
    requires proc.PendingRead? && ProcOk(db, proc) && proc.processed < |SettledRows(db.rows, proc.job)|
    ensures Turn(db, proc, c) == Move(OpNone, None)
  {
    SettledAndWaiting(db.rows, proc.job);
  }

  lemma SettledAndWaiting(rows: map<nat, Row>, j: nat)
    ensures |SettledRows(rows, j)| + |WithStatus(rows, j, RowPending)| + |WithStatus(rows, j, Processing)| == |RowsOf(rows, j)|
  {
    var settled, waiting, held := SettledRows(rows, j), WithStatus(rows, j, RowPending), WithStatus(rows, j, Processing);
    DisjointUnionSize(settled, waiting);
    DisjointUnionSize(settled + waiting, held);
    assert settled + waiting + held == RowsOf(rows, j);
  }

  /** Settling rows only makes counters older. */
  lemma CarryingIsNotRegained(a: Db, b: Db, proc: Proc, j: nat)
    requires Evolves(a, b) && j in a.jobs && !Carries(a, proc, j)
    ensures !Carries(b, proc, j)
  {
    SettledRowsGrow(a, b, j);
    SubsetSize(SettledRows(a.rows, j), SettledRows(b.rows, j));
  }

  lemma TurnLeavesStranded(s: State, p: nat, c: Choice, j: nat, id: nat)
    requires BatchPipeline.Inv(s) && Stranded(s, j, id) && p in s.procs
    ensures StillWaits(s.db, MoveProc(s, p, c).db, j, id)
    ensures Turn(s.db, s.procs[p], c).next.Some? ==> !WorksOn(Turn(s.db, s.procs[p], c).next.value, j)
  {
    assert !Carries(s.db, s.procs[p], j);
    var proc := s.procs[p];
    var move := Turn(s.db, proc, c);
    assert ProcOk(s.db, proc);
    WorkIsOnItsJob(proc, j);
    TurnStaysOnItsJob(s.db, proc, c);
    if JobOf(proc) == j {
      if WorksOn(proc, j) {
        LateReaderGivesUp(s.db, proc, c);
      } else {
        CancelHandlerGivesUp(s.db, proc, c, j, id);
      }
      SharedStatementsLeaveWaiting(s.db, move.op, j, id);
    } else {
      TurnWritesItsJob(s.db, proc, c);
      OtherJobsLeaveWaiting(s.db, move.op, j, id, JobOf(proc));
      if move.next.Some? {
        WorkIsOnItsJob(move.next.value, j);
      }
    }
  }

  lemma ArrivalsAreElsewhere(s: State, step: Step, j: nat, id: nat)
    requires Stranded(s, j, id) && Arrival(s, step).Some? && Arrival(s, step).value.1.Some?
    ensures !WorksOn(Arrival(s, step).value.1.value, j)
  {
    assert !AllSettled(s.db.rows, j);
  }

  lemma StatementLeavesStranded(s: State, op: Op, j: nat, id: nat)
    requires Stranded(s, j, id) && StillWaits(s.db, Do(s.db, op), j, id) && Evolves(s.db, Do(s.db, op))
    ensures Stranded(Execute(s, op), j, id)
  {
    forall p | p in s.procs
      ensures !Carries(Do(s.db, op), s.procs[p], j)
    {
      CarryingIsNotRegained(s.db, Do(s.db, op), s.procs[p], j);
    }
  }

  lemma PlaceLeavesStranded(s: State, p: nat, next: Option<Proc>, j: nat, id: nat)
    requires Stranded(s, j, id) && (next.Some? ==> !WorksOn(next.value, j))
    ensures Stranded(Place(s, p, next), j, id)
  {
  }

  lemma TurnEvolves(db: Db, proc: Proc, c: Choice)
    requires WellFormed(db) && ProcOk(db, proc)
    ensures Evolves(db, Do(db, Turn(db, proc, c).op))
  {
    TurnIsLegal(db, proc, c);
    DoEvolves(db, Turn(db, proc, c).op);
  }

  lemma RecordIsHistory(s: State, proc: Proc)
    ensures var r := Record(s, proc); r.db == s.db && r.procs == s.procs && r.queue == s.queue
  {
  }

  lemma AdvanceLeavesStranded(s: State, p: nat, c: Choice, j: nat, id: nat)
    requires BatchPipeline.Inv(s) && Stranded(s, j, id) && p in s.procs
    ensures Stranded(MoveProc(s, p, c), j, id)
  {
    var move := Turn(s.db, s.procs[p], c);
    TurnLeavesStranded(s, p, c, j, id);
    TurnEvolves(s.db, s.procs[p], c);
    var recorded := Record(s, s.procs[p]);
    RecordIsHistory(s, s.procs[p]);
    StatementLeavesStranded(recorded, move.op, j, id);
    PlaceLeavesStranded(Execute(recorded, move.op), p, move.next, j, id);
  }

  lemma SubmitLeavesStranded(s: State, p: nat, mode: Mode, entities: seq<string>, now: int, j: nat, id: nat)
    requires BatchPipeline.Inv(s) && Stranded(s, j, id)
    ensures Stranded(Apply(s, Submit(p, mode, entities, now)), j, id)
  {
    var op := OpCreate(mode, entities, now);
    DoEvolves(s.db, op);
    SharedStatementsLeaveWaiting(s.db, op, j, id);
    StatementLeavesStranded(s, op, j, id);
    var d := Dispatch(s.db.nextJob, CreatedRows(s.db, |entities|));
    PlaceLeavesStranded(Execute(s, op), p, Some(if mode.Sync? then ChunkStart(d) else Dispatching(d)), j, id);
  }

  lemma SharedLeaveStranded(s: State, op: Op, j: nat, id: nat)
    requires BatchPipeline.Inv(s) && Stranded(s, j, id) && (op.OpReset? || op.OpAbandon? || op.OpRecount?)
    ensures Stranded(Execute(s, op), j, id)
  {
    DoEvolves(s.db, op);
    SharedStatementsLeaveWaiting(s.db, op, j, id);
    StatementLeavesStranded(s, op, j, id);
  }

  lemma EnqueueLeavesStranded(s: State, p: nat, k: nat, chunk: seq<nat>, j: nat, id: nat)
    requires Stranded(s, j, id)
    ensures Stranded(Apply(s, Enqueue(p, k, chunk)), j, id)
  {
    if p in s.procs && HandsOut(s.procs[p], k, chunk) {
      assert !Carries(s.db, s.procs[p], j);
    }
  }

  lemma ArrivalLeavesStranded(s: State, step: Step, j: nat, id: nat)
    requires Stranded(s, j, id) && Arrives(step)
    ensures Stranded(Apply(s, step), j, id)
  {
    var arrival := Arrival(s, step);
    if arrival.Some? {
      if arrival.value.1.Some? {
        ArrivalsAreElsewhere(s, step, j, id);
      }
      PlaceLeavesStranded(s, arrival.value.0, arrival.value.1, j, id);
    }
  }

  lemma StrandedStays(s: State, step: Step, j: nat, id: nat)
    requires BatchPipeline.Inv(s) && Stranded(s, j, id)
    ensures Stranded(Apply(s, step), j, id)
  {
    match step
    case Submit(p, mode, entities, now) => SubmitLeavesStranded(s, p, mode, entities, now, j, id);
    case Advance(p, c) => if p in s.procs { AdvanceLeavesStranded(s, p, c, j, id); }
    case Reset(cutoff, now) => SharedLeaveStranded(s, OpReset(cutoff, now), j, id);
    case Abandon(now) => SharedLeaveStranded(s, OpAbandon(now), j, id);
    case Recount => SharedLeaveStranded(s, OpRecount, j, id);
    case Enqueue(p, k, chunk) => EnqueueLeavesStranded(s, p, k, chunk, j, id);
    case Lose(d) =>
    case _ => ArrivalLeavesStranded(s, step, j, id);
  }

  lemma {:induction false} StrandedIsForever(s: State, steps: seq<Step>, j: nat, id: nat)
    requires BatchPipeline.Inv(s) && Stranded(s, j, id)
    ensures Stranded(BatchPipeline.Run(s, steps), j, id)
    decreases |steps|
  {
    if steps != [] {
      ApplyKeepsInv(s, steps[0]);
      StrandedStays(s, steps[0], j, id);
      StrandedIsForever(Apply(s, steps[0]), steps[1..], j, id);
    }
  }

  // ----- reachable continuations, one step at a time -----

  ghost predicate Reaches(s: State, t: State) {
    exists steps :: BatchPipeline.Run(s, steps) == t
  }

  lemma {:induction false} RunAppend(s: State, steps: seq<Step>, step: Step)
    ensures BatchPipeline.Run(s, steps + [step]) == Apply(BatchPipeline.Run(s, steps), step)
    decreases |steps|
  {
    if steps == [] {
      assert [step][1..] == [];
      assert BatchPipeline.Run(s, [step]) == BatchPipeline.Run(Apply(s, step), []);
    } else {
      RunAppend(Apply(s, steps[0]), steps[1..], step);
      assert (steps + [step])[1..] == steps[1..] + [step];
    }
  }

  lemma ReachesItself(s: State)
    ensures Reaches(s, s)
  {
    assert BatchPipeline.Run(s, []) == s;
  }

  lemma ReachOn(s: State, t: State, step: Step)
    requires Reaches(s, t)
    ensures Reaches(s, Apply(t, step))
  {
    var steps :| BatchPipeline.Run(s, steps) == t;
    RunAppend(s, steps, step);
  }

  lemma ReachedIsOk(s: State, t: State)
    requires BatchPipeline.Inv(s) && Reaches(s, t)
    ensures BatchPipeline.Inv(t)
  {
    var steps :| BatchPipeline.Run(s, steps) == t;
    BatchPipeline.RunKeepsInv(s, steps);
  }

  /** One statement of process p. */
  lemma Turned(s: State, t: State, p: nat, c: Choice) returns (u: State)
    requires Reaches(s, t) && p in t.procs
    ensures Reaches(s, u)
    ensures var move := Turn(t.db, t.procs[p], c);
            u.db == Do(t.db, move.op) && (move.next.Some? ==> p in u.procs && u.procs[p] == move.next.value)
  {
    u := Apply(t, Advance(p, c));
    ReachOn(s, t, Advance(p, c));
  }

  /** The same, where the statement is known. */
  lemma TurnedTo(s: State, t: State, p: nat, proc: Proc, move: Move) returns (u: State)
    requires Reaches(s, t) && p in t.procs && t.procs[p] == proc && move == Turn(t.db, proc, Any)
    ensures Reaches(s, u) && u.db == Do(t.db, move.op) && (move.next.Some? ==> p in u.procs && u.procs[p] == move.next.value)
  {
    u := Turned(s, t, p, Any);
  }

  /** A process put in place, or taken away. */
  lemma Arrived(s: State, t: State, step: Step) returns (u: State)
    requires Reaches(s, t) && Arrives(step) && Arrival(t, step).Some?
    ensures Reaches(s, u) && u.db == t.db && u.queue == t.queue
    ensures var (p, next) := Arrival(t, step).value;
            u.procs == if next.Some? then t.procs[p := next.value] else t.procs - {p}
  {
    u := Apply(t, step);
    ReachOn(s, t, step);
  }

  const Any := Choice(0, Success, true, false)

  // ----- closing without a worker -----

  lemma CancelRequested(s: State, t: State, j: nat, p: nat) returns (u: State)
    requires Reaches(s, t) && CanClose(t.db, j) && p !in t.procs
    ensures Reaches(s, u) && u.db == t.db && u.queue == t.queue && u.procs == t.procs[p := CancelFlagging(j)]
  {
    u := Arrived(s, t, RequestCancel(p, j));
  }

  lemma CancelDecided(s: State, t: State, j: nat, p: nat) returns (u: State)
    requires Reaches(s, t) && p in t.procs && t.procs[p] == CancelPendingRead(j) && WithStatus(t.db.rows, j, RowPending) == {}
    ensures Reaches(s, u) && u.db == t.db && p in u.procs && u.procs[p] == CancelCas(j, false)
  {
    OnlyPendingReadDecides(t.db, j);
    u := Turned(s, t, p, Any);
  }

  lemma OnlyPendingReadDecides(db: Db, j: nat)
    requires WithStatus(db.rows, j, RowPending) == {}
    ensures Turn(db, CancelPendingRead(j), Any) == Move(OpNone, Some(CancelCas(j, false)))
  {
  }

  /** A cancel request closes an open job that has no waiting row. */
  lemma CancelClosesIdleJob(s: State, j: nat, p: nat) returns (t: State)
    requires CanClose(s.db, j) && WithStatus(s.db.rows, j, RowPending) == {} && p !in s.procs
    ensures Reaches(s, t) && j in t.db.jobs && t.db.jobs[j].status == Cancelled
  {
    ReachesItself(s);
    t := CancelRequested(s, s, j, p);
    t := CancelFlagged(s, t, j, p);
    t := CancelDecided(s, t, j, p);
    t := CancelWritten(s, t, j, p);
  }

  lemma CancelFlagged(s: State, t: State, j: nat, p: nat) returns (u: State)
    requires Reaches(s, t) && p in t.procs && t.procs[p] == CancelFlagging(j)
    ensures Reaches(s, u) && u.db == SetCancelRequested(t.db, j) && u.procs == t.procs[p := CancelPendingRead(j)] && u.queue == t.queue
  {
    u := Apply(t, Advance(p, Any));
    ReachOn(s, t, Advance(p, Any));
  }

  lemma CancelWritten(s: State, t: State, j: nat, p: nat) returns (u: State)
    requires Reaches(s, t) && p in t.procs && t.procs[p] == CancelCas(j, false) && CanClose(t.db, j)
    ensures Reaches(s, u) && j in u.db.jobs && u.db.jobs[j].status == Cancelled
  {
    u := Turned(s, t, p, Any);
  }

  ghost predicate Finished(db: Db, j: nat) {
    j in db.jobs && Terminal(db.jobs[j].status) && AllSettled(db.rows, j) && db.jobs[j].status == VerdictOfRows(db.rows, j)
  }

  /** A finaliser that stands before its read closes the job with the verdict of its rows. */
  lemma FinaliserCloses(s: State, t: State, j: nat, p: nat) returns (u: State)
    requires Reaches(s, t) && p in t.procs && t.procs[p] == FinaliseRead(j) && CanClose(t.db, j)
    requires AllSettled(t.db.rows, j) && VerdictOfHeader(t.db.jobs[j]) == VerdictOfRows(t.db.rows, j)
    ensures Reaches(s, u) && Finished(u.db, j)
  {
    VerdictIsTerminal(t.db.rows, j);
    u := Turned(s, t, p, Any);
    u := Turned(s, u, p, Any);
    assert u.db.rows == t.db.rows;
  }

  // ----- closing by the reconciler and a worker -----

  /** Every row of the job is settled or waits in the rest of the chunk. */
  ghost predicate OnlyRestWaits(db: Db, j: nat, d: Dispatch, i: nat) {
    i <= |d.rows| && forall id :: id in db.rows && db.rows[id].job == j ==>
      SettledStatus(db.rows[id].status) || (db.rows[id].status.RowPending? && id in d.rows[i..])
  }

  ghost predicate AtRow(t: State, j: nat, p: nat, d: Dispatch, i: nat) {
    && p in t.procs && t.procs[p] == CancelCheck(d, i) && d.job == j
    && CanClose(t.db, j) && !t.db.jobs[j].cancelRequested && OnlyRestWaits(t.db, j, d, i)
    && forall id :: id in d.rows ==> id in t.db.rows && t.db.rows[id].job == j
  }

  lemma RestShrinks(db: Db, after: Db, j: nat, d: Dispatch, i: nat)
    requires OnlyRestWaits(db, j, d, i) && i < |d.rows|
    requires after.rows.Keys == db.rows.Keys && d.rows[i] in db.rows
    requires forall id :: id in db.rows ==> after.rows[id].job == db.rows[id].job
    requires forall id :: id in db.rows && id != d.rows[i] ==> after.rows[id].status == db.rows[id].status
    requires SettledStatus(after.rows[d.rows[i]].status)
    ensures OnlyRestWaits(after, j, d, i + 1)
  {
    assert d.rows[i..] == [d.rows[i]] + d.rows[i + 1..];
  }

  lemma ClaimAndSettle(db: Db, j: nat, d: Dispatch, i: nat)
    requires OnlyRestWaits(db, j, d, i) && i < |d.rows| && CanClaim(db, d.rows[i]) && CanClose(db, j)
    ensures var id := d.rows[i]; var claimed := ClaimRow(db, id, 0); var after := SettleRow(claimed, id, j, db.rows[id].token + 1, Success, 0);
            && claimed.jobs == db.jobs && claimed.rows[id].status.Processing?
            && OnlyRestWaits(after, j, d, i + 1) && CanClose(after, j) && after.jobs[j].cancelRequested == db.jobs[j].cancelRequested
            && after.rows.Keys == db.rows.Keys && forall k :: k in db.rows ==> after.rows[k].job == db.rows[k].job
  {
    var id := d.rows[i];
    var after := SettleRow(ClaimRow(db, id, 0), id, j, db.rows[id].token + 1, Success, 0);
    RestShrinks(db, after, j, d, i);
  }

  lemma ClaimNext(s: State, t: State, j: nat, p: nat, d: Dispatch, i: nat) returns (u: State)
    requires Reaches(s, t) && p in t.procs && t.procs[p] == CancelCheck(d, i) && i < |d.rows| && d.job == j && !CancelWanted(t.db, j)
    ensures Reaches(s, u) && u.db == t.db && p in u.procs && u.procs[p] == Claiming(d, i)
  {
    u := Turned(s, t, p, Any);
  }

  lemma ClaimMissed(s: State, t: State, p: nat, d: Dispatch, i: nat) returns (u: State)
    requires Reaches(s, t) && p in t.procs && t.procs[p] == Claiming(d, i) && i < |d.rows| && !CanClaim(t.db, d.rows[i])
    ensures Reaches(s, u) && u.db == t.db && p in u.procs && u.procs[p] == CancelCheck(d, i + 1)
  {
    u := Turned(s, t, p, Any);
  }

  lemma ClaimLands(s: State, t: State, p: nat, d: Dispatch, i: nat) returns (u: State)
    requires Reaches(s, t) && p in t.procs && t.procs[p] == Claiming(d, i) && i < |d.rows| && CanClaim(t.db, d.rows[i])
    ensures Reaches(s, u) && u.db == ClaimRow(t.db, d.rows[i], 0)
    ensures p in u.procs && u.procs[p] == Rechecking(d, i, t.db.rows[d.rows[i]].token + 1)
  {
    u := Turned(s, t, p, Any);
  }

  lemma RowHandled(s: State, t: State, p: nat, d: Dispatch, i: nat, token: nat) returns (u: State)
    requires Reaches(s, t) && p in t.procs && t.procs[p] == Rechecking(d, i, token) && i < |d.rows| && !CancelWanted(t.db, d.job)
    ensures Reaches(s, u) && u.db == SettleRow(t.db, d.rows[i], d.job, token, Success, 0)
    ensures p in u.procs && u.procs[p] == CancelCheck(d, i + 1)
  {
    u := TurnedTo(s, t, p, Rechecking(d, i, token), Move(OpNone, Some(Handling(d, i, token))));
    u := TurnedTo(s, u, p, Handling(d, i, token), Move(OpSettle(d.rows[i], d.job, token, Success, 0), Some(CancelCheck(d, i + 1))));
  }

  /** The claim, the second cancel check and the settlement of one waiting row. */
  lemma WorkOffRow(s: State, t: State, j: nat, p: nat, d: Dispatch, i: nat) returns (u: State)
    requires Reaches(s, t) && AtRow(t, j, p, d, i) && i < |d.rows| && CanClaim(t.db, d.rows[i])
    ensures Reaches(s, u) && AtRow(u, j, p, d, i + 1)
  {
    ClaimAndSettle(t.db, j, d, i);
    u := ClaimNext(s, t, j, p, d, i);
    u := ClaimLands(s, u, p, d, i);
    u := RowHandled(s, u, p, d, i, t.db.rows[d.rows[i]].token + 1);
  }

  lemma SkipRow(s: State, t: State, j: nat, p: nat, d: Dispatch, i: nat) returns (u: State)
    requires Reaches(s, t) && AtRow(t, j, p, d, i) && i < |d.rows| && !CanClaim(t.db, d.rows[i])
    ensures Reaches(s, u) && AtRow(u, j, p, d, i + 1)
  {
    u := ClaimNext(s, t, j, p, d, i);
    u := ClaimMissed(s, u, p, d, i);
    assert d.rows[i..] == [d.rows[i]] + d.rows[i + 1..];
  }

  lemma {:induction false} WorkOffChunk(s: State, t: State, j: nat, p: nat, d: Dispatch, i: nat) returns (u: State)
    requires Reaches(s, t) && AtRow(t, j, p, d, i)
    ensures Reaches(s, u) && AtRow(u, j, p, d, |d.rows|)
    decreases |d.rows| - i
  {
    u := t;
    if i < |d.rows| {
      if CanClaim(t.db, d.rows[i]) {
        u := WorkOffRow(s, t, j, p, d, i);
      } else {
        u := SkipRow(s, t, j, p, d, i);
      }
      u := WorkOffChunk(s, u, j, p, d, i + 1);
    }
  }

  lemma ReadyToFinalise(t: State, j: nat)
    requires BatchPipeline.Inv(t) && CanClose(t.db, j)
    ensures VerdictOfHeader(t.db.jobs[j]) == VerdictOfRows(t.db.rows, j)
    ensures AllSettled(t.db.rows, j) ==> t.db.jobs[j].processed >= t.db.jobs[j].total
  {
    HeaderVerdictIsRowVerdict(t.db, j);
    CountedJobIsSettled(t.db, j);
    if AllSettled(t.db.rows, j) {
      assert SettledRows(t.db.rows, j) == RowsOf(t.db.rows, j);
    }
  }

  /** At the end of the chunk everything is settled, and the worker closes the job. */
  lemma WorkerCloses(s: State, t: State, j: nat, p: nat, d: Dispatch) returns (u: State)
    requires BatchPipeline.Inv(s) && Reaches(s, t) && AtRow(t, j, p, d, |d.rows|)
    ensures Reaches(s, u) && Finished(u.db, j)
  {
    assert AllSettled(t.db.rows, j);
    ReachedIsOk(s, t);
    ReadyToFinalise(t, j);
    u := WorkerReads(s, t, j, p, d);
    u := FinaliserCloses(s, u, j, p);
  }

  lemma WorkerReads(s: State, t: State, j: nat, p: nat, d: Dispatch) returns (u: State)
    requires Reaches(s, t) && AtRow(t, j, p, d, |d.rows|) && t.db.jobs[j].processed >= t.db.jobs[j].total
    ensures Reaches(s, u) && u.db == t.db && p in u.procs && u.procs[p] == FinaliseRead(j)
  {
    u := Turned(s, t, p, Any);
    assert u.procs[p] == FinaliseCheck(j) && u.db == t.db;
    u := Turned(s, u, p, Any);
  }

  lemma {:induction false} Listed(ids: set<nat>) returns (list: seq<nat>)
    ensures forall id :: id in list <==> id in ids
    decreases ids
  {
    list := [];
    if ids != {} {
      var id :| id in ids;
      list := Listed(ids - {id});
      list := [id] + list;
    }
  }

  lemma {:induction false} LateCutoff(rows: map<nat, Row>, ids: set<nat>) returns (cutoff: int)
    requires ids <= rows.Keys
    ensures forall id :: id in ids ==> rows[id].updatedAt < cutoff
    decreases ids
  {
    cutoff := 0;
    if ids != {} {
      var id :| id in ids;
      var rest := LateCutoff(rows, ids - {id});
      cutoff := Max(rest, rows[id].updatedAt + 1);
    }
  }

  lemma {:induction false} FreeProcess(ids: set<nat>) returns (p: nat)
    ensures forall q :: q in ids ==> q < p
    decreases ids
  {
    p := 0;
    if ids != {} {
      var id :| id in ids;
      var rest := FreeProcess(ids - {id});
      p := Max(rest, id + 1);
      assert forall q :: q in ids ==> q == id || q in ids - {id};
    }
  }

  lemma ResetFreesAll(db: Db, j: nat, cutoff: int)
    requires CanClose(db, j) && forall id :: id in db.rows ==> db.rows[id].updatedAt < cutoff
    ensures WithStatus(ResetStuckRows(db, cutoff, cutoff).rows, j, Processing) == {}
  {
  }

  /** A reset late enough leaves no row of an open job in flight. */
  lemma ResetAll(s: State, t: State, j: nat) returns (u: State)
    requires Reaches(s, t) && CanClose(t.db, j)
    ensures Reaches(s, u) && u.procs == t.procs && u.queue == t.queue && u.db.jobs == t.db.jobs
    ensures WithStatus(u.db.rows, j, Processing) == {}
    ensures SettledRows(u.db.rows, j) == SettledRows(t.db.rows, j) && RowsOf(u.db.rows, j) == RowsOf(t.db.rows, j)
  {
    var cutoff := LateCutoff(t.db.rows, t.db.rows.Keys);
    ReachOn(s, t, Reset(cutoff, cutoff));
    u := Apply(t, Reset(cutoff, cutoff));
    ResetFreesAll(t.db, j, cutoff);
    ResetKeepsSettled(t.db, j, cutoff);
  }

  lemma ResetKeepsSettled(db: Db, j: nat, cutoff: int)
    ensures var after := ResetStuckRows(db, cutoff, cutoff);
            SettledRows(after.rows, j) == SettledRows(db.rows, j) && RowsOf(after.rows, j) == RowsOf(db.rows, j)
  {
  }

  lemma Queued(s: State, t: State, p: nat, j: nat, chunk: seq<nat>) returns (u: State)
    requires Reaches(s, t) && p in t.procs && HandsOut(t.procs[p], j, chunk)
    ensures Reaches(s, u) && u.db == t.db && u.procs == t.procs && Dispatch(j, chunk) in u.queue
  {
    ReachOn(s, t, Enqueue(p, j, chunk));
    u := Apply(t, Enqueue(p, j, chunk));
  }

  lemma Resumed(s: State, t: State, j: nat, p: nat) returns (u: State)
    requires Reaches(s, t) && CanClose(t.db, j) && Resumable(t.db.jobs[j]) && p !in t.procs
    requires WithStatus(t.db.rows, j, RowPending) != {}
    ensures Reaches(s, u) && u.db == t.db && p in u.procs && u.procs[p] == Resuming(j)
  {
    u := Arrived(s, t, Resume(p, j));
  }

  /** The reconciler reads the waiting rows of the job. */
  lemma ReadWaiting(s: State, t: State, j: nat, p: nat) returns (u: State)
    requires Reaches(s, t) && p in t.procs && t.procs[p] == Resuming(j) && WithStatus(t.db.rows, j, RowPending) != {}
    ensures Reaches(s, u) && u.db == t.db && p in u.procs
    ensures u.procs[p] == Requeueing(j, WithStatus(t.db.rows, j, RowPending))
  {
    u := TurnedTo(s, t, p, Resuming(j), Move(OpNone, Some(Requeueing(j, WithStatus(t.db.rows, j, RowPending)))));
  }

  /** It hands them out in one chunk, and a worker takes it. */
  lemma HandOut(s: State, t: State, j: nat, p: nat) returns (u: State, d: Dispatch)
    requires Reaches(s, t) && CanClose(t.db, j) && Resumable(t.db.jobs[j]) && p !in t.procs
    requires WithStatus(t.db.rows, j, Processing) == {} && WithStatus(t.db.rows, j, RowPending) != {}
    ensures Reaches(s, u) && AtRow(u, j, p, d, 0)
  {
    var chunk := Listed(WithStatus(t.db.rows, j, RowPending));
    d := Dispatch(j, chunk);
    u := Resumed(s, t, j, p);
    u := ReadWaiting(s, u, j, p);
    u := Queued(s, u, p, j, chunk);
    u := Arrived(s, u, EnqueueDone(p));
    u := Arrived(s, u, Deliver(p, d));
    assert u.procs[p] == ChunkStart(d) && u.db == t.db;
    WaitingRowsAreListed(t.db, j, d);
    u := Turned(s, u, p, Any);
  }

  lemma WaitingRowsAreListed(db: Db, j: nat, d: Dispatch)
    requires WithStatus(db.rows, j, Processing) == {} && CanClose(db, j) && !db.jobs[j].cancelRequested
    requires forall id :: id in d.rows <==> id in WithStatus(db.rows, j, RowPending)
    ensures var after := MarkJobRunning(db, j);
            OnlyRestWaits(after, j, d, 0) && CanClose(after, j) && !after.jobs[j].cancelRequested && after.rows == db.rows
    ensures forall id :: id in d.rows ==> id in db.rows && db.rows[id].job == j
  {
    assert d.rows[0..] == d.rows;
    forall id | id in db.rows && db.rows[id].job == j
      ensures SettledStatus(db.rows[id].status) || (db.rows[id].status.RowPending? && id in d.rows)
    {
      assert id !in WithStatus(db.rows, j, Processing);
      assert db.rows[id].status.RowPending? ==> id in WithStatus(db.rows, j, RowPending);
    }
  }

  lemma NothingWaitsOrRuns(rows: map<nat, Row>, j: nat)
    requires WithStatus(rows, j, Processing) == {} && WithStatus(rows, j, RowPending) == {}
    ensures AllSettled(rows, j)
  {
    forall id | id in rows && rows[id].job == j
      ensures SettledStatus(rows[id].status)
    {
      assert id !in WithStatus(rows, j, RowPending) && id !in WithStatus(rows, j, Processing);
    }
  }

  /**
   * From every reachable state the reconciler and a worker can still finish an
   * open asynchronous job that nobody asked to cancel: every row ends settled and
   * the job closed with the verdict of its rows.
   */
  lemma ResumableJobCanBeFinished(s: State, j: nat) returns (u: State)
    requires BatchPipeline.Inv(s) && CanClose(s.db, j) && Resumable(s.db.jobs[j])
    ensures Reaches(s, u) && Finished(u.db, j)
  {
    var p := FreeProcess(s.procs.Keys);
    ReachesItself(s);
    var t := ResetAll(s, s, j);
    if WithStatus(t.db.rows, j, RowPending) == {} {
      NothingWaitsOrRuns(t.db.rows, j);
      ReachedIsOk(s, t);
      ReadyToFinalise(t, j);
      u := Arrived(s, t, FinaliseSwept(p, j));
      u := FinaliserCloses(s, u, j, p);
    } else {
      var d;
      u, d := HandOut(s, t, j, p);
      u := WorkOffChunk(s, u, j, p, d, 0);
      u := WorkerCloses(s, u, j, p, d);
    }
  }

  // ----- main results -----

  ghost predicate CanStillClose(s: State, j: nat) {
    exists t :: Reaches(s, t) && !CanClose(t.db, j)
  }

  lemma StrandedCannotClose(s: State, j: nat, id: nat)
    requires BatchPipeline.Inv(s) && Stranded(s, j, id)
    ensures !CanStillClose(s, j)
  {
    forall t | Reaches(s, t)
      ensures CanClose(t.db, j)
    {
      var steps :| BatchPipeline.Run(s, steps) == t;
      StrandedIsForever(s, steps, j, id);
    }
  }
}
