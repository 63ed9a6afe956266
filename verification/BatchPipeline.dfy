/**
 * The batch-operation pipeline as interleaved processes over the two tables:
 * submissions, chunk workers, cancel requests and the reconciler. One step is
 * one statement or transaction of one process; processes may crash anywhere,
 * queue messages may be delivered any number of times until they are consumed
 * or lost, and several workers may hold the same rows.
 */
module BatchPipeline {
  import opened Common
  import opened BatchTables
  import Fencing

  datatype Dispatch = Dispatch(job: nat, rows: seq<nat>)

  /** Where a process stands, with the values it has read so far. */
  datatype Proc =
    | ChunkStart(d: Dispatch)
    | CancelCheck(d: Dispatch, i: nat)
    | Claiming(d: Dispatch, i: nat)
    | Rechecking(d: Dispatch, i: nat, token: nat)
    | HandingBack(d: Dispatch, i: nat, token: nat)
    | Handling(d: Dispatch, i: nat, token: nat)
    | FinaliseCheck(job: nat)
    | FinaliseRead(job: nat)
    | FinaliseCas(job: nat, verdict: JobStatus)
    | PendingRead(job: nat, processed: nat, total: nat)
    | CancelCas(job: nat, announce: bool)
    | Announcing(job: nat, status: JobStatus)
    | Dispatching(d: Dispatch)
    | FailingDispatch(job: nat)
    | CancelFlagging(job: nat)
    | CancelPendingRead(job: nat)
    | Resuming(job: nat)
    | Requeueing(job: nat, rows: set<nat>)

  datatype Event = JobCompletedEvent(job: nat, status: JobStatus)

  /**
   * `ops`, `closed` and `events` are history: the statements executed so far,
   * the verdicts written by finaliseJob, and the completion events written.
   */
  datatype State = State(
    db: Db,
    queue: set<Dispatch>,
    procs: map<nat, Proc>,
    ops: seq<Op>,
    closed: map<nat, JobStatus>,
    events: seq<Event>)

  const Initial := State(EmptyDb, {}, map[], [], map[], [])

  /** What the environment decides when a process moves. */
  datatype Choice = Choice(now: int, outcome: Outcome, lands: bool, again: bool)

  datatype Step =
    | Submit(p: nat, mode: Mode, entities: seq<string>, now: int)
    | Enqueue(p: nat, job: nat, chunk: seq<nat>)
    | EnqueueDone(p: nat)
    | EnqueueFailed(p: nat)
    | Deliver(p: nat, d: Dispatch)
    | Lose(d: Dispatch)
    | Advance(p: nat, choice: Choice)
    | Crash(p: nat)
    | RequestCancel(p: nat, job: nat)
    | Reset(cutoff: int, now: int)
    | Abandon(now: int)
    | Recount
    | FinaliseSwept(p: nat, job: nat)
    | Resume(p: nat, job: nat)

  /** One statement of a process: what it writes and where it stands next. */
  datatype Move = Move(op: Op, next: Option<Proc>)

  predicate CancelWanted(db: Db, j: nat) {
    j in db.jobs && db.jobs[j].cancelRequested
  }

  function Turn(db: Db, proc: Proc, c: Choice): Move {
    match proc
    case ChunkStart(d) => Move(OpMarkRunning(d.job), Some(CancelCheck(d, 0)))
    case CancelCheck(d, i) =>
      if i < |d.rows| && !CancelWanted(db, d.job)
      then Move(OpNone, Some(Claiming(d, i)))
      else Move(OpNone, Some(FinaliseCheck(d.job)))
    case Claiming(d, i) =>
      if i < |d.rows| && CanClaim(db, d.rows[i])
      then Move(OpClaim(d.rows[i], c.now), Some(Rechecking(d, i, db.rows[d.rows[i]].token + 1)))
      else Move(OpNone, Some(CancelCheck(d, i + 1)))
    case Rechecking(d, i, token) =>
      Move(OpNone, Some(if CancelWanted(db, d.job) then HandingBack(d, i, token) else Handling(d, i, token)))
    case HandingBack(d, i, token) =>
      if i < |d.rows|
      then Move(OpSettle(d.rows[i], d.job, token, Skipped, c.now), Some(FinaliseCheck(d.job)))
      else Move(OpNone, None)
    case Handling(d, i, token) =>
      // A settlement that throws is retried as FAILED by the surrounding catch, whether or not it landed.
      if i < |d.rows|
      then Move(if c.lands then OpSettle(d.rows[i], d.job, token, c.outcome, c.now) else OpNone,
                Some(if c.again then proc else CancelCheck(d, i + 1)))
      else Move(OpNone, None)
    case FinaliseCheck(j) =>
      if !CanClose(db, j) then Move(OpNone, None)
      else if db.jobs[j].processed >= db.jobs[j].total then Move(OpNone, Some(FinaliseRead(j)))
      else if db.jobs[j].cancelRequested
      then Move(OpNone, Some(PendingRead(j, db.jobs[j].processed, db.jobs[j].total)))
      else Move(OpNone, None)
    case FinaliseRead(j) =>
      Move(OpNone, if j in db.jobs then Some(FinaliseCas(j, VerdictOfHeader(db.jobs[j]))) else None)
    case FinaliseCas(j, verdict) =>
      Move(OpClose(j, verdict), if CanClose(db, j) then Some(Announcing(j, verdict)) else None)
    case PendingRead(j, processed, total) =>
      Move(OpNone, if processed + |WithStatus(db.rows, j, RowPending)| >= total then Some(CancelCas(j, true)) else None)
    case CancelCas(j, announce) =>
      Move(OpClose(j, Cancelled), if CanClose(db, j) && announce then Some(Announcing(j, Cancelled)) else None)
    case Announcing(_, _) => Move(OpNone, None)
    case Dispatching(_) => Move(OpNone, Some(proc))
    case FailingDispatch(j) => Move(OpClose(j, JobFailed), None)
    case CancelFlagging(j) => Move(OpCancelFlag(j), Some(CancelPendingRead(j)))
    case CancelPendingRead(j) =>
      Move(OpNone, if WithStatus(db.rows, j, RowPending) == {} then Some(CancelCas(j, false)) else None)
    case Resuming(j) =>
      var pending := WithStatus(db.rows, j, RowPending);
      Move(OpNone, if pending == {} then None else Some(Requeueing(j, pending)))
    case Requeueing(_, _) => Move(OpNone, Some(proc))
  }

  function Execute(s: State, op: Op): State {
    s.(db := Do(s.db, op), ops := s.ops + [op])
  }

  function Place(s: State, p: nat, next: Option<Proc>): State {
    s.(procs := if next.Some? then s.procs[p := next.value] else s.procs - {p})
  }

  function Record(s: State, proc: Proc): State {
    match proc
    case FinaliseCas(j, verdict) => if CanClose(s.db, j) then s.(closed := s.closed[j := verdict]) else s
    case Announcing(j, status) => s.(events := s.events + [JobCompletedEvent(j, status)])
    case _ => s
  }

  function MoveProc(s: State, p: nat, c: Choice): State
    requires p in s.procs
  {
    var move := Turn(s.db, s.procs[p], c);
    Place(Execute(Record(s, s.procs[p]), move.op), p, move.next)
  }

  function CreatedRows(db: Db, n: nat): seq<nat> {
    seq(n, (i: nat) => db.nextRow + i)
  }

  /** The process, if any, that an arrival puts in place. */
  function Arrival(s: State, step: Step): Option<(nat, Option<Proc>)> {
    match step
    case EnqueueDone(p) =>
      if p in s.procs && (s.procs[p].Dispatching? || s.procs[p].Requeueing?) then Some((p, None)) else None
    case EnqueueFailed(p) =>
      // A submission fails its job; the reconciler goes on to the next job.
      if p in s.procs && s.procs[p].Dispatching? then Some((p, Some(FailingDispatch(s.procs[p].d.job))))
      else if p in s.procs && s.procs[p].Requeueing? then Some((p, None))
      else None
    case Deliver(p, d) =>
      if p !in s.procs && d in s.queue then Some((p, Some(ChunkStart(d)))) else None
    case Crash(p) => Some((p, None))
    case RequestCancel(p, j) =>
      if p !in s.procs && CanClose(s.db, j) then Some((p, Some(CancelFlagging(j)))) else None
    case FinaliseSwept(p, j) =>
      if p !in s.procs && CanClose(s.db, j) && s.db.jobs[j].mode.Async? && AllSettled(s.db.rows, j)
      then Some((p, Some(FinaliseRead(j)))) else None
    case Resume(p, j) =>
      if p !in s.procs && CanClose(s.db, j) && s.db.jobs[j].mode.Async? && !s.db.jobs[j].cancelRequested &&
         WithStatus(s.db.rows, j, RowPending) != {}
      then Some((p, Some(Resuming(j)))) else None
    case _ => None
  }

  /** The job of a process that is handing out chunks of these rows. */
  predicate HandsOut(proc: Proc, j: nat, chunk: seq<nat>) {
    match proc
    case Dispatching(d) => d.job == j && forall id :: id in chunk ==> id in d.rows
    case Requeueing(k, rows) => k == j && forall id :: id in chunk ==> id in rows
    case _ => false
  }

  function Apply(s: State, step: Step): State {
    match step
    case Submit(p, mode, entities, now) =>
      if p in s.procs || entities == [] then s
      else
        var d := Dispatch(s.db.nextJob, CreatedRows(s.db, |entities|));
        Place(Execute(s, OpCreate(mode, entities, now)), p, Some(if mode.Sync? then ChunkStart(d) else Dispatching(d)))
    case Enqueue(p, j, chunk) =>
      if p in s.procs && HandsOut(s.procs[p], j, chunk) then s.(queue := s.queue + {Dispatch(j, chunk)}) else s
    case Lose(d) => s.(queue := s.queue - {d})
    case Advance(p, c) => if p in s.procs then MoveProc(s, p, c) else s
    case Reset(cutoff, now) => Execute(s, OpReset(cutoff, now))
    case Abandon(now) => Execute(s, OpAbandon(now))
    case Recount => Execute(s, OpRecount)
    case _ =>
      var arrival := Arrival(s, step);
      if arrival.Some? then Place(s, arrival.value.0, arrival.value.1) else s
  }

  function Run(s: State, steps: seq<Step>): State
    decreases |steps|
  {
    if steps == [] then s else Run(Apply(s, steps[0]), steps[1..])
  }

  // ----- invariant -----

  ghost predicate DispatchOk(db: Db, d: Dispatch) {
    d.job in db.jobs && forall id :: id in d.rows ==> id in db.rows && db.rows[id].job == d.job
  }

  /** What a process relies on; every clause survives the steps of all others. */
  ghost predicate ProcOk(db: Db, proc: Proc) {
    match proc
    case ChunkStart(d) => DispatchOk(db, d)
    case CancelCheck(d, i) => DispatchOk(db, d)
    case Claiming(d, i) => DispatchOk(db, d)
    case Rechecking(d, i, _) => DispatchOk(db, d) && i < |d.rows|
    case HandingBack(d, i, _) => DispatchOk(db, d) && i < |d.rows|
    case Handling(d, i, _) => DispatchOk(db, d) && i < |d.rows|
    case Dispatching(d) => DispatchOk(db, d)
    case FinaliseRead(j) => j in db.jobs && AllSettled(db.rows, j)
    case FinaliseCas(j, v) => j in db.jobs && AllSettled(db.rows, j) && v == VerdictOfRows(db.rows, j)
    case PendingRead(j, processed, total) =>
      j in db.jobs && processed <= |SettledRows(db.rows, j)| && total == |RowsOf(db.rows, j)|
    case Announcing(j, status) => j in db.jobs && Terminal(status) && db.jobs[j].status == status
    case Resuming(j) => j in db.jobs
    case Requeueing(j, rows) => j in db.jobs && forall id :: id in rows ==> id in db.rows && db.rows[id].job == j
    case _ => true
  }

  ghost predicate ClosedOk(db: Db, closed: map<nat, JobStatus>) {
    forall j :: j in closed ==>
      && j in db.jobs && Terminal(closed[j]) && db.jobs[j].status == closed[j]
      && AllSettled(db.rows, j) && closed[j] == VerdictOfRows(db.rows, j)
      && By(db.rows, j, Skipped, true) == {}
  }

  /** Every written event carries its job's final status, and no job has two. */
  ghost predicate EventsOk(db: Db, events: seq<Event>) {
    && (forall i :: 0 <= i < |events| ==>
          events[i].job in db.jobs && Terminal(events[i].status) && db.jobs[events[i].job].status == events[i].status)
    && (forall i, k :: 0 <= i < k < |events| ==> events[i].job != events[k].job)
  }

  /** At most one process is about to write the event of a job, and only if none is written. */
  ghost predicate AnnouncersOk(procs: map<nat, Proc>, events: seq<Event>) {
    && (forall p, q :: p in procs && q in procs && p != q && procs[p].Announcing? && procs[q].Announcing?
          ==> procs[p].job != procs[q].job)
    && (forall p, i :: p in procs && procs[p].Announcing? && 0 <= i < |events| ==> events[i].job != procs[p].job)
  }

  ghost predicate QueueOk(db: Db, queue: set<Dispatch>) {
    forall d :: d in queue ==> DispatchOk(db, d)
  }

  ghost predicate ProcsOk(db: Db, procs: map<nat, Proc>) {
    forall p :: p in procs ==> ProcOk(db, procs[p])
  }

  ghost predicate HistoryOk(s: State) {
    s.db == BatchTables.Run(EmptyDb, s.ops) && LegalRun(EmptyDb, s.ops)
  }

  ghost predicate Inv(s: State) {
    && HistoryOk(s)
    && BatchTables.Inv(s.db)
    && QueueOk(s.db, s.queue)
    && ProcsOk(s.db, s.procs)
    && ClosedOk(s.db, s.closed)
    && EventsOk(s.db, s.events)
    && AnnouncersOk(s.procs, s.events)
  }

  // ----- stability -----

  lemma DispatchStable(a: Db, b: Db, d: Dispatch)
    requires Evolves(a, b) && DispatchOk(a, d)
    ensures DispatchOk(b, d)
  {
  }

  lemma ProcStable(a: Db, b: Db, proc: Proc)
    requires Evolves(a, b) && ProcOk(a, proc)
    ensures ProcOk(b, proc)
  {
    match proc
    case FinaliseRead(j) => SettledRowsGrow(a, b, j);
    case FinaliseCas(j, _) => SettledRowsGrow(a, b, j);
    case PendingRead(j, _, _) =>
      SettledRowsGrow(a, b, j);
      SubsetSize(SettledRows(a.rows, j), SettledRows(b.rows, j));
    case _ =>
  }

  lemma ClosedStable(a: Db, b: Db, closed: map<nat, JobStatus>)
    requires Evolves(a, b) && ClosedOk(a, closed)
    ensures ClosedOk(b, closed)
  {
    forall j | j in closed
      ensures j in b.jobs && b.jobs[j].status == closed[j] && AllSettled(b.rows, j) && closed[j] == VerdictOfRows(b.rows, j)
      ensures By(b.rows, j, Skipped, true) == {}
    {
      SettledRowsGrow(a, b, j);
      assert By(b.rows, j, Skipped, true) <= By(a.rows, j, Skipped, true);
    }
  }

  lemma EventsStable(a: Db, b: Db, events: seq<Event>)
    requires Evolves(a, b) && EventsOk(a, events)
    ensures EventsOk(b, events)
  {
  }

  lemma {:induction false} HistoryExtends(db: Db, ops: seq<Op>, op: Op)
    requires LegalRun(db, ops) && Legal(BatchTables.Run(db, ops), op)
    ensures LegalRun(db, ops + [op])
    ensures BatchTables.Run(db, ops + [op]) == Do(BatchTables.Run(db, ops), op)
    decreases |ops|
  {
    if ops == [] {
      assert [op][1..] == [];
      assert LegalRun(Do(db, op), []);
    } else {
      HistoryExtends(Do(db, ops[0]), ops[1..], op);
      assert (ops + [op])[1..] == ops[1..] + [op];
    }
  }

  lemma QueueStable(a: Db, b: Db, queue: set<Dispatch>)
    requires Evolves(a, b) && QueueOk(a, queue)
    ensures QueueOk(b, queue)
  {
    forall d | d in queue
      ensures DispatchOk(b, d)
    {
      DispatchStable(a, b, d);
    }
  }

  lemma ProcsStable(a: Db, b: Db, procs: map<nat, Proc>)
    requires Evolves(a, b) && ProcsOk(a, procs)
    ensures ProcsOk(b, procs)
  {
    forall p | p in procs
      ensures ProcOk(b, procs[p])
    {
      ProcStable(a, b, procs[p]);
    }
  }

  /** A legal statement of anybody keeps everything everybody relies on. */
  lemma ExecuteKeepsInv(s: State, op: Op)
    requires Inv(s) && Legal(s.db, op)
    ensures Inv(Execute(s, op)) && Evolves(s.db, Execute(s, op).db)
  {
    var db := Do(s.db, op);
    DoKeepsInv(s.db, op);
    HistoryExtends(EmptyDb, s.ops, op);
    QueueStable(s.db, db, s.queue);
    ProcsStable(s.db, db, s.procs);
    ClosedStable(s.db, db, s.closed);
    EventsStable(s.db, db, s.events);
  }

  lemma PlaceKeepsProcsOk(db: Db, procs: map<nat, Proc>, p: nat, proc: Proc)
    requires ProcsOk(db, procs) && ProcOk(db, proc)
    ensures ProcsOk(db, procs[p := proc])
  {
  }

  lemma PlaceKeepsAnnouncersOk(procs: map<nat, Proc>, events: seq<Event>, p: nat, proc: Proc)
    requires AnnouncersOk(procs, events) && !proc.Announcing?
    ensures AnnouncersOk(procs[p := proc], events)
  {
  }

  lemma PlaceKeepsInv(s: State, p: nat, next: Option<Proc>)
    requires Inv(s)
    requires next.Some? ==> ProcOk(s.db, next.value) && !next.value.Announcing?
    ensures Inv(Place(s, p, next))
  {
    if next.Some? {
      PlaceKeepsProcsOk(s.db, s.procs, p, next.value);
      PlaceKeepsAnnouncersOk(s.procs, s.events, p, next.value);
    }
  }

  lemma AllSettledBySize(rows: map<nat, Row>, j: nat)
    requires |SettledRows(rows, j)| >= |RowsOf(rows, j)|
    ensures AllSettled(rows, j)
  {
    SubsetSize(SettledRows(rows, j), RowsOf(rows, j));
    forall id | id in rows && rows[id].job == j
      ensures SettledStatus(rows[id].status)
    {
      assert id in RowsOf(rows, j);
    }
  }

  /** An open job that counts as processed has every row settled. */
  lemma CountedJobIsSettled(db: Db, j: nat)
    requires BatchTables.Inv(db) && CanClose(db, j)
    ensures db.jobs[j].total == |RowsOf(db.rows, j)|
    ensures db.jobs[j].processed == |SettledRows(db.rows, j)|
    ensures db.jobs[j].processed >= db.jobs[j].total ==> AllSettled(db.rows, j)
  {
    RowTruth(db, j);
    if db.jobs[j].processed >= db.jobs[j].total {
      AllSettledBySize(db.rows, j);
    }
  }

  lemma TurnIsLegal(db: Db, proc: Proc, c: Choice)
    requires ProcOk(db, proc)
    ensures Legal(db, Turn(db, proc, c).op)
  {
    if proc.FinaliseCas? {
      VerdictIsTerminal(db.rows, proc.job);
    }
  }

  predicate InChunk(proc: Proc) {
    proc.ChunkStart? || proc.CancelCheck? || proc.Claiming? || proc.Rechecking? || proc.HandingBack? || proc.Handling?
  }

  lemma ChunkNextIsOk(db: Db, proc: Proc, c: Choice)
    requires WellFormed(db) && ProcOk(db, proc) && InChunk(proc)
    ensures var move := Turn(db, proc, c);
            move.next.Some? ==> ProcOk(Do(db, move.op), move.next.value)
  {
    var op := Turn(db, proc, c).op;
    TurnIsLegal(db, proc, c);
    DoEvolves(db, op);
    DispatchStable(db, Do(db, op), proc.d);
  }

  /** The position a process moves to is justified by what it just read. */
  lemma NextIsOk(db: Db, proc: Proc, c: Choice)
    requires BatchTables.Inv(db) && ProcOk(db, proc)
    requires !proc.FinaliseCas? && !proc.CancelCas?
    ensures var move := Turn(db, proc, c);
            move.next.Some? ==> ProcOk(Do(db, move.op), move.next.value) && !move.next.value.Announcing?
  {
    if InChunk(proc) {
      ChunkNextIsOk(db, proc, c);
    } else if proc.FinaliseCheck? && CanClose(db, proc.job) {
      CountedJobIsSettled(db, proc.job);
    } else if proc.FinaliseRead? {
      HeaderVerdictIsRowVerdict(db, proc.job);
    }
  }

  /** Nobody announces, or has announced, a job that is still open. */
  lemma NewAnnouncerIsAlone(db: Db, procs: map<nat, Proc>, events: seq<Event>, p: nat, j: nat, verdict: JobStatus)
    requires ProcsOk(db, procs) && EventsOk(db, events) && AnnouncersOk(procs, events) && CanClose(db, j)
    ensures AnnouncersOk(procs[p := Announcing(j, verdict)], events)
  {
    forall q | q in procs && procs[q].Announcing?
      ensures procs[q].job != j
    {
      assert ProcOk(db, procs[q]);
    }
  }

  lemma CloseWithAnnouncement(s: State, p: nat, j: nat, verdict: JobStatus)
    requires Inv(s) && CanClose(s.db, j) && Terminal(verdict)
    ensures Inv(Place(Execute(s, OpClose(j, verdict)), p, Some(Announcing(j, verdict))))
  {
    var t := Execute(s, OpClose(j, verdict));
    ExecuteKeepsInv(s, OpClose(j, verdict));
    NewAnnouncerIsAlone(s.db, s.procs, s.events, p, j, verdict);
    PlaceKeepsProcsOk(t.db, t.procs, p, Announcing(j, verdict));
  }

  lemma ClosingKeepsClosedOk(db: Db, closed: map<nat, JobStatus>, j: nat, verdict: JobStatus)
    requires BatchTables.Inv(db) && ClosedOk(db, closed) && CanClose(db, j)
    requires AllSettled(db.rows, j) && verdict == VerdictOfRows(db.rows, j)
    ensures ClosedOk(CloseJob(db, j, verdict), closed[j := verdict])
  {
    VerdictIsTerminal(db.rows, j);
    RowTruth(db, j);
    assert j !in closed;
  }

  /** What a compare-and-set on the status is about to write. */
  function VerdictOf(proc: Proc): JobStatus
    requires proc.FinaliseCas? || proc.CancelCas?
  {
    if proc.FinaliseCas? then proc.verdict else Cancelled
  }

  lemma CasVerdictIsTerminal(db: Db, proc: Proc)
    requires (proc.FinaliseCas? || proc.CancelCas?) && ProcOk(db, proc)
    ensures Terminal(VerdictOf(proc))
  {
    VerdictIsTerminal(db.rows, proc.job);
  }

  /** A compare-and-set that comes too late. */
  lemma LateCasKeepsInv(s: State, p: nat, c: Choice)
    requires Inv(s) && p in s.procs && (s.procs[p].FinaliseCas? || s.procs[p].CancelCas?) && !CanClose(s.db, s.procs[p].job)
    ensures Inv(MoveProc(s, p, c))
  {
    var op := OpClose(s.procs[p].job, VerdictOf(s.procs[p]));
    CasVerdictIsTerminal(s.db, s.procs[p]);
    ExecuteKeepsInv(s, op);
    PlaceKeepsInv(Execute(s, op), p, None);
  }

  lemma ClosedIsSeparate(s: State, closed: map<nat, JobStatus>)
    requires Inv(s) && ClosedOk(s.db, closed)
    ensures Inv(s.(closed := closed))
  {
  }

  lemma CasKeepsInv(s: State, p: nat, c: Choice)
    requires Inv(s) && p in s.procs && (s.procs[p].FinaliseCas? || s.procs[p].CancelCas?)
    ensures Inv(MoveProc(s, p, c))
  {
    var proc := s.procs[p];
    assert ProcOk(s.db, proc);
    if !CanClose(s.db, proc.job) {
      LateCasKeepsInv(s, p, c);
    } else if proc.FinaliseCas? {
      WinningFinaliserKeepsInv(s, p, c);
    } else {
      WinningCancelKeepsInv(s, p, c);
    }
  }

  lemma WinningCancelKeepsInv(s: State, p: nat, c: Choice)
    requires Inv(s) && p in s.procs && s.procs[p].CancelCas? && CanClose(s.db, s.procs[p].job)
    ensures Inv(MoveProc(s, p, c))
  {
    var j := s.procs[p].job;
    if s.procs[p].announce {
      CloseWithAnnouncement(s, p, j, Cancelled);
    } else {
      ExecuteKeepsInv(s, OpClose(j, Cancelled));
      PlaceKeepsInv(Execute(s, OpClose(j, Cancelled)), p, None);
    }
  }

  lemma WinningFinaliserKeepsInv(s: State, p: nat, c: Choice)
    requires Inv(s) && p in s.procs && s.procs[p].FinaliseCas? && CanClose(s.db, s.procs[p].job)
    ensures Inv(MoveProc(s, p, c))
  {
    var j, verdict := s.procs[p].job, s.procs[p].verdict;
    var t := Place(Execute(s, OpClose(j, verdict)), p, Some(Announcing(j, verdict)));
    assert ProcOk(s.db, s.procs[p]);
    VerdictIsTerminal(s.db.rows, j);
    CloseWithAnnouncement(s, p, j, verdict);
    ClosingKeepsClosedOk(s.db, s.closed, j, verdict);
    ClosedIsSeparate(t, s.closed[j := verdict]);
  }

  lemma AnnouncementIsTheOnlyOne(db: Db, procs: map<nat, Proc>, events: seq<Event>, p: nat)
    requires EventsOk(db, events) && AnnouncersOk(procs, events)
    requires p in procs && procs[p].Announcing? && ProcOk(db, procs[p])
    ensures var after := events + [JobCompletedEvent(procs[p].job, procs[p].status)];
            EventsOk(db, after) && AnnouncersOk(procs - {p}, after)
  {
    var after := events + [JobCompletedEvent(procs[p].job, procs[p].status)];
    forall q, i | q in procs - {p} && procs[q].Announcing? && 0 <= i < |after|
      ensures after[i].job != procs[q].job
    {
      assert i < |events| ==> after[i] == events[i];
    }
  }

  lemma AnnouncementKeepsInv(s: State, p: nat, c: Choice)
    requires Inv(s) && p in s.procs && s.procs[p].Announcing?
    ensures Inv(MoveProc(s, p, c))
  {
    assert ProcOk(s.db, s.procs[p]);
    ExecuteKeepsInv(s, OpNone);
    AnnouncementIsTheOnlyOne(s.db, s.procs, s.events, p);
  }

  lemma AdvanceKeepsInv(s: State, p: nat, c: Choice)
    requires Inv(s) && p in s.procs
    ensures Inv(MoveProc(s, p, c)) && Evolves(s.db, MoveProc(s, p, c).db)
  {
    var proc := s.procs[p];
    var move := Turn(s.db, proc, c);
    assert ProcOk(s.db, proc);
    TurnIsLegal(s.db, proc, c);
    DoEvolves(s.db, move.op);
    if proc.FinaliseCas? || proc.CancelCas? {
      CasKeepsInv(s, p, c);
    } else if proc.Announcing? {
      AnnouncementKeepsInv(s, p, c);
    } else {
      NextIsOk(s.db, proc, c);
      ExecuteKeepsInv(s, move.op);
      PlaceKeepsInv(Execute(s, move.op), p, move.next);
    }
  }

  lemma SubmitKeepsInv(s: State, p: nat, mode: Mode, entities: seq<string>, now: int)
    requires Inv(s)
    ensures Inv(Apply(s, Submit(p, mode, entities, now)))
    ensures Evolves(s.db, Apply(s, Submit(p, mode, entities, now)).db)
  {
    var op := OpCreate(mode, entities, now);
    ExecuteKeepsInv(s, op);
    var t := Execute(s, op);
    var d := Dispatch(s.db.nextJob, CreatedRows(s.db, |entities|));
    assert DispatchOk(t.db, d);
    PlaceKeepsInv(t, p, Some(if mode.Sync? then ChunkStart(d) else Dispatching(d)));
  }

  lemma QueueingKeepsInv(s: State, d: Dispatch)
    requires Inv(s) && DispatchOk(s.db, d)
    ensures Inv(s.(queue := s.queue + {d}))
  {
  }

  lemma LosingKeepsInv(s: State, d: Dispatch)
    requires Inv(s)
    ensures Inv(Apply(s, Lose(d))) && Evolves(s.db, Apply(s, Lose(d)).db)
  {
  }

  lemma EnqueueKeepsInv(s: State, p: nat, j: nat, chunk: seq<nat>)
    requires Inv(s)
    ensures Inv(Apply(s, Enqueue(p, j, chunk))) && Evolves(s.db, Apply(s, Enqueue(p, j, chunk)).db)
  {
    if p in s.procs && HandsOut(s.procs[p], j, chunk) {
      assert ProcOk(s.db, s.procs[p]);
      QueueingKeepsInv(s, Dispatch(j, chunk));
    }
  }

  lemma ArrivalIsOk(s: State, step: Step)
    requires QueueOk(s.db, s.queue)
    ensures Arrival(s, step).Some? && Arrival(s, step).value.1.Some? ==>
              ProcOk(s.db, Arrival(s, step).value.1.value) && !Arrival(s, step).value.1.value.Announcing?
  {
  }

  lemma ArrivalKeepsInv(s: State, step: Step)
    requires Inv(s)
    requires Arrival(s, step).Some?
    ensures Inv(Place(s, Arrival(s, step).value.0, Arrival(s, step).value.1))
  {
    ArrivalIsOk(s, step);
    PlaceKeepsInv(s, Arrival(s, step).value.0, Arrival(s, step).value.1);
  }

  predicate Arrives(step: Step) {
    step.EnqueueDone? || step.EnqueueFailed? || step.Deliver? || step.Crash? || step.RequestCancel? || step.FinaliseSwept? ||
    step.Resume?
  }

  lemma ApplyArrivalKeepsInv(s: State, step: Step)
    requires Inv(s) && Arrives(step)
    ensures Inv(Apply(s, step)) && Evolves(s.db, Apply(s, step).db)
  {
    if Arrival(s, step).Some? {
      ArrivalKeepsInv(s, step);
    }
  }

  lemma ApplyKeepsInv(s: State, step: Step)
    requires Inv(s)
    ensures Inv(Apply(s, step)) && Evolves(s.db, Apply(s, step).db)
  {
    match step
    case Submit(p, mode, entities, now) => SubmitKeepsInv(s, p, mode, entities, now);
    case Advance(p, c) => if p in s.procs { AdvanceKeepsInv(s, p, c); }
    case Reset(cutoff, now) => ExecuteKeepsInv(s, OpReset(cutoff, now));
    case Abandon(now) => ExecuteKeepsInv(s, OpAbandon(now));
    case Recount => ExecuteKeepsInv(s, OpRecount);
    case Enqueue(p, j, chunk) => EnqueueKeepsInv(s, p, j, chunk);
    case Lose(d) => LosingKeepsInv(s, d);
    case _ => ApplyArrivalKeepsInv(s, step);
  }

  lemma {:induction false} RunKeepsInv(s: State, steps: seq<Step>)
    requires Inv(s)
    ensures Inv(Run(s, steps)) && Evolves(s.db, Run(s, steps).db)
    decreases |steps|
  {
    if steps != [] {
      ApplyKeepsInv(s, steps[0]);
      RunKeepsInv(Apply(s, steps[0]), steps[1..]);
      EvolvesTransitive(s.db, Apply(s, steps[0]).db, Run(s, steps).db);
    }
  }

  lemma {:induction false} Reachable(steps: seq<Step>)
    ensures Inv(Run(Initial, steps))
  {
    RunKeepsInv(Initial, steps);
  }

  // ----- main results -----

  /** In every interleaving the header counters are row truth, and recounting changes nothing. */
  lemma {:induction false} CountersHoldInEveryInterleaving(steps: seq<Step>, j: nat)
    requires j in Run(Initial, steps).db.jobs
    ensures var db := Run(Initial, steps).db; var job := db.jobs[j];
            && job.total == |RowsOf(db.rows, j)|
            && job.processed == job.success + job.failed + job.skipped <= job.total
            && job.success == |WithStatus(db.rows, j, Success)|
            && job.failed == |WithStatus(db.rows, j, RowFailed)|
            && job.skipped + |By(db.rows, j, Skipped, true)| == |WithStatus(db.rows, j, Skipped)|
            && (!Terminal(job.status) ==> By(db.rows, j, Skipped, true) == {} && job.processed == |SettledRows(db.rows, j)|)
            && RecountJobCounters(db) == db
  {
    Reachable(steps);
    CountersMatchRows(Run(Initial, steps).ops, j);
  }

  /** The reconciler's recount changes no reachable state. */
  lemma {:induction false} RecountChangesNothing(steps: seq<Step>)
    ensures RecountJobCounters(Run(Initial, steps).db) == Run(Initial, steps).db
  {
    Reachable(steps);
    RecountIsIdentity(Run(Initial, steps).db);
  }

  /**
   * The worker's cancel decision rests on two reads at different times: the
   * counters it has read and the PENDING rows it reads now. When they reach the
   * total, so that it goes on to cancel, no row of the job is in flight now.
   */
  lemma {:induction false} CancelDecisionIsSafe(steps: seq<Step>, p: nat, j: nat, processed: nat, total: nat)
    requires p in Run(Initial, steps).procs && Run(Initial, steps).procs[p] == PendingRead(j, processed, total)
    requires processed + |WithStatus(Run(Initial, steps).db.rows, j, RowPending)| >= total
    ensures WithStatus(Run(Initial, steps).db.rows, j, Processing) == {}
  {
    var s := Run(Initial, steps);
    Reachable(steps);
    assert ProcOk(s.db, s.procs[p]);
    RowsSplit(s.db.rows, j);
  }

  /**
   * A job closed by finaliseJob has all rows settled, and its verdict equals the
   * verdict of its rows then and in every later state.
   */
  lemma {:induction false} FinalisedVerdictIsForever(steps: seq<Step>, later: seq<Step>, j: nat)
    requires j in Run(Initial, steps).closed
    ensures var verdict := Run(Initial, steps).closed[j];
            var db := Run(Run(Initial, steps), later).db;
            && j in db.jobs && db.jobs[j].status == verdict
            && AllSettled(db.rows, j) && VerdictOfRows(db.rows, j) == verdict
            && By(db.rows, j, Skipped, true) == {}
  {
    var s := Run(Initial, steps);
    Reachable(steps);
    RunKeepsInv(s, later);
    ClosedStable(s.db, Run(s, later).db, s.closed);
  }

  /** Terminal jobs keep their status for ever, and settled rows never change. */
  lemma {:induction false} TerminalIsForever(steps: seq<Step>, later: seq<Step>)
    ensures var a := Run(Initial, steps).db; var b := Run(Run(Initial, steps), later).db;
            && (forall j :: j in a.jobs && Terminal(a.jobs[j].status) ==> j in b.jobs && b.jobs[j].status == a.jobs[j].status)
            && (forall id :: id in a.rows && SettledStatus(a.rows[id].status) ==> id in b.rows && b.rows[id] == a.rows[id])
  {
    Reachable(steps);
    RunKeepsInv(Run(Initial, steps), later);
  }

  /** At most one completion event per job, and it reports the job's final status. */
  lemma {:induction false} OneCompletionEventPerJob(steps: seq<Step>)
    ensures EventsOk(Run(Initial, steps).db, Run(Initial, steps).events)
  {
    Reachable(steps);
  }

  predicate CompletedStatus(status: JobStatus) {
    status.Completed? || status.CompletedWithErrors?
  }

  ghost predicate CompletedWasFinalised(s: State) {
    forall j :: j in s.db.jobs && CompletedStatus(s.db.jobs[j].status) ==> j in s.closed
  }

  lemma OnlyCloseCompletes(db: Db, op: Op)
    ensures forall j :: j in Do(db, op).jobs && CompletedStatus(Do(db, op).jobs[j].status) ==>
              (j in db.jobs && CompletedStatus(db.jobs[j].status)) ||
              (op.OpClose? && op.job == j && CompletedStatus(op.status) && CanClose(db, j))
  {
  }

  lemma ExecuteKeepsCompletedWasFinalised(s: State, op: Op, closed: map<nat, JobStatus>)
    requires CompletedWasFinalised(s)
    requires s.closed.Keys <= closed.Keys
    requires op.OpClose? && CompletedStatus(op.status) && CanClose(s.db, op.job) ==> op.job in closed
    ensures CompletedWasFinalised(Execute(s, op).(closed := closed))
  {
    OnlyCloseCompletes(s.db, op);
  }

  lemma TurnClosesAsRecorded(s: State, p: nat, c: Choice)
    requires p in s.procs
    ensures var op := Turn(s.db, s.procs[p], c).op; var closed := Record(s, s.procs[p]).closed;
            && s.closed.Keys <= closed.Keys
            && (op.OpClose? && CompletedStatus(op.status) && CanClose(s.db, op.job) ==> op.job in closed)
  {
  }

  lemma ApplyKeepsCompletedWasFinalised(s: State, step: Step)
    requires CompletedWasFinalised(s)
    ensures CompletedWasFinalised(Apply(s, step))
  {
    match step
    case Submit(p, mode, entities, now) => ExecuteKeepsCompletedWasFinalised(s, OpCreate(mode, entities, now), s.closed);
    case Advance(p, c) =>
      if p in s.procs {
        var op := Turn(s.db, s.procs[p], c).op;
        TurnClosesAsRecorded(s, p, c);
        ExecuteKeepsCompletedWasFinalised(s, op, Record(s, s.procs[p]).closed);
        assert Apply(s, step).db == Execute(s, op).db;
      }
    case Reset(cutoff, now) => ExecuteKeepsCompletedWasFinalised(s, OpReset(cutoff, now), s.closed);
    case Abandon(now) => ExecuteKeepsCompletedWasFinalised(s, OpAbandon(now), s.closed);
    case Recount => ExecuteKeepsCompletedWasFinalised(s, OpRecount, s.closed);
    case _ =>
  }

  lemma {:induction false} RunKeepsCompletedWasFinalised(s: State, steps: seq<Step>)
    requires CompletedWasFinalised(s)
    ensures CompletedWasFinalised(Run(s, steps))
    decreases |steps|
  {
    if steps != [] {
      ApplyKeepsCompletedWasFinalised(s, steps[0]);
      RunKeepsCompletedWasFinalised(Apply(s, steps[0]), steps[1..]);
    }
  }

  /**
   * COMPLETED is never reached any other way: such a job has every row settled,
   * and COMPLETED means no row failed while COMPLETED_WITH_ERRORS means some
   * row failed and some row succeeded.
   */
  lemma {:induction false} CompletedMeansEveryRowSettled(steps: seq<Step>, j: nat)
    requires j in Run(Initial, steps).db.jobs && CompletedStatus(Run(Initial, steps).db.jobs[j].status)
    ensures var db := Run(Initial, steps).db;
            && AllSettled(db.rows, j)
            && (db.jobs[j].status.Completed? <==> WithStatus(db.rows, j, RowFailed) == {})
            && (db.jobs[j].status.CompletedWithErrors? ==> WithStatus(db.rows, j, Success) != {})
  {
    RunKeepsCompletedWasFinalised(Initial, steps);
    FinalisedVerdictIsForever(steps, [], j);
  }

  /** Row fencing in every interleaving. */
  lemma {:induction false} RowsAreFencedInEveryInterleaving(steps: seq<Step>)
    ensures var s := Run(Initial, steps);
            var w := Fencing.Run(Fencing.Start<nat>(), FenceOps(EmptyDb, s.ops));
            Fencing.Fenced(w) && w.table == Slots(s.db)
  {
    Reachable(steps);
    BatchRowsAreFenced(Run(Initial, steps).ops);
  }
}
