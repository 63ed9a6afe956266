/**
 * Which open batch jobs can still be closed, from any reachable state: those
 * without waiting rows, those the reconciler resumes, and those that a process
 * or a message still carries.
 */
module BatchClosing {
  import opened Common
  import opened BatchTables
  import opened BatchPipeline
  import opened BatchLiveness

  lemma {:induction false} RunConcat(s: State, a: seq<Step>, b: seq<Step>)
    ensures BatchPipeline.Run(s, a + b) == BatchPipeline.Run(BatchPipeline.Run(s, a), b)
    decreases |a|
  {
    if a == [] {
      assert a + b == b;
    } else {
      assert (a + b)[1..] == a[1..] + b;
      RunConcat(Apply(s, a[0]), a[1..], b);
    }
  }

  lemma ReachesThrough(s: State, t: State, u: State)
    requires Reaches(s, t) && Reaches(t, u)
    ensures Reaches(s, u)
  {
    var a :| BatchPipeline.Run(s, a) == t;
    var b :| BatchPipeline.Run(t, b) == u;
    RunConcat(s, a, b);
  }

  lemma ClosesLater(s: State, t: State, j: nat)
    requires Reaches(s, t) && CanStillClose(t, j)
    ensures CanStillClose(s, j)
  {
    var u :| Reaches(t, u) && !CanClose(u.db, j);
    ReachesThrough(s, t, u);
  }

  // ----- a worker that meets a cancel request -----

  /** How far a worker of a cancelled job is from its last check. */
  function Distance(proc: Proc): nat {
    match proc
    case CancelCheck(_, _) => 1
    case HandingBack(_, _, _) => 1
    case Claiming(_, _) => 3
    case _ => 2
  }

  lemma StopsSooner(db: Db, proc: Proc)
    requires InChunk(proc) && ProcOk(db, proc) && CancelWanted(db, proc.d.job)
    ensures var next := Turn(db, proc, Any).next;
            next.Some? && (next.value == FinaliseCheck(proc.d.job) ||
                           (InChunk(next.value) && next.value.d == proc.d && Distance(next.value) < Distance(proc)))
  {
  }

  lemma WorkerLeavesOpen(db: Db, proc: Proc)
    requires InChunk(proc) && CanClose(db, proc.d.job) && CancelWanted(db, proc.d.job)
    ensures var after := Do(db, Turn(db, proc, Any).op); CanClose(after, proc.d.job) && CancelWanted(after, proc.d.job)
  {
  }

  /** Left to itself it comes to the check, settling what it holds. */
  lemma {:induction false} WorkerStops(s: State, t: State, j: nat, p: nat) returns (u: State)
    requires BatchPipeline.Inv(s) && Reaches(s, t) && p in t.procs && InChunk(t.procs[p]) && t.procs[p].d.job == j
    requires CanClose(t.db, j) && CancelWanted(t.db, j)
    ensures Reaches(s, u) && p in u.procs && u.procs[p] == FinaliseCheck(j) && CanClose(u.db, j) && CancelWanted(u.db, j)
    decreases Distance(t.procs[p])
  {
    ReachedIsOk(s, t);
    assert ProcOk(t.db, t.procs[p]);
    StopsSooner(t.db, t.procs[p]);
    WorkerLeavesOpen(t.db, t.procs[p]);
    u := Turned(s, t, p, Any);
    if u.procs[p] != FinaliseCheck(j) {
      u := WorkerStops(s, u, j, p);
    }
  }

  lemma DecideOnPending(db: Db, j: nat, processed: nat, total: nat)
    requires total == |RowsOf(db.rows, j)| && |SettledRows(db.rows, j)| <= processed && WithStatus(db.rows, j, Processing) == {}
    ensures Turn(db, PendingRead(j, processed, total), Any) == Move(OpNone, Some(CancelCas(j, true)))
  {
    SettledAndWaiting(db.rows, j);
  }

  /** Up-to-date counters, and no row in flight: the waiting rows make up the total. */
  lemma PendingReaderCloses(s: State, t: State, j: nat, p: nat, processed: nat, total: nat) returns (u: State)
    requires Reaches(s, t) && p in t.procs && t.procs[p] == PendingRead(j, processed, total)
    requires total == |RowsOf(t.db.rows, j)| && |SettledRows(t.db.rows, j)| <= processed && WithStatus(t.db.rows, j, Processing) == {}
    ensures Reaches(s, u) && !CanClose(u.db, j)
  {
    DecideOnPending(t.db, j, processed, total);
    u := Turned(s, t, p, Any);
    u := Turned(s, u, p, Any);
  }

  lemma CheckReads(s: State, t: State, j: nat, p: nat) returns (u: State)
    requires Reaches(s, t) && p in t.procs && t.procs[p] == FinaliseCheck(j) && CanClose(t.db, j) && CancelWanted(t.db, j)
    ensures Reaches(s, u) && u.db == t.db && p in u.procs
    ensures var job := t.db.jobs[j];
            u.procs[p] == if job.processed >= job.total then FinaliseRead(j) else PendingRead(j, job.processed, job.total)
  {
    u := Turned(s, t, p, Any);
  }

  /** The last check of a cancelled job closes it once no row is in flight. */
  lemma CheckCloses(s: State, t: State, j: nat, p: nat) returns (u: State)
    requires BatchPipeline.Inv(s) && Reaches(s, t) && p in t.procs && t.procs[p] == FinaliseCheck(j)
    requires CanClose(t.db, j) && CancelWanted(t.db, j) && WithStatus(t.db.rows, j, Processing) == {}
    ensures Reaches(s, u) && !CanClose(u.db, j)
  {
    ReachedIsOk(s, t);
    CountedJobIsSettled(t.db, j);
    ReadyToFinalise(t, j);
    u := CheckReads(s, t, j, p);
    if t.db.jobs[j].processed >= t.db.jobs[j].total {
      u := FinaliserCloses(s, u, j, p);
    } else {
      u := PendingReaderCloses(s, u, j, p, t.db.jobs[j].processed, t.db.jobs[j].total);
    }
  }

  lemma StoppedWorkerCloses(s: State, t: State, j: nat, p: nat)
    requires BatchPipeline.Inv(s) && Reaches(s, t) && p in t.procs && t.procs[p] == FinaliseCheck(j)
    requires CanClose(t.db, j) && CancelWanted(t.db, j)
    ensures CanStillClose(s, j)
  {
    var u := ResetAll(s, t, j);
    u := CheckCloses(s, u, j, p);
  }

  /** Whatever its state, a worker closes the job if it is asked to cancel. */
  lemma WorkerCanClose(s: State, j: nat, p: nat)
    requires BatchPipeline.Inv(s) && CanClose(s.db, j) && p in s.procs
    requires s.procs[p] == FinaliseCheck(j) || (InChunk(s.procs[p]) && s.procs[p].d.job == j)
    ensures CanStillClose(s, j)
  {
    var q := FreeProcess(s.procs.Keys);
    ReachesItself(s);
    var t := CancelRequested(s, s, j, q);
    t := CancelFlagged(s, t, j, q);
    if s.procs[p] != FinaliseCheck(j) {
      t := WorkerStops(s, t, j, p);
    }
    StoppedWorkerCloses(s, t, j, p);
  }

  lemma MessageCanClose(s: State, j: nat, d: Dispatch)
    requires BatchPipeline.Inv(s) && CanClose(s.db, j) && d in s.queue && d.job == j
    ensures CanStillClose(s, j)
  {
    var p := FreeProcess(s.procs.Keys);
    ReachesItself(s);
    var t := Arrived(s, s, Deliver(p, d));
    ReachedIsOk(s, t);
    WorkerCanClose(t, j, p);
    ClosesLater(s, t, j);
  }

  // ----- the other processes -----

  /** One statement away. */
  lemma CloserCanClose(s: State, j: nat, p: nat)
    requires BatchPipeline.Inv(s) && CanClose(s.db, j) && p in s.procs
    requires s.procs[p].FinaliseCas? || s.procs[p].CancelCas? || s.procs[p].FailingDispatch?
    requires s.procs[p].job == j
    ensures CanStillClose(s, j)
  {
    assert ProcOk(s.db, s.procs[p]);
    VerdictIsTerminal(s.db.rows, j);
    ReachesItself(s);
    var t := Turned(s, s, p, Any);
  }

  /** A submission that cannot reach the queue fails its job. */
  lemma PublisherCanClose(s: State, j: nat, p: nat)
    requires BatchPipeline.Inv(s) && CanClose(s.db, j) && p in s.procs && s.procs[p].Dispatching? && s.procs[p].d.job == j
    ensures CanStillClose(s, j)
  {
    ReachesItself(s);
    var t := Arrived(s, s, EnqueueFailed(p));
    ReachedIsOk(s, t);
    CloserCanClose(t, j, p);
    ClosesLater(s, t, j);
  }

  lemma FinaliserCanClose(s: State, j: nat, p: nat)
    requires BatchPipeline.Inv(s) && CanClose(s.db, j) && p in s.procs && s.procs[p] == FinaliseRead(j)
    ensures CanStillClose(s, j)
  {
    assert ProcOk(s.db, s.procs[p]);
    ReadyToFinalise(s, j);
    ReachesItself(s);
    var t := FinaliserCloses(s, s, j, p);
  }

  lemma ReaderCanClose(s: State, j: nat, p: nat)
    requires BatchPipeline.Inv(s) && CanClose(s.db, j) && p in s.procs && s.procs[p].PendingRead? && s.procs[p].job == j
    requires |SettledRows(s.db.rows, j)| <= s.procs[p].processed
    ensures CanStillClose(s, j)
  {
    var proc := s.procs[p];
    assert ProcOk(s.db, proc);
    ReachesItself(s);
    var t := ResetAll(s, s, j);
    t := PendingReaderCloses(s, t, j, p, proc.processed, proc.total);
  }

  lemma RequeuerCanClose(s: State, j: nat, p: nat)
    requires BatchPipeline.Inv(s) && CanClose(s.db, j) && p in s.procs && s.procs[p].Requeueing? && s.procs[p].job == j
    ensures CanStillClose(s, j)
  {
    var chunk := Listed(s.procs[p].rows);
    ReachesItself(s);
    var t := Queued(s, s, p, j, chunk);
    ReachedIsOk(s, t);
    MessageCanClose(t, j, Dispatch(j, chunk));
    ClosesLater(s, t, j);
  }

  lemma ResumerCanClose(s: State, j: nat, p: nat)
    requires BatchPipeline.Inv(s) && CanClose(s.db, j) && p in s.procs && s.procs[p] == Resuming(j)
    ensures CanStillClose(s, j)
  {
    ReachesItself(s);
    if WithStatus(s.db.rows, j, RowPending) == {} {
      var q := FreeProcess(s.procs.Keys);
      var t := CancelClosesIdleJob(s, j, q);
    } else {
      var t := ReadWaiting(s, s, j, p);
      ReachedIsOk(s, t);
      RequeuerCanClose(t, j, p);
      ClosesLater(s, t, j);
    }
  }

  lemma CarriedCanClose(s: State, j: nat)
    requires BatchPipeline.Inv(s) && CanClose(s.db, j) && Carried(s, j)
    ensures CanStillClose(s, j)
  {
    if d :| d in s.queue && d.job == j {
      MessageCanClose(s, j, d);
    } else {
      var p :| p in s.procs && Carries(s.db, s.procs[p], j);
      CarrierCanClose(s, j, p);
    }
  }

  lemma CarrierCanClose(s: State, j: nat, p: nat)
    requires BatchPipeline.Inv(s) && CanClose(s.db, j) && p in s.procs && Carries(s.db, s.procs[p], j)
    ensures CanStillClose(s, j)
  {
    match s.procs[p]
    case Dispatching(_) => PublisherCanClose(s, j, p);
    case FinaliseRead(_) => FinaliserCanClose(s, j, p);
    case PendingRead(_, _, _) => ReaderCanClose(s, j, p);
    case Requeueing(_, _) => RequeuerCanClose(s, j, p);
    case Resuming(_) => ResumerCanClose(s, j, p);
    case FinaliseCas(_, _) => CloserCanClose(s, j, p);
    case CancelCas(_, _) => CloserCanClose(s, j, p);
    case FailingDispatch(_) => CloserCanClose(s, j, p);
    case _ => WorkerCanClose(s, j, p);
  }

  /**
   * For every reachable state and every open job: some continuation closes it if
   * and only if it has no waiting row, or is asynchronous and has not been asked
   * to cancel, or a message of it is queued, or a process carries it on.
   */
  lemma OpenJobCanStillCloseExactly(steps: seq<Step>, j: nat)
    requires CanClose(BatchPipeline.Run(Initial, steps).db, j)
    ensures var s := BatchPipeline.Run(Initial, steps);
            CanStillClose(s, j) <==>
              WithStatus(s.db.rows, j, RowPending) == {} || Resumable(s.db.jobs[j]) || Carried(s, j)
  {
    var s := BatchPipeline.Run(Initial, steps);
    Reachable(steps);
    if Carried(s, j) {
      CarriedCanClose(s, j);
    } else {
      if Resumable(s.db.jobs[j]) {
        var t := ResumableJobCanBeFinished(s, j);
      } else if WithStatus(s.db.rows, j, RowPending) == {} {
        var p := FreeProcess(s.procs.Keys);
        var t := CancelClosesIdleJob(s, j, p);
      } else {
        var id :| id in WithStatus(s.db.rows, j, RowPending);
        StrandedCannotClose(s, j, id);
      }
    }
  }
  /**
   * In particular a job that nobody works on and that has no message queued can
   * still be closed if and only if it has no waiting row, or is asynchronous and
   * has not been asked to cancel.
   */
  lemma QuietJobCanStillCloseExactly(steps: seq<Step>, j: nat)
    requires var s := BatchPipeline.Run(Initial, steps); CanClose(s.db, j) && Quiet(s, j)
    ensures var s := BatchPipeline.Run(Initial, steps);
            CanStillClose(s, j) <==> WithStatus(s.db.rows, j, RowPending) == {} || Resumable(s.db.jobs[j])
  {
    OpenJobCanStillCloseExactly(steps, j);
  }
  // ----- the check after a chunk, left alone -----

  /** What the check makes of the job: closed on settled rows, cancelled on request when nothing is in flight, or as it was. */
  function CheckedStatus(db: Db, j: nat): JobStatus
    requires j in db.jobs
  {
    if Terminal(db.jobs[j].status) then db.jobs[j].status
    else if AllSettled(db.rows, j) then VerdictOfRows(db.rows, j)
    else if db.jobs[j].cancelRequested && WithStatus(db.rows, j, Processing) == {} then Cancelled
    else db.jobs[j].status
  }

  /** n statements of one process, with nothing in between; a process that is done does nothing. */
  function Alone(s: State, p: nat, n: nat): State
    decreases n
  {
    if n == 0 then s else Alone(Apply(s, Advance(p, Any)), p, n - 1)
  }

  lemma OneTurn(s: State, p: nat, proc: Proc, move: Move, n: nat) returns (u: State)
    requires p in s.procs && s.procs[p] == proc && move == Turn(s.db, proc, Any) && n > 0
    ensures u.db == Do(s.db, move.op)
    ensures if move.next.Some? then p in u.procs && u.procs[p] == move.next.value else p !in u.procs
    ensures Alone(s, p, n) == Alone(u, p, n - 1)
  {
    u := Apply(s, Advance(p, Any));
    RecordIsHistory(s, s.procs[p]);
  }

  lemma {:induction false} DoneStaysDone(s: State, p: nat, n: nat)
    requires p !in s.procs
    ensures Alone(s, p, n) == s
    decreases n
  {
    if n > 0 {
      DoneStaysDone(s, p, n - 1);
    }
  }

  /** The last statement of a process, and what it may still be given to do. */
  lemma LastTurn(s: State, p: nat, proc: Proc, op: Op, n: nat)
    requires p in s.procs && s.procs[p] == proc && Turn(s.db, proc, Any) == Move(op, None) && n > 0
    ensures Alone(s, p, n).db == Do(s.db, op)
  {
    var u := OneTurn(s, p, proc, Move(op, None), n);
    DoneStaysDone(u, p, n - 1);
  }

  /** Left alone, a worker of the machine that has come to its check does what the sequential check does. */
  lemma MachineChecksAlone(s: State, j: nat, p: nat, n: nat)
    requires BatchPipeline.Inv(s) && p in s.procs && s.procs[p] == FinaliseCheck(j) && j in s.db.jobs && n >= 4
    ensures var t := Alone(s, p, n); t.db.rows == s.db.rows && j in t.db.jobs && t.db.jobs[j].status == CheckedStatus(s.db, j)
  {
    if CanClose(s.db, j) {
      CheckFacts(s, j);
      if s.db.jobs[j].processed >= s.db.jobs[j].total {
        ChecksSettled(s, j, p, n);
      } else if s.db.jobs[j].cancelRequested {
        ChecksCancelled(s, j, p, n);
      } else {
        NothingToCheck(s, j, p, n);
      }
    } else {
      NothingToCheck(s, j, p, n);
    }
  }

  lemma CheckFacts(s: State, j: nat)
    requires BatchPipeline.Inv(s) && CanClose(s.db, j)
    ensures var job, rows := s.db.jobs[j], s.db.rows;
            && (job.processed >= job.total <==> AllSettled(rows, j)) && VerdictOfHeader(job) == VerdictOfRows(rows, j)
            && job.processed + |WithStatus(rows, j, RowPending)| + |WithStatus(rows, j, Processing)| == job.total
  {
    CountedJobIsSettled(s.db, j);
    ReadyToFinalise(s, j);
    SettledAndWaiting(s.db.rows, j);
  }

  lemma ChecksSettled(s: State, j: nat, p: nat, n: nat)
    requires p in s.procs && s.procs[p] == FinaliseCheck(j) && CanClose(s.db, j) && n >= 4
    requires s.db.jobs[j].processed >= s.db.jobs[j].total && VerdictOfHeader(s.db.jobs[j]) == VerdictOfRows(s.db.rows, j)
    ensures var t := Alone(s, p, n); t.db.rows == s.db.rows && j in t.db.jobs && t.db.jobs[j].status == VerdictOfRows(s.db.rows, j)
  {
    var verdict := VerdictOfRows(s.db.rows, j);
    var u := CheckTurns(s, j, p, n);
    u := ReadTurns(u, j, p, n - 1);
    CasAndAnnounce(u, j, p, FinaliseCas(j, verdict), verdict, n - 2);
  }

  lemma CasAndAnnounce(s: State, j: nat, p: nat, proc: Proc, verdict: JobStatus, n: nat)
    requires p in s.procs && s.procs[p] == proc && CanClose(s.db, j) && n >= 2
    requires proc == FinaliseCas(j, verdict) || (proc == CancelCas(j, true) && verdict == Cancelled)
    ensures var t := Alone(s, p, n); t.db.rows == s.db.rows && j in t.db.jobs && t.db.jobs[j].status == verdict
  {
    var u := CasTurns(s, j, p, proc, verdict, n);
    LastTurn(u, p, Announcing(j, verdict), OpNone, n - 1);
  }

  lemma ChecksCancelled(s: State, j: nat, p: nat, n: nat)
    requires p in s.procs && s.procs[p] == FinaliseCheck(j) && CanClose(s.db, j) && s.db.jobs[j].cancelRequested && n >= 4
    requires s.db.jobs[j].processed < s.db.jobs[j].total
    requires s.db.jobs[j].processed + |WithStatus(s.db.rows, j, RowPending)| + |WithStatus(s.db.rows, j, Processing)| == s.db.jobs[j].total
    ensures var t := Alone(s, p, n);
            && t.db.rows == s.db.rows && j in t.db.jobs
            && t.db.jobs[j].status == if WithStatus(s.db.rows, j, Processing) == {} then Cancelled else s.db.jobs[j].status
  {
    var u := CheckTurns(s, j, p, n);
    ReadDecides(u, j, p, s.db.jobs[j].processed, s.db.jobs[j].total, n - 1);
  }

  lemma CheckTurns(s: State, j: nat, p: nat, n: nat) returns (u: State)
    requires p in s.procs && s.procs[p] == FinaliseCheck(j) && CanClose(s.db, j) && n > 0
    requires s.db.jobs[j].processed >= s.db.jobs[j].total || s.db.jobs[j].cancelRequested
    ensures u.db == s.db && p in u.procs && Alone(s, p, n) == Alone(u, p, n - 1)
    ensures var job := s.db.jobs[j];
            u.procs[p] == if job.processed >= job.total then FinaliseRead(j) else PendingRead(j, job.processed, job.total)
  {
    var job := s.db.jobs[j];
    var next := if job.processed >= job.total then FinaliseRead(j) else PendingRead(j, job.processed, job.total);
    u := OneTurn(s, p, FinaliseCheck(j), Move(OpNone, Some(next)), n);
  }

  lemma ReadTurns(s: State, j: nat, p: nat, n: nat) returns (u: State)
    requires p in s.procs && s.procs[p] == FinaliseRead(j) && j in s.db.jobs && n > 0
    ensures u.db == s.db && p in u.procs && u.procs[p] == FinaliseCas(j, VerdictOfHeader(s.db.jobs[j])) && Alone(s, p, n) == Alone(u, p, n - 1)
  {
    u := OneTurn(s, p, FinaliseRead(j), Move(OpNone, Some(FinaliseCas(j, VerdictOfHeader(s.db.jobs[j])))), n);
  }

  lemma CasTurns(s: State, j: nat, p: nat, proc: Proc, verdict: JobStatus, n: nat) returns (u: State)
    requires p in s.procs && s.procs[p] == proc && CanClose(s.db, j) && n > 0
    requires proc == FinaliseCas(j, verdict) || (proc == CancelCas(j, true) && verdict == Cancelled)
    ensures u.db == CloseJob(s.db, j, verdict) && p in u.procs && u.procs[p] == Announcing(j, verdict) && Alone(s, p, n) == Alone(u, p, n - 1)
  {
    u := OneTurn(s, p, proc, Move(OpClose(j, verdict), Some(Announcing(j, verdict))), n);
  }

  lemma ReadDecides(s: State, j: nat, p: nat, processed: nat, total: nat, n: nat)
    requires p in s.procs && s.procs[p] == PendingRead(j, processed, total) && CanClose(s.db, j) && n >= 3
    requires processed + |WithStatus(s.db.rows, j, RowPending)| + |WithStatus(s.db.rows, j, Processing)| == total
    ensures var t := Alone(s, p, n);
            && t.db.rows == s.db.rows && j in t.db.jobs
            && t.db.jobs[j].status == if WithStatus(s.db.rows, j, Processing) == {} then Cancelled else s.db.jobs[j].status
  {
    if WithStatus(s.db.rows, j, Processing) == {} {
      ReadCancels(s, j, p, processed, total, n);
    } else {
      ReadLeaves(s, j, p, processed, total, n);
    }
  }

  lemma ReadCancels(s: State, j: nat, p: nat, processed: nat, total: nat, n: nat)
    requires p in s.procs && s.procs[p] == PendingRead(j, processed, total) && CanClose(s.db, j) && n >= 3
    requires processed + |WithStatus(s.db.rows, j, RowPending)| >= total
    ensures var t := Alone(s, p, n); t.db.rows == s.db.rows && j in t.db.jobs && t.db.jobs[j].status == Cancelled
  {
    var u := OneTurn(s, p, PendingRead(j, processed, total), Move(OpNone, Some(CancelCas(j, true))), n);
    CasAndAnnounce(u, j, p, CancelCas(j, true), Cancelled, n - 1);
  }

  lemma ReadLeaves(s: State, j: nat, p: nat, processed: nat, total: nat, n: nat)
    requires p in s.procs && s.procs[p] == PendingRead(j, processed, total) && n >= 1
    requires processed + |WithStatus(s.db.rows, j, RowPending)| < total
    ensures Alone(s, p, n).db == s.db
  {
    LastTurn(s, p, PendingRead(j, processed, total), OpNone, n);
  }

  lemma NothingToCheck(s: State, j: nat, p: nat, n: nat)
    requires p in s.procs && s.procs[p] == FinaliseCheck(j) && n >= 1
    requires CanClose(s.db, j) ==> s.db.jobs[j].processed < s.db.jobs[j].total && !s.db.jobs[j].cancelRequested
    ensures Alone(s, p, n).db == s.db
  {
    LastTurn(s, p, FinaliseCheck(j), OpNone, n);
  }
}
