/**
 * The two tables of the batch-operation pipeline, and every statement or
 * transaction that writes them, as functions on the table contents.
 */
module BatchTables {
  import opened Common
  import Fencing

  datatype Mode = Sync | Async

  datatype JobStatus = JobPending | JobRunning | Completed | CompletedWithErrors | JobFailed | Cancelled

  datatype RowStatus = RowPending | Processing | Success | RowFailed | Skipped

  datatype Job = Job(
    mode: Mode,
    status: JobStatus,
    total: nat,
    processed: nat,
    success: nat,
    failed: nat,
    skipped: nat,
    cancelRequested: bool)

  /** `abandoned` records the skip reason ABANDONED_ON_TERMINAL_JOB. */
  datatype Row = Row(
    job: nat,
    entity: string,
    status: RowStatus,
    token: nat,
    abandoned: bool,
    updatedAt: int)

  /** Generated ids are fresh numbers. */
  datatype Db = Db(jobs: map<nat, Job>, rows: map<nat, Row>, nextJob: nat, nextRow: nat)

  const EmptyDb := Db(map[], map[], 0, 0)

  predicate Terminal(s: JobStatus) {
    !s.JobPending? && !s.JobRunning?
  }

  predicate SettledStatus(s: RowStatus) {
    s.Success? || s.RowFailed? || s.Skipped?
  }

  type Outcome = s: RowStatus | SettledStatus(s) witness Success

  // ----- row sets -----

  function RowsOf(rows: map<nat, Row>, j: nat): set<nat> {
    set id | id in rows && rows[id].job == j
  }

  function By(rows: map<nat, Row>, j: nat, st: RowStatus, abandoned: bool): set<nat> {
    set id | id in rows && rows[id].job == j && rows[id].status == st && rows[id].abandoned == abandoned
  }

  function WithStatus(rows: map<nat, Row>, j: nat, st: RowStatus): set<nat> {
    set id | id in rows && rows[id].job == j && rows[id].status == st
  }

  function SettledRows(rows: map<nat, Row>, j: nat): set<nat> {
    set id | id in rows && rows[id].job == j && SettledStatus(rows[id].status)
  }

  /** No row of the job is PENDING or PROCESSING. */
  predicate AllSettled(rows: map<nat, Row>, j: nat) {
    forall id :: id in rows && rows[id].job == j ==> SettledStatus(rows[id].status)
  }

  /** The verdict a job deserves, read off its rows. */
  function VerdictOfRows(rows: map<nat, Row>, j: nat): JobStatus {
    if WithStatus(rows, j, RowFailed) == {} then Completed
    else if WithStatus(rows, j, Success) != {} then CompletedWithErrors
    else JobFailed
  }

  // ----- statements -----

  function AddedRows(db: Db, entities: seq<string>, now: int): map<nat, Row> {
    map i | i in Interval(db.nextRow, |entities|) ::
      Row(db.nextJob, entities[i - db.nextRow], RowPending, 0, false, now)
  }

  function CreateJobWithRows(db: Db, mode: Mode, entities: seq<string>, now: int): Db {
    var status := if mode.Sync? then JobRunning else JobPending;
    Db(db.jobs[db.nextJob := Job(mode, status, |entities|, 0, 0, 0, 0, false)],
       db.rows + AddedRows(db, entities, now),
       db.nextJob + 1,
       db.nextRow + |entities|)
  }

  function SetStatus(db: Db, j: nat, status: JobStatus): Db
    requires j in db.jobs
  {
    db.(jobs := db.jobs[j := db.jobs[j].(status := status)])
  }

  function MarkJobRunning(db: Db, j: nat): Db {
    if j in db.jobs && db.jobs[j].status.JobPending? && !db.jobs[j].cancelRequested
    then SetStatus(db, j, JobRunning) else db
  }

  predicate CanClose(db: Db, j: nat) {
    j in db.jobs && !Terminal(db.jobs[j].status)
  }

  /** The CAS behind finaliseJob, finaliseCancelled and markJobFailed. */
  function CloseJob(db: Db, j: nat, status: JobStatus): Db {
    if CanClose(db, j) then SetStatus(db, j, status) else db
  }

  /** The verdict finaliseJob derives from the header it read. */
  function VerdictOfHeader(job: Job): JobStatus {
    if job.failed == 0 then Completed
    else if job.success > 0 then CompletedWithErrors
    else JobFailed
  }

  function SetCancelRequested(db: Db, j: nat): Db {
    if j in db.jobs then db.(jobs := db.jobs[j := db.jobs[j].(cancelRequested := true)]) else db
  }

  predicate CanClaim(db: Db, id: nat) {
    id in db.rows && db.rows[id].status.RowPending?
  }

  function ClaimRow(db: Db, id: nat, now: int): Db {
    if CanClaim(db, id)
    then var r := db.rows[id];
         db.(rows := db.rows[id := r.(status := Processing, token := r.token + 1, updatedAt := now)])
    else db
  }

  predicate CanSettle(db: Db, id: nat, j: nat, token: int) {
    j in db.jobs && id in db.rows && db.rows[id].status.Processing? && db.rows[id].token == token
  }

  function BumpCounters(job: Job, outcome: Outcome): Job {
    var job := job.(processed := job.processed + 1);
    if outcome.Success? then job.(success := job.success + 1)
    else if outcome.RowFailed? then job.(failed := job.failed + 1)
    else job.(skipped := job.skipped + 1)
  }

  /** Row status and header counters in one transaction. */
  function SettleRow(db: Db, id: nat, j: nat, token: int, outcome: Outcome, now: int): Db {
    if CanSettle(db, id, j, token)
    then db.(rows := db.rows[id := db.rows[id].(status := outcome, updatedAt := now)],
             jobs := db.jobs[j := BumpCounters(db.jobs[j], outcome)])
    else db
  }

  predicate Stuck(db: Db, id: nat, cutoff: int) {
    && id in db.rows && db.rows[id].status.Processing? && db.rows[id].updatedAt < cutoff
    && CanClose(db, db.rows[id].job)
  }

  /** First statement of resetStuckRows. */
  function ResetStuckRows(db: Db, cutoff: int, now: int): Db {
    db.(rows := map id | id in db.rows ::
      var r := db.rows[id];
      if Stuck(db, id, cutoff) then r.(status := RowPending, token := r.token + 1, updatedAt := now) else r)
  }

  predicate Orphaned(db: Db, id: nat) {
    && id in db.rows && db.rows[id].status.Processing?
    && db.rows[id].job in db.jobs && Terminal(db.jobs[db.rows[id].job].status)
  }

  /** Second statement of resetStuckRows. */
  function AbandonOrphanedRows(db: Db, now: int): Db {
    db.(rows := map id | id in db.rows ::
      var r := db.rows[id];
      if Orphaned(db, id) then r.(status := Skipped, abandoned := true, updatedAt := now) else r)
  }

  function Recounted(rows: map<nat, Row>, j: nat, job: Job): Job {
    job.(processed := |SettledRows(rows, j)|,
         success := |WithStatus(rows, j, Success)|,
         failed := |WithStatus(rows, j, RowFailed)|,
         skipped := |WithStatus(rows, j, Skipped)|)
  }

  /** Only open jobs that have rows are joined and rewritten. */
  function RecountJobCounters(db: Db): Db {
    db.(jobs := map j | j in db.jobs ::
      if !Terminal(db.jobs[j].status) && RowsOf(db.rows, j) != {}
      then Recounted(db.rows, j, db.jobs[j]) else db.jobs[j])
  }

  datatype Op =
    | OpCreate(mode: Mode, entities: seq<string>, now: int)
    | OpMarkRunning(job: nat)
    | OpClose(job: nat, status: JobStatus)
    | OpCancelFlag(job: nat)
    | OpClaim(row: nat, now: int)
    | OpSettle(row: nat, job: nat, token: int, outcome: Outcome, now: int)
    | OpReset(cutoff: int, now: int)
    | OpAbandon(now: int)
    | OpRecount
    | OpNone

  function Do(db: Db, op: Op): Db {
    match op
    case OpCreate(mode, entities, now) => CreateJobWithRows(db, mode, entities, now)
    case OpMarkRunning(j) => MarkJobRunning(db, j)
    case OpClose(j, status) => CloseJob(db, j, status)
    case OpCancelFlag(j) => SetCancelRequested(db, j)
    case OpClaim(id, now) => ClaimRow(db, id, now)
    case OpSettle(id, j, token, outcome, now) => SettleRow(db, id, j, token, outcome, now)
    case OpReset(cutoff, now) => ResetStuckRows(db, cutoff, now)
    case OpAbandon(now) => AbandonOrphanedRows(db, now)
    case OpRecount => RecountJobCounters(db)
    case OpNone => db
  }

  /**
   * What the callers guarantee: jobs are closed with a terminal status, and a
   * settlement names the job its row belongs to.
   */
  predicate Legal(db: Db, op: Op) {
    && (op.OpClose? ==> Terminal(op.status))
    && (op.OpSettle? && op.row in db.rows ==> db.rows[op.row].job == op.job)
  }

  function Run(db: Db, ops: seq<Op>): Db
    decreases |ops|
  {
    if ops == [] then db else Run(Do(db, ops[0]), ops[1..])
  }

  predicate LegalRun(db: Db, ops: seq<Op>)
    decreases |ops|
  {
    ops == [] || (Legal(db, ops[0]) && LegalRun(Do(db, ops[0]), ops[1..]))
  }

  // ----- what every run keeps -----

  ghost predicate WellFormed(db: Db) {
    && (forall j :: j in db.jobs ==> j < db.nextJob)
    && (forall id :: id in db.rows ==> id < db.nextRow && db.rows[id].job in db.jobs)
    && (forall id :: id in db.rows && db.rows[id].abandoned ==>
          db.rows[id].status.Skipped? && Terminal(db.jobs[db.rows[id].job].status))
  }

  /** Header counters against row truth; only abandonment is not counted. */
  ghost predicate CountersTrue(job: Job, rows: map<nat, Row>, j: nat) {
    && job.total == |RowsOf(rows, j)|
    && job.processed == job.success + job.failed + job.skipped
    && job.success == |By(rows, j, Success, false)|
    && job.failed == |By(rows, j, RowFailed, false)|
    && job.skipped == |By(rows, j, Skipped, false)|
  }

  ghost predicate AllCountersTrue(db: Db) {
    forall j {:trigger CountersTrue(db.jobs[j], db.rows, j)} :: j in db.jobs ==> CountersTrue(db.jobs[j], db.rows, j)
  }

  ghost predicate Inv(db: Db) {
    WellFormed(db) && AllCountersTrue(db)
  }

  ghost predicate RowEvolves(r: Row, s: Row) {
    && s.job == r.job && s.entity == r.entity
    && r.token <= s.token
    && (SettledStatus(r.status) ==> s == r)
  }

  ghost predicate JobEvolves(a: Job, b: Job) {
    && b.mode == a.mode && b.total == a.total
    && (a.cancelRequested ==> b.cancelRequested)
    && (Terminal(a.status) ==> b.status == a.status)
  }

  /** How the tables may change over any number of steps. */
  ghost predicate Evolves(a: Db, b: Db) {
    && (forall j :: j in a.jobs ==> j in b.jobs && JobEvolves(a.jobs[j], b.jobs[j]))
    && (forall id :: id in a.rows ==> id in b.rows && RowEvolves(a.rows[id], b.rows[id]))
    && (forall id :: id in b.rows && b.rows[id].job in a.jobs ==> id in a.rows)
  }

  ghost predicate GoodStep(a: Db, b: Db) {
    Evolves(a, b) && WellFormed(b)
  }

  lemma CreateEvolves(db: Db, mode: Mode, entities: seq<string>, now: int)
    requires WellFormed(db)
    ensures GoodStep(db, CreateJobWithRows(db, mode, entities, now))
  {
  }

  lemma RowUpdateEvolves(db: Db, id: nat, r: Row, jobs: map<nat, Job>)
    requires WellFormed(db)
    requires id in db.rows && RowEvolves(db.rows[id], r) && !r.abandoned && !db.rows[id].abandoned
    requires jobs.Keys == db.jobs.Keys && forall j :: j in jobs ==> JobEvolves(db.jobs[j], jobs[j])
    ensures GoodStep(db, db.(rows := db.rows[id := r], jobs := jobs))
  {
  }

  lemma BulkEvolves(db: Db, op: Op)
    requires WellFormed(db)
    requires op.OpReset? || op.OpAbandon?
    ensures GoodStep(db, Do(db, op))
  {
  }

  lemma StatementEvolves(db: Db, op: Op)
    requires WellFormed(db) && Legal(db, op)
    requires op.OpClaim? || op.OpSettle? || op.OpReset? || op.OpAbandon?
    ensures GoodStep(db, Do(db, op))
  {
    match op
    case OpClaim(id, now) =>
      if CanClaim(db, id) {
        RowUpdateEvolves(db, id, Do(db, op).rows[id], db.jobs);
      }
    case OpSettle(id, j, token, outcome, now) =>
      if CanSettle(db, id, j, token) {
        RowUpdateEvolves(db, id, Do(db, op).rows[id], Do(db, op).jobs);
      }
    case _ => BulkEvolves(db, op);
  }

  lemma DoEvolves(db: Db, op: Op)
    requires WellFormed(db) && Legal(db, op)
    ensures GoodStep(db, Do(db, op))
  {
    match op
    case OpCreate(mode, entities, now) => CreateEvolves(db, mode, entities, now);
    case OpMarkRunning(_) =>
    case OpClose(_, _) =>
    case OpCancelFlag(_) =>
    case OpRecount =>
    case OpNone =>
    case _ => StatementEvolves(db, op);
  }

  // ----- counting -----

  /** Rewriting one unsettled row moves at most that row into one settled set. */
  lemma CountAfterUpdate(rows: map<nat, Row>, id: nat, r: Row, j: nat, st: Outcome)
    requires id in rows && r.job == rows[id].job && !SettledStatus(rows[id].status) && !r.abandoned
    ensures |By(rows[id := r], j, st, false)| ==
            |By(rows, j, st, false)| + (if r.job == j && r.status == st then 1 else 0)
  {
    if r.job == j && r.status == st {
      assert By(rows[id := r], j, st, false) == By(rows, j, st, false) + {id};
    } else {
      assert By(rows[id := r], j, st, false) == By(rows, j, st, false);
    }
  }

  lemma CountersAfterUpdate(job: Job, rows: map<nat, Row>, id: nat, r: Row, j: nat)
    requires CountersTrue(job, rows, j)
    requires id in rows && r.job == rows[id].job && !SettledStatus(rows[id].status) && !r.abandoned
    ensures CountersTrue(
      if r.job == j && SettledStatus(r.status) then BumpCounters(job, r.status) else job, rows[id := r], j)
  {
    assert RowsOf(rows[id := r], j) == RowsOf(rows, j);
    CountAfterUpdate(rows, id, r, j, Success);
    CountAfterUpdate(rows, id, r, j, RowFailed);
    CountAfterUpdate(rows, id, r, j, Skipped);
  }

  lemma ClaimKeepsCounters(db: Db, id: nat, now: int)
    requires Inv(db)
    ensures AllCountersTrue(ClaimRow(db, id, now))
  {
    if CanClaim(db, id) {
      var d := ClaimRow(db, id, now);
      forall j | j in d.jobs
        ensures CountersTrue(d.jobs[j], d.rows, j)
      {
        CountersAfterUpdate(db.jobs[j], db.rows, id, d.rows[id], j);
      }
    }
  }

  lemma SettleKeepsCounters(db: Db, id: nat, k: nat, token: int, outcome: Outcome, now: int)
    requires Inv(db) && Legal(db, OpSettle(id, k, token, outcome, now))
    ensures AllCountersTrue(SettleRow(db, id, k, token, outcome, now))
  {
    if CanSettle(db, id, k, token) {
      var d := SettleRow(db, id, k, token, outcome, now);
      forall j | j in d.jobs
        ensures CountersTrue(d.jobs[j], d.rows, j)
      {
        CountersAfterUpdate(db.jobs[j], db.rows, id, d.rows[id], j);
      }
    }
  }

  /** Rows rewritten in bulk without touching the counted sets of a job. */
  lemma CountersAfterBulk(job: Job, rows: map<nat, Row>, after: map<nat, Row>, j: nat)
    requires CountersTrue(job, rows, j)
    requires RowsOf(after, j) == RowsOf(rows, j)
    requires forall id :: id in RowsOf(rows, j) ==>
               after[id] == rows[id] ||
               (!SettledStatus(rows[id].status) && (after[id].abandoned || !SettledStatus(after[id].status)))
    ensures CountersTrue(job, after, j)
  {
    assert forall id :: id in after && after[id].job == j <==> id in RowsOf(rows, j);
    assert By(after, j, Success, false) == By(rows, j, Success, false);
    assert By(after, j, RowFailed, false) == By(rows, j, RowFailed, false);
    assert By(after, j, Skipped, false) == By(rows, j, Skipped, false);
  }

  lemma BulkKeepsCounters(db: Db, op: Op)
    requires Inv(db) && (op.OpReset? || op.OpAbandon?)
    ensures AllCountersTrue(Do(db, op))
  {
    var d := Do(db, op);
    forall j | j in d.jobs
      ensures CountersTrue(d.jobs[j], d.rows, j)
    {
      assert RowsOf(d.rows, j) == RowsOf(db.rows, j);
      CountersAfterBulk(db.jobs[j], db.rows, d.rows, j);
    }
  }

  lemma CreateKeepsCounters(db: Db, mode: Mode, entities: seq<string>, now: int)
    requires Inv(db)
    ensures AllCountersTrue(CreateJobWithRows(db, mode, entities, now))
  {
    var d := CreateJobWithRows(db, mode, entities, now);
    forall j | j in d.jobs
      ensures CountersTrue(d.jobs[j], d.rows, j)
    {
      if j == db.nextJob {
        assert RowsOf(d.rows, j) == Interval(db.nextRow, |entities|);
        assert By(d.rows, j, Success, false) == {};
        assert By(d.rows, j, RowFailed, false) == {};
        assert By(d.rows, j, Skipped, false) == {};
      } else {
        assert RowsOf(d.rows, j) == RowsOf(db.rows, j);
        CountersAfterBulk(db.jobs[j], db.rows, d.rows, j);
      }
    }
  }

  lemma SettledRowsSplit(rows: map<nat, Row>, j: nat)
    requires forall id :: id in rows && rows[id].abandoned ==> rows[id].status.Skipped?
    ensures WithStatus(rows, j, Success) == By(rows, j, Success, false)
    ensures WithStatus(rows, j, RowFailed) == By(rows, j, RowFailed, false)
    ensures WithStatus(rows, j, Skipped) == By(rows, j, Skipped, false) + By(rows, j, Skipped, true)
    ensures SettledRows(rows, j) ==
            WithStatus(rows, j, Success) + WithStatus(rows, j, RowFailed) + WithStatus(rows, j, Skipped)
  {
  }

  lemma SettledRowsSize(rows: map<nat, Row>, j: nat)
    requires forall id :: id in rows && rows[id].abandoned ==> rows[id].status.Skipped?
    ensures |WithStatus(rows, j, Skipped)| == |By(rows, j, Skipped, false)| + |By(rows, j, Skipped, true)|
    ensures |SettledRows(rows, j)| ==
            |WithStatus(rows, j, Success)| + |WithStatus(rows, j, RowFailed)| + |WithStatus(rows, j, Skipped)|
  {
    SettledRowsSplit(rows, j);
    DisjointUnionSize(By(rows, j, Skipped, false), By(rows, j, Skipped, true));
    var s, f, k := WithStatus(rows, j, Success), WithStatus(rows, j, RowFailed), WithStatus(rows, j, Skipped);
    DisjointUnionSize(s, f);
    DisjointUnionSize(s + f, k);
  }

  /** Row truth of one job, split by what the header counts. */
  lemma RowTruth(db: Db, j: nat)
    requires Inv(db) && j in db.jobs
    ensures var job := db.jobs[j];
            && job.total == |RowsOf(db.rows, j)|
            && job.processed == job.success + job.failed + job.skipped
            && job.success == |WithStatus(db.rows, j, Success)|
            && job.failed == |WithStatus(db.rows, j, RowFailed)|
            && job.skipped + |By(db.rows, j, Skipped, true)| == |WithStatus(db.rows, j, Skipped)|
            && job.processed + |By(db.rows, j, Skipped, true)| == |SettledRows(db.rows, j)|
            && (!Terminal(job.status) ==> By(db.rows, j, Skipped, true) == {})
  {
    assert CountersTrue(db.jobs[j], db.rows, j);
    SettledRowsSplit(db.rows, j);
    SettledRowsSize(db.rows, j);
  }

  /** The recount that reconciliation runs finds nothing to repair. */
  lemma RecountIsIdentity(db: Db)
    requires Inv(db)
    ensures RecountJobCounters(db) == db
  {
    forall j | j in db.jobs && !Terminal(db.jobs[j].status)
      ensures Recounted(db.rows, j, db.jobs[j]) == db.jobs[j]
    {
      RowTruth(db, j);
    }
    assert RecountJobCounters(db).jobs == db.jobs;
  }

  lemma HeaderKeepsCounters(db: Db, op: Op)
    requires Inv(db) && (op.OpMarkRunning? || op.OpClose? || op.OpCancelFlag?)
    ensures AllCountersTrue(Do(db, op))
  {
    forall j | j in Do(db, op).jobs
      ensures CountersTrue(Do(db, op).jobs[j], Do(db, op).rows, j)
    {
      assert CountersTrue(db.jobs[j], db.rows, j);
    }
  }

  lemma DoKeepsInv(db: Db, op: Op)
    requires Inv(db) && Legal(db, op)
    ensures Inv(Do(db, op)) && Evolves(db, Do(db, op))
  {
    DoEvolves(db, op);
    match op
    case OpCreate(mode, entities, now) => CreateKeepsCounters(db, mode, entities, now);
    case OpClaim(id, now) => ClaimKeepsCounters(db, id, now);
    case OpSettle(id, j, token, outcome, now) => SettleKeepsCounters(db, id, j, token, outcome, now);
    case OpReset(_, _) => BulkKeepsCounters(db, op);
    case OpAbandon(_) => BulkKeepsCounters(db, op);
    case OpRecount => RecountIsIdentity(db);
    case OpNone =>
    case _ => HeaderKeepsCounters(db, op);
  }

  lemma EvolvesTransitive(a: Db, b: Db, c: Db)
    requires Evolves(a, b) && Evolves(b, c)
    ensures Evolves(a, c)
  {
  }

  /** Counters, well-formedness and evolution over every run of statements. */
  lemma {:induction false} RunKeepsInv(db: Db, ops: seq<Op>)
    requires Inv(db) && LegalRun(db, ops)
    ensures Inv(Run(db, ops)) && Evolves(db, Run(db, ops))
    decreases |ops|
  {
    if ops != [] {
      DoKeepsInv(db, ops[0]);
      RunKeepsInv(Do(db, ops[0]), ops[1..]);
      EvolvesTransitive(db, Do(db, ops[0]), Run(db, ops));
    }
  }

  /**
   * Row truth against the header, in the words of the tables: while the job is
   * open every counter equals its rows; once it is closed only `skipped` can
   * lag, by exactly the abandoned rows.
   */
  lemma CountersMatchRows(ops: seq<Op>, j: nat)
    requires LegalRun(EmptyDb, ops) && j in Run(EmptyDb, ops).jobs
    ensures var db := Run(EmptyDb, ops); var job := db.jobs[j];
            && job.total == |RowsOf(db.rows, j)|
            && job.processed == job.success + job.failed + job.skipped <= job.total
            && job.success == |WithStatus(db.rows, j, Success)|
            && job.failed == |WithStatus(db.rows, j, RowFailed)|
            && job.skipped + |By(db.rows, j, Skipped, true)| == |WithStatus(db.rows, j, Skipped)|
            && (!Terminal(job.status) ==> By(db.rows, j, Skipped, true) == {} && job.processed == |SettledRows(db.rows, j)|)
            && RecountJobCounters(db) == db
  {
    RunKeepsInv(EmptyDb, ops);
    var db := Run(EmptyDb, ops);
    RowTruth(db, j);
    SubsetSize(SettledRows(db.rows, j), RowsOf(db.rows, j));
    RecountIsIdentity(db);
  }

  // ----- consequences of evolution -----

  lemma RowsSplit(rows: map<nat, Row>, j: nat)
    ensures |RowsOf(rows, j)| ==
            |SettledRows(rows, j)| + |WithStatus(rows, j, RowPending)| + |WithStatus(rows, j, Processing)|
  {
    var settled, pending, held := SettledRows(rows, j), WithStatus(rows, j, RowPending), WithStatus(rows, j, Processing);
    DisjointUnionSize(settled, pending);
    DisjointUnionSize(settled + pending, held);
    assert RowsOf(rows, j) == settled + pending + held;
  }

  lemma VerdictIsTerminal(rows: map<nat, Row>, j: nat)
    ensures Terminal(VerdictOfRows(rows, j))
  {
  }

  lemma SettledRowsGrow(a: Db, b: Db, j: nat)
    requires Evolves(a, b) && j in a.jobs
    ensures RowsOf(b.rows, j) == RowsOf(a.rows, j)
    ensures SettledRows(a.rows, j) <= SettledRows(b.rows, j)
    ensures AllSettled(a.rows, j) ==> AllSettled(b.rows, j) && VerdictOfRows(b.rows, j) == VerdictOfRows(a.rows, j)
  {
    assert RowsOf(b.rows, j) == RowsOf(a.rows, j);
    if AllSettled(a.rows, j) {
      assert forall id :: id in b.rows && b.rows[id].job == j ==> id in a.rows && b.rows[id] == a.rows[id];
      assert WithStatus(b.rows, j, RowFailed) == WithStatus(a.rows, j, RowFailed);
      assert WithStatus(b.rows, j, Success) == WithStatus(a.rows, j, Success);
    }
  }

  /** On an open, fully settled job the header yields the verdict of the rows. */
  lemma HeaderVerdictIsRowVerdict(db: Db, j: nat)
    requires Inv(db) && j in db.jobs
    ensures VerdictOfHeader(db.jobs[j]) == VerdictOfRows(db.rows, j)
  {
    RowTruth(db, j);
  }

  // ----- fencing -----

  function PhaseOf(s: RowStatus): Fencing.Phase {
    match s
    case RowPending => Fencing.Waiting
    case Processing => Fencing.Held
    case _ => Fencing.Done
  }

  function Slots(db: Db): Fencing.Table<nat> {
    map id | id in db.rows :: Fencing.Slot(PhaseOf(db.rows[id].status), db.rows[id].token)
  }

  /** The fencing operation behind each statement. */
  function FenceOp(db: Db, op: Op): Fencing.Op<nat> {
    match op
    case OpCreate(_, entities, _) => Fencing.Add(Interval(db.nextRow, |entities|))
    case OpClaim(id, _) => Fencing.Claim(id)
    case OpSettle(id, j, token, _, _) => if j in db.jobs then Fencing.Settle(id, token) else Fencing.Idle
    case OpReset(cutoff, _) => Fencing.Reset(set id | id in db.rows && Stuck(db, id, cutoff))
    case OpAbandon(_) => Fencing.Abandon(set id | id in db.rows && Orphaned(db, id))
    case _ => Fencing.Idle
  }

  function FenceOps(db: Db, ops: seq<Op>): seq<Fencing.Op<nat>>
    decreases |ops|
  {
    if ops == [] then [] else [FenceOp(db, ops[0])] + FenceOps(Do(db, ops[0]), ops[1..])
  }

  lemma CreateRefinesFencing(db: Db, op: Op)
    requires WellFormed(db) && op.OpCreate?
    ensures Slots(Do(db, op)) == Fencing.Do(Slots(db), FenceOp(db, op))
  {
  }

  lemma RowStatementRefinesFencing(db: Db, op: Op)
    requires op.OpClaim? || op.OpSettle?
    ensures Slots(Do(db, op)) == Fencing.Do(Slots(db), FenceOp(db, op))
  {
  }

  lemma BulkRefinesFencing(db: Db, op: Op)
    requires op.OpReset? || op.OpAbandon?
    ensures Slots(Do(db, op)) == Fencing.Do(Slots(db), FenceOp(db, op))
  {
  }

  lemma DoRefinesFencing(db: Db, op: Op)
    requires WellFormed(db)
    ensures Slots(Do(db, op)) == Fencing.Do(Slots(db), FenceOp(db, op))
  {
    match op
    case OpCreate(_, _, _) => CreateRefinesFencing(db, op);
    case OpClaim(_, _) => RowStatementRefinesFencing(db, op);
    case OpSettle(_, _, _, _, _) => RowStatementRefinesFencing(db, op);
    case OpReset(_, _) => BulkRefinesFencing(db, op);
    case OpAbandon(_) => BulkRefinesFencing(db, op);
    case _ =>
  }

  lemma {:induction false} RunRefinesFencing(db: Db, log: seq<Fencing.Entry<nat>>, ops: seq<Op>)
    requires Inv(db) && LegalRun(db, ops)
    ensures Slots(Run(db, ops)) == Fencing.Run(Fencing.World(Slots(db), log), FenceOps(db, ops)).table
    decreases |ops|
  {
    if ops != [] {
      var w := Fencing.World(Slots(db), log);
      var f := FenceOp(db, ops[0]);
      DoRefinesFencing(db, ops[0]);
      DoKeepsInv(db, ops[0]);
      RunRefinesFencing(Do(db, ops[0]), Fencing.Step(w, f).log, ops[1..]);
      assert FenceOps(db, ops)[1..] == FenceOps(Do(db, ops[0]), ops[1..]);
    }
  }

  /**
   * Row fencing of the batch tables over every run: tokens of a row's claims
   * increase, at most one settlement of a row lands, and it belongs to the
   * row's latest claim.
   */
  lemma BatchRowsAreFenced(ops: seq<Op>)
    requires LegalRun(EmptyDb, ops)
    ensures var w := Fencing.Run(Fencing.Start<nat>(), FenceOps(EmptyDb, ops));
            Fencing.Fenced(w) && w.table == Slots(Run(EmptyDb, ops))
  {
    assert Slots(EmptyDb) == map[];
    RunRefinesFencing(EmptyDb, [], ops);
    Fencing.FencingHolds(FenceOps(EmptyDb, ops));
  }
}
