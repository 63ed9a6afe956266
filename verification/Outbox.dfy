/**
 * The outbox: at-least-once publishing of appended events by any number of
 * dispatchers. A dispatcher leases a batch under one fresh token, publishes each
 * message, and settles it by compare-and-set; it may die between any two of
 * these, and the broker may accept a message and still report an error.
 */
module Outbox {
  import opened Common

  datatype Status = Pending | Published | DeadLetter

  datatype Row = Row(
    status: Status,
    attempts: nat,
    token: Option<nat>,
    claimedAt: Option<int>,
    nextRetryAt: Option<int>,
    publishedAt: Option<int>)

  type Table = map<nat, Row>

  datatype Config = Config(lease: nat, maxAttempts: nat, retryBase: int, retryMax: int)

  function Delay(cfg: Config, attempts: nat): int {
    Min(cfg.retryMax, cfg.retryBase * Pow2(Max(0, attempts - 1)))
  }

  // ----- statements -----

  predicate Due(row: Row, now: int, cutoff: int) {
    && row.status.Pending?
    && (row.nextRetryAt.None? || row.nextRetryAt.value <= now)
    && (row.claimedAt.None? || row.claimedAt.value <= cutoff)
  }

  function DueIds(t: Table, now: int, cutoff: int): set<nat> {
    set id | id in t && Due(t[id], now, cutoff)
  }

  function ClaimRows(t: Table, ids: set<nat>, token: nat, claimedAt: int): Table {
    map id | id in t ::
      if id in ids then t[id].(token := Some(token), claimedAt := Some(claimedAt), attempts := t[id].attempts + 1) else t[id]
  }

  predicate Owned(t: Table, id: nat, token: nat) {
    id in t && t[id].status.Pending? && t[id].token == Some(token)
  }

  function MarkPublished(t: Table, id: nat, token: nat, now: int): Table {
    if Owned(t, id, token)
    then t[id := t[id].(status := Published, publishedAt := Some(now), claimedAt := None, token := None)]
    else t
  }

  /** The compare-and-set of markFailed, with the status and retry time its read decided on. */
  function MarkFailed(t: Table, id: nat, token: nat, exhausted: bool, nextRetryAt: Option<int>): Table {
    if Owned(t, id, token)
    then t[id := t[id].(status := if exhausted then DeadLetter else Pending, nextRetryAt := nextRetryAt,
                        claimedAt := None, token := None)]
    else t
  }

  function DeletePublishedBefore(t: Table, cutoff: int): Table {
    map id | id in t && !(t[id].status.Published? && t[id].publishedAt.Some? && t[id].publishedAt.value < cutoff) :: t[id]
  }

  // ----- operations and their history -----

  datatype Op =
    | Keep
    | Add(nextRetryAt: Option<int>)
    | Claim(ids: set<nat>, start: int)
    | Publish(id: nat, token: nat)
    | Fail(id: nat, token: nat, exhausted: bool, nextRetryAt: Option<int>)
    | Delete(cutoff: int)

  datatype Event =
    | Accepted(id: nat)
    | Settled(id: nat, token: nat, status: Status)

  datatype Db = Db(table: Table, nextId: nat, nextToken: nat, now: int)

  /** Whatever the database picked, only due rows are claimed. */
  function Picked(cfg: Config, db: Db, ids: set<nat>, start: int): set<nat> {
    ids * DueIds(db.table, start, start - cfg.lease)
  }

  function Do(cfg: Config, db: Db, op: Op): Db {
    match op
    case Keep => db
    case Add(nextRetryAt) =>
      db.(table := db.table[db.nextId := Row(Pending, 0, None, None, nextRetryAt, None)], nextId := db.nextId + 1)
    case Claim(ids, start) =>
      db.(table := ClaimRows(db.table, Picked(cfg, db, ids, start), db.nextToken, db.now), nextToken := db.nextToken + 1)
    case Publish(id, token) => db.(table := MarkPublished(db.table, id, token, db.now))
    case Fail(id, token, exhausted, nextRetryAt) => db.(table := MarkFailed(db.table, id, token, exhausted, nextRetryAt))
    case Delete(cutoff) => db.(table := DeletePublishedBefore(db.table, cutoff))
  }

  function Note(db: Db, op: Op): seq<Event> {
    match op
    case Publish(id, token) => if Owned(db.table, id, token) then [Settled(id, token, Published)] else []
    case Fail(id, token, exhausted, _) =>
      if Owned(db.table, id, token) then [Settled(id, token, if exhausted then DeadLetter else Pending)] else []
    case _ => []
  }

  // ----- dispatchers -----

  datatype Message = Message(id: nat, attempts: nat)

  datatype Phase =
    | Sending
    | Sent
    | FailReading(retryAt: int)
    | FailWriting(exhausted: bool, nextRetryAt: Option<int>)

  /** A batch in flight under one token; the phase is that of its first message. */
  datatype Proc = Proc(token: nat, queue: seq<Message>, phase: Phase)

  datatype Reply = Took | Refused | TookButErred

  datatype State = State(cfg: Config, db: Db, procs: map<nat, Proc>, log: seq<Event>)

  datatype Step =
    | Tick(d: nat)
    | Append(nextRetryAt: Option<int>)
    | Dispatch(p: nat, ids: seq<nat>, start: int)
    | Turn(p: nat, reply: Reply)
    | Sweep(cutoff: int)
    | Crash(p: nat)

  function Initial(cfg: Config): State {
    State(cfg, Db(map[], 0, 0, 0), map[], [])
  }

  function IdSet(ids: seq<nat>): set<nat> {
    set id | id in ids
  }

  function ClaimedMessages(t: Table, ids: seq<nat>, picked: set<nat>): (queue: seq<Message>)
    ensures forall k :: 0 <= k < |queue| ==> queue[k].id in t && queue[k].id in picked
  {
    if ids == [] then []
    else (if ids[0] in picked && ids[0] in t then [Message(ids[0], t[ids[0]].attempts + 1)] else []) + ClaimedMessages(t, ids[1..], picked)
  }

  /** The batch once its first message is dealt with. */
  function Rest(proc: Proc): Option<Proc> {
    if |proc.queue| <= 1 then None else Some(Proc(proc.token, proc.queue[1..], Sending))
  }

  function OpOf(proc: Proc): Op {
    if proc.queue == [] then Keep
    else match proc.phase
      case Sending => Keep
      case Sent => Publish(proc.queue[0].id, proc.token)
      case FailReading(_) => Keep
      case FailWriting(exhausted, nextRetryAt) => Fail(proc.queue[0].id, proc.token, exhausted, nextRetryAt)
  }

  function NextOf(cfg: Config, db: Db, proc: Proc, reply: Reply): Option<Proc> {
    if proc.queue == [] then None
    else match proc.phase
      case Sending =>
        Some(proc.(phase := if reply.Took? then Sent else FailReading(db.now + Delay(cfg, proc.queue[0].attempts))))
      case Sent => Rest(proc)
      case FailReading(retryAt) =>
        var id := proc.queue[0].id;
        if Owned(db.table, id, proc.token)
        then var exhausted := db.table[id].attempts > cfg.maxAttempts;
          Some(proc.(phase := FailWriting(exhausted, if exhausted then db.table[id].nextRetryAt else Some(retryAt))))
        else Rest(proc)
      case FailWriting(_, _) => Rest(proc)
  }

  function Place(procs: map<nat, Proc>, p: nat, next: Option<Proc>): map<nat, Proc> {
    if next.Some? then procs[p := next.value] else procs - {p}
  }

  predicate Starts(s: State, step: Step) {
    step.Dispatch? && step.p !in s.procs && step.start <= s.db.now
  }

  function WriteOf(s: State, step: Step): Op {
    match step
    case Append(nextRetryAt) => Add(nextRetryAt)
    case Dispatch(p, ids, start) => if Starts(s, step) then Claim(IdSet(ids), start) else Keep
    case Turn(p, _) => if p in s.procs then OpOf(s.procs[p]) else Keep
    case Sweep(cutoff) => Delete(cutoff)
    case _ => Keep
  }

  /** What the broker took in this step. */
  function BrokerNote(s: State, step: Step): seq<Event> {
    if step.Turn? && step.p in s.procs && s.procs[step.p].queue != [] && s.procs[step.p].phase.Sending? && !step.reply.Refused?
    then [Accepted(s.procs[step.p].queue[0].id)] else []
  }

  function ProcsAfter(s: State, step: Step): map<nat, Proc> {
    match step
    case Dispatch(p, ids, start) =>
      if Starts(s, step)
      then s.procs[p := Proc(s.db.nextToken, ClaimedMessages(s.db.table, ids, Picked(s.cfg, s.db, IdSet(ids), start)), Sending)]
      else s.procs
    case Turn(p, reply) => if p in s.procs then Place(s.procs, p, NextOf(s.cfg, s.db, s.procs[p], reply)) else s.procs
    case Crash(p) => s.procs - {p}
    case _ => s.procs
  }

  function Added(s: State, step: Step): seq<Event> {
    BrokerNote(s, step) + Note(s.db, WriteOf(s, step))
  }

  function Apply(s: State, step: Step): State {
    var db := Do(s.cfg, s.db, WriteOf(s, step));
    State(s.cfg, if step.Tick? then db.(now := db.now + step.d) else db, ProcsAfter(s, step), s.log + Added(s, step))
  }

  function Run(s: State, steps: seq<Step>): State
    decreases |steps|
  {
    if steps == [] then s else Run(Apply(s, steps[0]), steps[1..])
  }

  lemma AddedIsShort(s: State, step: Step)
    ensures Added(s, step) == [] || (|Added(s, step)| == 1 && Added(s, step) == [Added(s, step)[0]])
  {
  }

  // ----- nothing is lost -----

  ghost predicate WasAccepted(log: seq<Event>, id: nat) {
    Accepted(id) in log
  }

  /** An appended event is waiting, parked beyond its ceiling, or in the broker's hands. */
  ghost predicate Accounted(cfg: Config, t: Table, log: seq<Event>, id: nat) {
    if id in t then
      match t[id].status
      case Pending => true
      case DeadLetter => t[id].attempts > cfg.maxAttempts
      case Published => WasAccepted(log, id)
    else WasAccepted(log, id)
  }

  ghost predicate NothingLost(s: State) {
    forall id: nat {:trigger Accounted(s.cfg, s.db.table, s.log, id)} :: id < s.db.nextId ==> Accounted(s.cfg, s.db.table, s.log, id)
  }

  /** A dispatcher about to publish has the broker's word; one about to park still sees the attempts it read. */
  ghost predicate ProcOk(s: State, proc: Proc) {
    && proc.token < s.db.nextToken
    && (proc.queue != [] && proc.phase.Sent? ==> WasAccepted(s.log, proc.queue[0].id))
    && (proc.queue != [] && proc.phase.FailWriting? && Owned(s.db.table, proc.queue[0].id, proc.token) ==>
          proc.phase.exhausted == (s.db.table[proc.queue[0].id].attempts > s.cfg.maxAttempts))
  }

  ghost predicate ProcsOk(s: State) {
    forall p :: p in s.procs ==> ProcOk(s, s.procs[p])
  }

  ghost predicate IdsOk(db: Db) {
    && (forall id :: id in db.table ==> id < db.nextId)
    && (forall id :: id in db.table && db.table[id].token.Some? ==> db.table[id].token.value < db.nextToken)
  }

  ghost predicate Inv(s: State) {
    IdsOk(s.db) && ProcsOk(s) && NothingLost(s)
  }

  lemma IdsStayOk(cfg: Config, db: Db, op: Op)
    requires IdsOk(db)
    ensures IdsOk(Do(cfg, db, op))
    ensures db.nextId <= Do(cfg, db, op).nextId && db.nextToken <= Do(cfg, db, op).nextToken
  {
  }

  lemma ProcStaysOk(s: State, step: Step, proc: Proc)
    requires IdsOk(s.db) && ProcOk(s, proc)
    ensures ProcOk(Apply(s, step), proc)
  {
    IdsStayOk(s.cfg, s.db, WriteOf(s, step));
  }

  lemma ProcBecomesOk(s: State, p: nat, reply: Reply)
    requires Inv(s) && p in s.procs && NextOf(s.cfg, s.db, s.procs[p], reply).Some?
    ensures ProcOk(Apply(s, Turn(p, reply)), NextOf(s.cfg, s.db, s.procs[p], reply).value)
  {
    var proc, t := s.procs[p], Apply(s, Turn(p, reply));
    var next := NextOf(s.cfg, s.db, proc, reply).value;
    IdsStayOk(s.cfg, s.db, WriteOf(s, Turn(p, reply)));
    if next.phase.Sent? {
      assert Added(s, Turn(p, reply)) == [Accepted(next.queue[0].id)];
    }
  }

  lemma ProcsStayOk(s: State, step: Step)
    requires Inv(s)
    ensures ProcsOk(Apply(s, step))
  {
    var t := Apply(s, step);
    forall p | p in t.procs
      ensures ProcOk(t, t.procs[p])
    {
      if p in s.procs && t.procs[p] == s.procs[p] {
        ProcStaysOk(s, step, s.procs[p]);
      } else if step.Turn? {
        ProcBecomesOk(s, p, step.reply);
      }
    }
  }

  lemma WriteLosesNothing(s: State, step: Step, id: nat)
    requires Inv(s) && Accounted(s.cfg, s.db.table, s.log, id)
    ensures Accounted(s.cfg, Do(s.cfg, s.db, WriteOf(s, step)).table, s.log + Added(s, step), id)
  {
    var op := WriteOf(s, step);
    if op.Publish? || op.Fail? {
      assert ProcOk(s, s.procs[step.p]);
    }
  }

  lemma NothingGetsLost(s: State, step: Step)
    requires Inv(s)
    ensures NothingLost(Apply(s, step))
  {
    var t := Apply(s, step);
    forall id: nat | id < t.db.nextId
      ensures Accounted(t.cfg, t.db.table, t.log, id)
    {
      if id < s.db.nextId {
        WriteLosesNothing(s, step, id);
      }
    }
  }

  lemma {:induction false} RunKeepsInv(s: State, steps: seq<Step>)
    requires Inv(s)
    ensures Inv(Run(s, steps)) && Run(s, steps).cfg == s.cfg
    decreases |steps|
  {
    if steps != [] {
      IdsStayOk(s.cfg, s.db, WriteOf(s, steps[0]));
      ProcsStayOk(s, steps[0]);
      NothingGetsLost(s, steps[0]);
      RunKeepsInv(Apply(s, steps[0]), steps[1..]);
    }
  }

  /** No appended event is lost in any run. */
  lemma NoEventIsLost(cfg: Config, steps: seq<Step>)
    ensures NothingLost(Run(Initial(cfg), steps))
  {
    RunKeepsInv(Initial(cfg), steps);
  }
}
