/**
 * The inbox: consumer-side dedupe of broker deliveries. A receive is an
 * insert, a read and a compare-and-set in three separate statements, which
 * other receives, completions, failures, the reconcile sweep and the retention
 * sweep interleave with freely.
 */
module Inbox {
  import opened Common

  datatype Identity = Identity(tenant: string, company: string, consumer: string, messageId: string)

  datatype Status = InProgress | Processed | Suspended

  datatype Row = Row(
    id: nat,
    status: Status,
    attempts: nat,
    token: nat,
    claimedAt: Option<int>,
    processedAt: Option<int>,
    nextAttemptAt: Option<int>)

  /** The table under its unique index. */
  type Table = map<Identity, Row>

  datatype Config = Config(lease: nat, maxAttempts: nat, retryBase: int, retryMax: int)

  /** Exponential in the row's own attempts, between the base and the ceiling. */
  function Backoff(cfg: Config, attempts: nat): int {
    var floor := Max(cfg.retryBase, 0);
    Min(floor * Pow2(Max(attempts - 1, 0)), Max(cfg.retryMax, floor))
  }

  lemma BackoffGrowsToTheCeiling(cfg: Config, a: nat, b: nat)
    requires a <= b
    ensures 0 <= Max(cfg.retryBase, 0) <= Backoff(cfg, a) <= Backoff(cfg, b) <= Max(cfg.retryMax, Max(cfg.retryBase, 0))
  {
    var floor, m, n := Max(cfg.retryBase, 0), Max(a - 1, 0), Max(b - 1, 0);
    Pow2Doubles(m, n);
    assert floor * 1 <= floor * Pow2(m) <= floor * Pow2(n);
  }

  // ----- statements -----

  function InsertIfAbsent(t: Table, i: Identity, id: nat, token: nat, claimedAt: int): Table {
    if i in t then t else t[i := Row(id, InProgress, 1, token, Some(claimedAt), None, None)]
  }

  predicate CanReclaim(t: Table, i: Identity, id: nat, previous: nat) {
    i in t && t[i].id == id && t[i].token == previous && t[i].status.InProgress?
  }

  function Reclaim(t: Table, i: Identity, id: nat, previous: nat, token: nat, now: int): Table {
    if CanReclaim(t, i, id, previous)
    then t[i := t[i].(token := token, claimedAt := Some(now), nextAttemptAt := None, attempts := t[i].attempts + 1)]
    else t
  }

  predicate Owned(row: Row, id: nat, token: nat) {
    row.id == id && row.token == token && row.status.InProgress?
  }

  function Complete(t: Table, id: nat, token: nat, now: int): Table {
    map i | i in t ::
      if Owned(t[i], id, token)
      then t[i].(status := Processed, processedAt := Some(now), claimedAt := None, nextAttemptAt := None)
      else t[i]
  }

  function Fail(t: Table, id: nat, token: nat, cfg: Config, now: int): Table {
    map i | i in t ::
      if Owned(t[i], id, token)
      then t[i].(claimedAt := None, nextAttemptAt := Some(now + Backoff(cfg, t[i].attempts)))
      else t[i]
  }

  predicate Expired(row: Row, cutoff: int) {
    row.status.InProgress? && row.claimedAt.Some? && row.claimedAt.value < cutoff
  }

  /** First reconcile statement: park the poison. */
  function ParkExpired(t: Table, cfg: Config, now: int): Table {
    map i | i in t ::
      if Expired(t[i], now - cfg.lease) && t[i].attempts > cfg.maxAttempts
      then t[i].(status := Suspended, claimedAt := None)
      else t[i]
  }

  /** Second reconcile statement: back off the rest. */
  function BackOffExpired(t: Table, cfg: Config, now: int): Table {
    map i | i in t ::
      if Expired(t[i], now - cfg.lease) && t[i].attempts <= cfg.maxAttempts
      then t[i].(claimedAt := None, nextAttemptAt := Some(now + Backoff(cfg, t[i].attempts)))
      else t[i]
  }

  function DeleteProcessedBefore(t: Table, cutoff: int): Table {
    map i | i in t && !(t[i].status.Processed? && t[i].processedAt.Some? && t[i].processedAt.value < cutoff) :: t[i]
  }

  /** What a receive that found the row does with it. */
  datatype Verdict = Duplicate | Busy | MayReclaim

  function Judge(cfg: Config, row: Row, now: int): Verdict {
    if row.status.Suspended? then Busy
    else if row.status.Processed? then Duplicate
    else if row.claimedAt.Some? && now - row.claimedAt.value < cfg.lease then Busy
    else if row.nextAttemptAt.Some? && row.nextAttemptAt.value > now then Busy
    else MayReclaim
  }

  // ----- operations and their history -----

  datatype Op =
    | Keep
    | Insert(identity: Identity, start: int)
    | Retake(identity: Identity, id: nat, previous: nat, start: int)
    | MarkDone(id: nat, token: nat)
    | MarkFailed(id: nat, token: nat)
    | Park(at: int)
    | BackOff(at: int)
    | Delete(cutoff: int)
    | Refuse(identity: Identity, found: Option<nat>, verdict: Verdict)

  /**
   * Claims, with the lease start and the landing time, settlements that landed, and
   * the answers DUPLICATE and BUSY, with the row that was found.
   */
  datatype Event =
    | Granted(identity: Identity, id: nat, token: nat, at: int, landed: int)
    | Settled(id: nat, token: nat, done: bool)
    | Refused(identity: Identity, found: Option<nat>, verdict: Verdict)

  datatype Db = Db(table: Table, nextId: nat, nextToken: nat, now: int)

  function Do(cfg: Config, db: Db, op: Op): Db {
    match op
    case Keep => db
    case Insert(i, start) =>
      if i in db.table then db
      else db.(table := InsertIfAbsent(db.table, i, db.nextId, db.nextToken, start), nextId := db.nextId + 1, nextToken := db.nextToken + 1)
    case Retake(i, id, previous, start) =>
      db.(table := Reclaim(db.table, i, id, previous, db.nextToken, start), nextToken := db.nextToken + 1)
    case MarkDone(id, token) => db.(table := Complete(db.table, id, token, db.now))
    case MarkFailed(id, token) => db.(table := Fail(db.table, id, token, cfg, db.now))
    case Park(at) => if at <= db.now then db.(table := ParkExpired(db.table, cfg, at)) else db
    case BackOff(at) => if at <= db.now then db.(table := BackOffExpired(db.table, cfg, at)) else db
    case Delete(cutoff) => db.(table := DeleteProcessedBefore(db.table, cutoff))
    case Refuse(_, _, _) => db
  }

  predicate Lands(t: Table, id: nat, token: nat) {
    exists i :: i in t && Owned(t[i], id, token)
  }

  function Note(db: Db, op: Op): seq<Event> {
    match op
    case Insert(i, start) => if i in db.table then [] else [Granted(i, db.nextId, db.nextToken, start, db.now)]
    case Retake(i, id, previous, start) =>
      if CanReclaim(db.table, i, id, previous) then [Granted(i, id, db.nextToken, start, db.now)] else [Refused(i, Some(id), Busy)]
    case Refuse(i, found, verdict) => [Refused(i, found, verdict)]
    case MarkDone(id, token) => if Lands(db.table, id, token) then [Settled(id, token, true)] else []
    case MarkFailed(id, token) => if Lands(db.table, id, token) then [Settled(id, token, false)] else []
    case _ => []
  }

  // ----- the machine -----

  datatype Proc =
    | Inserting(identity: Identity, start: int)
    | Finding(identity: Identity, start: int)
    | Reclaiming(identity: Identity, seen: Row, start: int)
    | Answering(identity: Identity, id: nat, token: nat, start: int)

  datatype State = State(cfg: Config, db: Db, procs: map<nat, Proc>, log: seq<Event>)

  /** Completions, failures and sweeps may come from anyone, with any id and token, at any time. */
  datatype Step =
    | Tick(d: nat)
    | Receive(p: nat, identity: Identity)
    | Turn(p: nat)
    | Write(op: Op)
    | Crash(p: nat)

  function Initial(cfg: Config): State {
    State(cfg, Db(map[], 0, 0, 0), map[], [])
  }

  /** The statement a receive runs next; a row that it may not reclaim is answered at once. */
  function OpOf(cfg: Config, db: Db, proc: Proc): Op {
    match proc
    case Inserting(i, start) => Insert(i, start)
    case Finding(i, start) =>
      if i !in db.table then Refuse(i, None, Busy)
      else
        var verdict := Judge(cfg, db.table[i], start);
        if verdict.MayReclaim? then Keep else Refuse(i, Some(db.table[i].id), verdict)
    case Reclaiming(i, seen, start) => Retake(i, seen.id, seen.token, start)
    case Answering(_, _, _, _) => Keep
  }

  function NextOf(cfg: Config, db: Db, proc: Proc): Option<Proc> {
    match proc
    case Inserting(i, start) =>
      Some(if i in db.table then Finding(i, start) else Answering(i, db.nextId, db.nextToken, start))
    case Finding(i, start) =>
      if i in db.table && Judge(cfg, db.table[i], start).MayReclaim? then Some(Reclaiming(i, db.table[i], start)) else None
    case Reclaiming(i, seen, start) =>
      if CanReclaim(db.table, i, seen.id, seen.token) then Some(Answering(i, seen.id, db.nextToken, start)) else None
    case Answering(_, _, _, _) => None
  }

  function Place(procs: map<nat, Proc>, p: nat, next: Option<Proc>): map<nat, Proc> {
    if next.Some? then procs[p := next.value] else procs - {p}
  }

  /** The write of a step; claims and answers are made by receives alone. */
  function WriteOf(s: State, step: Step): Op {
    match step
    case Turn(p) => if p in s.procs then OpOf(s.cfg, s.db, s.procs[p]) else Keep
    case Write(op) => if op.Insert? || op.Retake? || op.Refuse? then Keep else op
    case _ => Keep
  }

  function ProcsAfter(s: State, step: Step): map<nat, Proc> {
    match step
    case Receive(p, i) => if p in s.procs then s.procs else s.procs[p := Inserting(i, s.db.now)]
    case Turn(p) => if p in s.procs then Place(s.procs, p, NextOf(s.cfg, s.db, s.procs[p])) else s.procs
    case Crash(p) => s.procs - {p}
    case _ => s.procs
  }

  function Apply(s: State, step: Step): State {
    var op := WriteOf(s, step);
    var db := Do(s.cfg, s.db, op);
    State(s.cfg, if step.Tick? then db.(now := db.now + step.d) else db, ProcsAfter(s, step), s.log + Note(s.db, op))
  }

  function Run(s: State, steps: seq<Step>): State
    decreases |steps|
  {
    if steps == [] then s else Run(Apply(s, steps[0]), steps[1..])
  }

  // ----- exclusivity -----

  ghost predicate SettledIn(log: seq<Event>, token: nat) {
    exists c :: 0 <= c < |log| && log[c].Settled? && log[c].token == token
  }

  ghost predicate Holds(t: Table, g: Event)
    requires g.Granted?
  {
    && g.identity in t && t[g.identity].status.InProgress? && t[g.identity].id == g.id && t[g.identity].token == g.token
    && t[g.identity].claimedAt == Some(g.at)
  }

  /** A reservation is settled, or its lease is over. */
  ghost predicate Over(cfg: Config, log: seq<Event>, g: Event, now: int)
    requires g.Granted?
  {
    SettledIn(log, g.token) || now >= g.at + cfg.lease
  }

  ghost predicate GrantOk(s: State, g: Event)
    requires g.Granted?
  {
    g.token < s.db.nextToken && g.at <= s.db.now && (Holds(s.db.table, g) || Over(s.cfg, s.log, g, s.db.now))
  }

  ghost predicate GrantsOk(s: State) {
    forall a :: 0 <= a < |s.log| && s.log[a].Granted? ==> GrantOk(s, s.log[a])
  }

  ghost predicate GrantedTo(log: seq<Event>, i: Identity, id: nat, token: nat, at: int) {
    exists a :: 0 <= a < |log| && log[a].Granted? && log[a].identity == i && log[a].id == id && log[a].token == token && log[a].at == at
  }

  /** A receive that is about to reclaim has seen the end of every reservation made under the token it presents. */
  ghost predicate ReaderOk(s: State, proc: Proc) {
    && proc.start <= s.db.now
    && (proc.Reclaiming? ==>
          && proc.seen.token < s.db.nextToken
          && forall a :: 0 <= a < |s.log| && s.log[a].Granted? && s.log[a].identity == proc.identity && s.log[a].token == proc.seen.token
               ==> Over(s.cfg, s.log, s.log[a], s.db.now))
    && (proc.Answering? ==> GrantedTo(s.log, proc.identity, proc.id, proc.token, proc.start))
  }

  ghost predicate ReadersOk(s: State) {
    forall p :: p in s.procs ==> ReaderOk(s, s.procs[p])
  }

  ghost predicate TokensOk(db: Db) {
    forall i :: i in db.table ==> db.table[i].token < db.nextToken && db.table[i].id < db.nextId
  }

  /** No claim is written while an earlier one on the identity is unsettled and inside its lease. */
  ghost predicate Exclusive(cfg: Config, log: seq<Event>) {
    forall a, b :: 0 <= a < b < |log| && log[a].Granted? && log[b].Granted? && log[a].identity == log[b].identity
      ==> Over(cfg, log[..b], log[a], log[b].landed)
  }

  ghost predicate Inv(s: State) {
    TokensOk(s.db) && GrantsOk(s) && ReadersOk(s) && Exclusive(s.cfg, s.log)
  }

  lemma SettledInGrows(log: seq<Event>, more: seq<Event>, token: nat)
    requires SettledIn(log, token)
    ensures SettledIn(log + more, token)
  {
    var c :| 0 <= c < |log| && log[c].Settled? && log[c].token == token;
    assert (log + more)[c] == log[c];
  }

  lemma OverLasts(s: State, step: Step, g: Event)
    requires g.Granted? && Over(s.cfg, s.log, g, s.db.now)
    ensures Over(s.cfg, Apply(s, step).log, g, Apply(s, step).db.now)
  {
    if SettledIn(s.log, g.token) {
      SettledInGrows(s.log, Note(s.db, WriteOf(s, step)), g.token);
    }
  }

  /** What ends a reservation: its settlement, a reclaim by a receive that saw its end, or a sweep past its lease. */
  lemma HeldGrantAfterStep(s: State, step: Step, g: Event)
    requires Inv(s) && g.Granted? && g in s.log && Holds(s.db.table, g)
    ensures var t := Apply(s, step); Holds(t.db.table, g) || Over(s.cfg, t.log, g, t.db.now)
  {
    var op, t := WriteOf(s, step), Apply(s, step);
    match op
    case MarkDone(id, token) => SettlementEnds(s, op, g);
    case MarkFailed(id, token) => SettlementEnds(s, op, g);
    case Retake(i, id, previous, start) =>
      if i == g.identity && CanReclaim(s.db.table, i, id, previous) {
        assert ReaderOk(s, s.procs[step.p]);
        OverLasts(s, step, g);
      }
    case _ =>
  }

  lemma SettlementEnds(s: State, op: Op, g: Event)
    requires g.Granted? && Holds(s.db.table, g) && (op.MarkDone? || op.MarkFailed?)
    ensures Holds(Do(s.cfg, s.db, op).table, g) || SettledIn(s.log + Note(s.db, op), g.token)
  {
    if Owned(s.db.table[g.identity], op.id, op.token) {
      assert Lands(s.db.table, op.id, op.token);
      assert (s.log + Note(s.db, op))[|s.log|] == Settled(op.id, op.token, op.MarkDone?);
    }
  }

  lemma GrantStaysOk(s: State, step: Step, g: Event)
    requires Inv(s) && g.Granted? && g in s.log && GrantOk(s, g)
    ensures GrantOk(Apply(s, step), g)
  {
    if Holds(s.db.table, g) {
      HeldGrantAfterStep(s, step, g);
    } else {
      OverLasts(s, step, g);
    }
  }

  /** A new reservation holds its row, and every earlier one on the identity is over. */
  lemma NewGrant(s: State, step: Step, n: Event)
    requires Inv(s) && n.Granted? && n in Note(s.db, WriteOf(s, step))
    ensures Note(s.db, WriteOf(s, step)) == [n] && n.landed == s.db.now && GrantOk(Apply(s, step), n)
    ensures forall a :: 0 <= a < |s.log| && s.log[a].Granted? && s.log[a].identity == n.identity ==>
              Over(s.cfg, s.log, s.log[a], s.db.now)
  {
    assert step.Turn? && step.p in s.procs && ReaderOk(s, s.procs[step.p]);
    forall a | 0 <= a < |s.log| && s.log[a].Granted? && s.log[a].identity == n.identity
      ensures Over(s.cfg, s.log, s.log[a], s.db.now)
    {
      assert GrantOk(s, s.log[a]);
    }
  }

  lemma GrantsStayOk(s: State, step: Step)
    requires Inv(s)
    ensures GrantsOk(Apply(s, step))
  {
    var t, n := Apply(s, step), |s.log|;
    forall a | 0 <= a < |t.log| && t.log[a].Granted?
      ensures GrantOk(t, t.log[a])
    {
      if a < n {
        assert t.log[a] == s.log[a];
        GrantStaysOk(s, step, s.log[a]);
      } else {
        assert t.log[a] == Note(s.db, WriteOf(s, step))[a - n];
        NewGrant(s, step, t.log[a]);
      }
    }
  }

  lemma ExclusivityStays(s: State, step: Step)
    requires Inv(s)
    ensures Exclusive(s.cfg, Apply(s, step).log)
  {
    var t, n := Apply(s, step), |s.log|;
    forall a, b | 0 <= a < b < |t.log| && t.log[a].Granted? && t.log[b].Granted? && t.log[a].identity == t.log[b].identity
      ensures Over(s.cfg, t.log[..b], t.log[a], t.log[b].landed)
    {
      if b < n {
        assert t.log[..b] == s.log[..b] && t.log[a] == s.log[a] && t.log[b] == s.log[b];
      } else {
        assert t.log[b] == Note(s.db, WriteOf(s, step))[b - n];
        NewGrant(s, step, t.log[b]);
        assert b == n && t.log[..n] == s.log && t.log[a] == s.log[a];
      }
    }
  }

  /** Having read a row whose lease is over or whose claim was given up is enough. */
  lemma ReaderBecomesOk(s: State, proc: Proc)
    requires Inv(s) && ReaderOk(s, proc) && NextOf(s.cfg, s.db, proc).Some? && !NextOf(s.cfg, s.db, proc).value.Answering?
    ensures ReaderOk(s, NextOf(s.cfg, s.db, proc).value)
  {
    var next := NextOf(s.cfg, s.db, proc).value;
    if next.Reclaiming? {
      forall a | 0 <= a < |s.log| && s.log[a].Granted? && s.log[a].identity == next.identity && s.log[a].token == next.seen.token
        ensures Over(s.cfg, s.log, s.log[a], s.db.now)
      {
        assert GrantOk(s, s.log[a]);
      }
    }
  }

  lemma ClaimerBecomesOk(s: State, p: nat)
    requires Inv(s) && p in s.procs && NextOf(s.cfg, s.db, s.procs[p]).Some? && NextOf(s.cfg, s.db, s.procs[p]).value.Answering?
    ensures ReaderOk(Apply(s, Turn(p)), NextOf(s.cfg, s.db, s.procs[p]).value)
  {
    var t := Apply(s, Turn(p));
    assert ReaderOk(s, s.procs[p]);
    assert t.log[|s.log|] == Note(s.db, OpOf(s.cfg, s.db, s.procs[p]))[0];
  }

  lemma GrantedToGrows(log: seq<Event>, more: seq<Event>, i: Identity, id: nat, token: nat, at: int)
    requires GrantedTo(log, i, id, token, at)
    ensures GrantedTo(log + more, i, id, token, at)
  {
    var a :| 0 <= a < |log| && log[a].Granted? && log[a].identity == i && log[a].id == id && log[a].token == token && log[a].at == at;
    assert (log + more)[a] == log[a];
  }

  lemma ReaderStaysOk(s: State, step: Step, proc: Proc)
    requires TokensOk(s.db) && ReaderOk(s, proc)
    ensures ReaderOk(Apply(s, step), proc)
  {
    var t, n := Apply(s, step), |s.log|;
    if proc.Answering? {
      GrantedToGrows(s.log, Note(s.db, WriteOf(s, step)), proc.identity, proc.id, proc.token, proc.start);
    }
    if proc.Reclaiming? {
      forall a | 0 <= a < |t.log| && t.log[a].Granted? && t.log[a].identity == proc.identity && t.log[a].token == proc.seen.token
        ensures Over(t.cfg, t.log, t.log[a], t.db.now)
      {
        if a < n {
          assert t.log[a] == s.log[a];
          OverLasts(s, step, s.log[a]);
        }
      }
    }
  }

  lemma ReadersStayOk(s: State, step: Step)
    requires Inv(s)
    ensures ReadersOk(Apply(s, step))
  {
    var t := Apply(s, step);
    forall p | p in t.procs
      ensures ReaderOk(t, t.procs[p])
    {
      if p in s.procs && t.procs[p] == s.procs[p] {
        ReaderStaysOk(s, step, s.procs[p]);
      } else if step.Turn? && t.procs[p].Answering? {
        ClaimerBecomesOk(s, p);
      } else if step.Turn? {
        ReaderBecomesOk(s, s.procs[p]);
        ReaderStaysOk(s, step, t.procs[p]);
      }
    }
  }

  lemma TokensStayOk(s: State, step: Step)
    requires TokensOk(s.db)
    ensures TokensOk(Apply(s, step).db)
    ensures s.db.nextId <= Apply(s, step).db.nextId
  {
  }

  lemma {:induction false} RunKeepsInv(s: State, steps: seq<Step>)
    requires Inv(s)
    ensures Inv(Run(s, steps)) && Run(s, steps).cfg == s.cfg
    decreases |steps|
  {
    if steps != [] {
      TokensStayOk(s, steps[0]);
      GrantsStayOk(s, steps[0]);
      ReadersStayOk(s, steps[0]);
      ExclusivityStays(s, steps[0]);
      RunKeepsInv(Apply(s, steps[0]), steps[1..]);
    }
  }

  /** Reservations are exclusive in every interleaving. */
  lemma ReservationsAreExclusive(cfg: Config, steps: seq<Step>)
    ensures Exclusive(cfg, Run(Initial(cfg), steps).log)
  {
    RunKeepsInv(Initial(cfg), steps);
  }

  // ----- the answer -----

  /** Every other claim on the identity is settled, or its lease is over. */
  ghost predicate OthersOver(s: State, i: Identity, token: nat) {
    forall a :: 0 <= a < |s.log| && s.log[a].Granted? && s.log[a].identity == i && s.log[a].token != token ==>
      Over(s.cfg, s.log, s.log[a], s.db.now)
  }

  /**
   * An ACQUIRED answer given inside the lease of its claim owns its row, and every
   * other claim on the identity is over, unless it has itself been settled before.
   */
  lemma PromptAnswersAreExclusive(cfg: Config, steps: seq<Step>, p: nat)
    requires var s := Run(Initial(cfg), steps);
             p in s.procs && s.procs[p].Answering? && s.db.now < s.procs[p].start + cfg.lease
    ensures var s := Run(Initial(cfg), steps); var proc := s.procs[p];
            SettledIn(s.log, proc.token) ||
            (proc.identity in s.db.table && Owned(s.db.table[proc.identity], proc.id, proc.token) && OthersOver(s, proc.identity, proc.token))
  {
    RunKeepsInv(Initial(cfg), steps);
    var s := Run(Initial(cfg), steps);
    var proc := s.procs[p];
    assert ReaderOk(s, proc);
    var a :| 0 <= a < |s.log| && s.log[a].Granted? && s.log[a].identity == proc.identity && s.log[a].id == proc.id &&
             s.log[a].token == proc.token && s.log[a].at == proc.start;
    assert GrantOk(s, s.log[a]);
    if !SettledIn(s.log, proc.token) {
      forall b | 0 <= b < |s.log| && s.log[b].Granted? && s.log[b].identity == proc.identity && s.log[b].token != proc.token
        ensures Over(s.cfg, s.log, s.log[b], s.db.now)
      {
        assert GrantOk(s, s.log[b]);
      }
    }
  }

  lemma {:induction false} RunAppend(s: State, steps: seq<Step>, step: Step)
    ensures Run(s, steps + [step]) == Apply(Run(s, steps), step)
    decreases |steps|
  {
    if steps == [] {
      assert [step][1..] == [];
      assert Run(s, [step]) == Run(Apply(s, step), []);
    } else {
      RunAppend(Apply(s, steps[0]), steps[1..], step);
      assert (steps + [step])[1..] == steps[1..] + [step];
    }
  }

  lemma RunOneMore(s: State, steps: seq<Step>, step: Step) returns (more: seq<Step>)
    ensures Run(s, more) == Apply(Run(s, steps), step)
  {
    RunAppend(s, steps, step);
    more := steps + [step];
  }

  /** A receive whose claim has landed and whose answer is `delay` old. */
  function ClaimedAndWaiting(cfg: Config, i: Identity, delay: nat): State {
    State(cfg, Db(map[i := Row(0, InProgress, 1, 0, Some(0), None, None)], 1, 1, delay),
          map[0 := Answering(i, 0, 0, 0)], [Granted(i, 0, 0, 0, 0)])
  }

  lemma ClaimAndWait(cfg: Config, i: Identity, delay: nat) returns (steps: seq<Step>)
    ensures Run(Initial(cfg), steps) == ClaimedAndWaiting(cfg, i, delay)
  {
    var s0 := Initial(cfg);
    steps := [];
    assert Run(s0, steps) == s0;
    steps := RunOneMore(s0, steps, Receive(0, i));
    assert Run(s0, steps).procs == map[0 := Inserting(i, 0)];
    steps := RunOneMore(s0, steps, Turn(0));
    assert Run(s0, steps).procs == map[0 := Answering(i, 0, 0, 0)];
    steps := RunOneMore(s0, steps, Tick(delay));
  }

  /**
   * The bound is exact: for every answer that comes a lease or more after its
   * claim there is a run in which another, unsettled and live claim owns the row.
   */
  lemma LateAnswerBreaksExclusivity(cfg: Config, delay: nat, i: Identity) returns (steps: seq<Step>)
    requires delay >= cfg.lease && cfg.lease > 0
    ensures var s := Run(Initial(cfg), steps); var g := Granted(i, 0, 1, delay, delay);
            && 0 in s.procs && s.procs[0] == Answering(i, 0, 0, 0) && s.db.now == delay
            && s.log == [Granted(i, 0, 0, 0, 0), g] && Holds(s.db.table, g) && !Over(s.cfg, s.log, g, s.db.now)
  {
    var s0 := Initial(cfg);
    steps := ClaimAndWait(cfg, i, delay);
    var row := Row(0, InProgress, 1, 0, Some(0), None, None);
    steps := RunOneMore(s0, steps, Receive(1, i));
    assert Run(s0, steps).procs == map[0 := Answering(i, 0, 0, 0), 1 := Inserting(i, delay)];
    steps := RunOneMore(s0, steps, Turn(1));
    assert Run(s0, steps).procs == map[0 := Answering(i, 0, 0, 0), 1 := Finding(i, delay)];
    steps := RunOneMore(s0, steps, Turn(1));
    assert Run(s0, steps).procs == map[0 := Answering(i, 0, 0, 0), 1 := Reclaiming(i, row, delay)];
    steps := RunOneMore(s0, steps, Turn(1));
  }
}
