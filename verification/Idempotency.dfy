/**
 * The idempotency ledger and its replay cache: the statements on both stores,
 * and the reserve, complete and fail use cases as interleaved processes, one
 * statement or cache command at a time.
 */
module Idempotency {
  import opened Common

  type Json = string

  datatype Identity = Identity(tenant: string, company: string, scope: string, key: string)

  /** Tenant, company and scope are free of the cache-key separator. */
  predicate Clean(i: Identity) {
    ':' !in i.tenant && ':' !in i.company && ':' !in i.scope
  }

  const REDIS_PREFIX := "idempotency"

  function BuildKey(i: Identity): string {
    REDIS_PREFIX + ":" + (i.tenant + ":" + (i.company + ":" + (i.scope + ":" + i.key)))
  }

  datatype RowStatus = InProgress | Completed

  datatype Row = Row(
    id: nat,
    status: RowStatus,
    token: nat,
    version: nat,
    result: Option<Json>,
    hash: Option<string>,
    claimedAt: int,
    expiresAt: int)

  type Ledger = map<Identity, Row>

  datatype CacheEntry = CacheEntry(value: Json, expiresAt: int)

  type Cache = map<string, CacheEntry>

  datatype Reservation = Reservation(identity: Identity, id: nat, token: nat, version: nat)

  datatype Request = Request(identity: Identity, hash: Option<string>, ttl: int)

  datatype Answer =
    | Acquired(reservation: Reservation)
    | Replay(value: Json)
    | Busy
    | KeyMismatch

  /** Absent and empty hashes are not compared. */
  predicate HashesDiffer(a: Option<string>, b: Option<string>) {
    a.GetOr("") != "" && b.GetOr("") != "" && a != b
  }

  /** They differ if and only if both are there, neither is empty, and the texts are not the same. */
  lemma HashesDifferExactly(a: Option<string>, b: Option<string>)
    ensures HashesDiffer(a, b) <==> a.Some? && b.Some? && |a.value| > 0 && |b.value| > 0 && a.value != b.value
  {
  }

  // ----- ledger statements -----

  function InsertClaim(ledger: Ledger, i: Identity, id: nat, token: nat, hash: Option<string>, expiresAt: int, now: int): Ledger {
    if i in ledger then ledger else ledger[i := Row(id, InProgress, token, 1, None, hash, now, expiresAt)]
  }

  predicate CanTakeOver(ledger: Ledger, i: Identity, cutoff: int) {
    i in ledger && ledger[i].status.InProgress? && ledger[i].claimedAt < cutoff
  }

  function TakeoverExpiredClaim(ledger: Ledger, i: Identity, token: nat, cutoff: int, expiresAt: int, now: int): Ledger {
    if CanTakeOver(ledger, i, cutoff)
    then ledger[i := ledger[i].(token := token, result := None, expiresAt := expiresAt, claimedAt := now,
                                version := ledger[i].version + 1)]
    else ledger
  }

  /** The guard of complete and fail: id, token, version and IN_PROGRESS. */
  predicate Owns(ledger: Ledger, r: Reservation) {
    && r.identity in ledger && ledger[r.identity].status.InProgress?
    && ledger[r.identity].id == r.id && ledger[r.identity].token == r.token && ledger[r.identity].version == r.version
  }

  function CompleteCas(ledger: Ledger, r: Reservation, value: Json): Ledger {
    if Owns(ledger, r)
    then ledger[r.identity := ledger[r.identity].(status := Completed, result := Some(value),
                                                  version := ledger[r.identity].version + 1)]
    else ledger
  }

  function FailDeleteCas(ledger: Ledger, r: Reservation): Ledger {
    if Owns(ledger, r) then ledger - {r.identity} else ledger
  }

  predicate Matches(row: Row, r: Reservation) {
    row.id == r.id && row.token == r.token && row.version == r.version && row.status.InProgress?
  }

  /** The same two statements as they are written: the row is found by its id. */
  function CompleteCasById(ledger: Ledger, r: Reservation, value: Json): Ledger {
    map i | i in ledger ::
      if Matches(ledger[i], r)
      then ledger[i].(status := Completed, result := Some(value), version := ledger[i].version + 1)
      else ledger[i]
  }

  function FailDeleteCasById(ledger: Ledger, r: Reservation): Ledger {
    map i | i in ledger && !Matches(ledger[i], r) :: ledger[i]
  }

  function PurgeExpired(ledger: Ledger, cutoff: int): Ledger {
    map i | i in ledger && !(ledger[i].expiresAt < cutoff) :: ledger[i]
  }

  function CacheHit(cache: Cache, i: Identity, now: int): bool {
    BuildKey(i) in cache && now < cache[BuildKey(i)].expiresAt
  }

  datatype LedgerOp =
    | Keep
    | Insert(identity: Identity, hash: Option<string>, expiresAt: int)
    | TakeOver(identity: Identity, cutoff: int, expiresAt: int)
    | StoreResult(r: Reservation, value: Json)
    | Release(r: Reservation)
    | PurgeTo(cutoff: int)

  /** The ledger with the ids, tokens and the clock that statements draw on. */
  datatype Db = Db(ledger: Ledger, nextId: nat, nextToken: nat, now: int)

  function Do(db: Db, op: LedgerOp): Db {
    match op
    case Keep => db
    case Insert(i, hash, expiresAt) =>
      db.(ledger := InsertClaim(db.ledger, i, db.nextId, db.nextToken, hash, expiresAt, db.now),
          nextId := db.nextId + 1, nextToken := db.nextToken + 1)
    case TakeOver(i, cutoff, expiresAt) =>
      db.(ledger := TakeoverExpiredClaim(db.ledger, i, db.nextToken, cutoff, expiresAt, db.now),
          nextToken := db.nextToken + 1)
    case StoreResult(r, value) => db.(ledger := CompleteCas(db.ledger, r, value))
    case Release(r) => db.(ledger := FailDeleteCas(db.ledger, r))
    case PurgeTo(cutoff) => if cutoff <= db.now then db.(ledger := PurgeExpired(db.ledger, cutoff)) else db
  }

  // ----- the machine -----

  datatype Proc =
    | CacheGet(req: Request, start: int)
    | Inserting(req: Request, start: int, retry: bool)
    | Inspecting(req: Request, start: int)
    | TakingOver(req: Request, start: int)
    | TookOver(req: Request, token: nat, since: int)
    | Completing(r: Reservation, value: Json)
    | CompleteRead(r: Reservation, value: Json)
    | Caching(identity: Identity, value: Json, expiresAt: int)
    | CacheSetting(identity: Identity, value: Json, ttl: int, computedAt: int)
    | Failing(r: Reservation)
    | Evicting(identity: Identity)

  /** Claims written to the ledger for a reserver, CAS settlements that landed with the row's request hash, and answers given. */
  datatype Event =
    | Granted(identity: Identity, id: nat, token: nat, at: int)
    | Settled(identity: Identity, id: nat, token: nat, result: Option<Json>, hash: Option<string>)
    | Answered(req: Request, answer: Answer)

  datatype State = State(
    lease: nat,
    db: Db,
    cache: Cache,
    procs: map<nat, Proc>,
    log: seq<Event>)

  /** How a database call looks to its caller: answered, failed without effect, or effective with the answer lost. */
  datatype Reply = Delivered | Refused | AckLost

  datatype Choice = Choice(reply: Reply, cacheUp: bool)

  datatype Step =
    | Tick(d: nat)
    | Reserve(p: nat, req: Request)
    | Complete(p: nat, r: Reservation, value: Json)
    | Fail(p: nat, r: Reservation)
    | Turn(p: nat, choice: Choice)
    | Purge(cutoff: int)
    | Evict(key: string)
    | Crash(p: nat)

  function Initial(lease: nat): State {
    State(lease, Db(map[], 0, 0, 0), map[], map[], [])
  }

  /** One statement or cache command of a process. */
  datatype Move = Move(op: LedgerOp, cache: Cache, next: Option<Proc>, events: seq<Event>)

  function InsertMove(s: State, proc: Proc, c: Choice): Move
    requires proc.Inserting?
  {
    var req, i := proc.req, proc.req.identity;
    var op := Insert(i, req.hash, proc.start + req.ttl);
    // A first failure falls through to inspection, a second one propagates to the caller.
    var failed := if proc.retry then None else Some(Inspecting(req, proc.start));
    if i in s.db.ledger || c.reply.Refused? then Move(Keep, s.cache, failed, [])
    else if c.reply.AckLost? then Move(op, s.cache, failed, [])
    else Move(op, s.cache, None,
              [Granted(i, s.db.nextId, s.db.nextToken, s.db.now),
               Answered(req, Acquired(Reservation(i, s.db.nextId, s.db.nextToken, 1)))])
  }

  function InspectMove(s: State, proc: Proc): Move
    requires proc.Inspecting?
  {
    var req, i := proc.req, proc.req.identity;
    if i !in s.db.ledger then Move(Keep, s.cache, Some(Inserting(req, proc.start, true)), [])
    else
      var row := s.db.ledger[i];
      if HashesDiffer(row.hash, req.hash)
      then Move(Keep, s.cache, None, [Answered(req, KeyMismatch)])
      else if row.status.Completed?
      then Move(Keep, s.cache, Some(Caching(i, row.result.GetOr("null"), row.expiresAt)),
                [Answered(req, Replay(row.result.GetOr("null")))])
      else Move(Keep, s.cache, Some(TakingOver(req, proc.start)), [])
  }

  function TakeOverMove(s: State, proc: Proc): Move
    requires proc.TakingOver?
  {
    var req, i, cutoff := proc.req, proc.req.identity, proc.start - s.lease;
    if CanTakeOver(s.db.ledger, i, cutoff)
    then Move(TakeOver(i, cutoff, proc.start + req.ttl), s.cache, Some(TookOver(req, s.db.nextToken, s.db.now)),
              [Granted(i, s.db.ledger[i].id, s.db.nextToken, s.db.now)])
    else Move(Keep, s.cache, None, [Answered(req, Busy)])
  }

  function TurnOf(s: State, proc: Proc, c: Choice): Move {
    var ledger, now := s.db.ledger, s.db.now;
    match proc
    case CacheGet(req, start) =>
      if c.cacheUp && CacheHit(s.cache, req.identity, now)
      then Move(Keep, s.cache, None, [Answered(req, Replay(s.cache[BuildKey(req.identity)].value))])
      else Move(Keep, s.cache, Some(Inserting(req, start, false)), [])
    case Inserting(_, _, _) => InsertMove(s, proc, c)
    case Inspecting(_, _) => InspectMove(s, proc)
    case TakingOver(_, _) => TakeOverMove(s, proc)
    case TookOver(req, token, _) =>
      var i := req.identity;
      Move(Keep, s.cache, None,
           [Answered(req, if i in ledger then Acquired(Reservation(i, ledger[i].id, token, ledger[i].version)) else Busy)])
    case Completing(r, value) =>
      if Owns(ledger, r)
      then Move(StoreResult(r, value), s.cache, Some(CompleteRead(r, value)), [Settled(r.identity, r.id, r.token, Some(value), ledger[r.identity].hash)])
      else Move(Keep, s.cache, None, [])
    case CompleteRead(r, value) =>
      Move(Keep, s.cache,
           if r.identity in ledger && ledger[r.identity].id == r.id
           then Some(Caching(r.identity, value, ledger[r.identity].expiresAt)) else None, [])
    case Caching(i, value, expiresAt) =>
      Move(Keep, s.cache, if expiresAt - now > 0 then Some(CacheSetting(i, value, expiresAt - now, now)) else None, [])
    case CacheSetting(i, value, ttl, _) =>
      Move(Keep, if c.cacheUp then s.cache[BuildKey(i) := CacheEntry(value, now + ttl)] else s.cache, None, [])
    case Failing(r) =>
      if Owns(ledger, r)
      then Move(Release(r), s.cache, Some(Evicting(r.identity)), [Settled(r.identity, r.id, r.token, None, ledger[r.identity].hash)])
      else Move(Keep, s.cache, None, [])
    case Evicting(i) => Move(Keep, if c.cacheUp then s.cache - {BuildKey(i)} else s.cache, None, [])
  }

  function Place(procs: map<nat, Proc>, p: nat, next: Option<Proc>): map<nat, Proc> {
    if next.Some? then procs[p := next.value] else procs - {p}
  }

  function TurnProc(s: State, p: nat, c: Choice): State
    requires p in s.procs
  {
    var move := TurnOf(s, s.procs[p], c);
    State(s.lease, Do(s.db, move.op), move.cache, Place(s.procs, p, move.next), s.log + move.events)
  }

  function Spawn(s: State, p: nat, proc: Proc): State {
    if p in s.procs then s else s.(procs := s.procs[p := proc])
  }

  function Apply(s: State, step: Step): State {
    match step
    case Tick(d) => s.(db := s.db.(now := s.db.now + d))
    case Reserve(p, req) => Spawn(s, p, CacheGet(req, s.db.now))
    case Complete(p, r, value) => Spawn(s, p, Completing(r, value))
    case Fail(p, r) => Spawn(s, p, Failing(r))
    case Turn(p, c) => if p in s.procs then TurnProc(s, p, c) else s
    case Purge(cutoff) => s.(db := Do(s.db, PurgeTo(cutoff)))
    case Evict(key) => s.(cache := s.cache - {key})
    case Crash(p) => s.(procs := s.procs - {p})
  }

  function Run(s: State, steps: seq<Step>): State
    decreases |steps|
  {
    if steps == [] then s else Run(Apply(s, steps[0]), steps[1..])
  }

  lemma {:induction false} RunAppend(s: State, steps: seq<Step>, step: Step)
    ensures Run(s, steps + [step]) == Apply(Run(s, steps), step)
    decreases |steps|
  {
    if steps == [] {
      assert [step][1..] == [];
      assert Run(s, [step]) == Run(Apply(s, step), []);
    } else {
      RunAppend(Apply(s, steps[0]), steps[1..], step);
      assert (steps + [step])[1..] == steps[1..] + [step];
    }
  }

  // ----- cache keys -----

  lemma SplitAtColon(a: string, b: string, x: string, y: string)
    requires ':' !in a && ':' !in b && a + ":" + x == b + ":" + y
    ensures a == b && x == y
  {
    var s, t := a + ":" + x, b + ":" + y;
    assert forall k :: 0 <= k < |a| ==> s[k] == a[k];
    assert forall k :: 0 <= k < |b| ==> t[k] == b[k];
    assert s[|a|] == ':' && t[|b|] == ':';
    assert a == s[..|a|] && b == t[..|b|];
    assert x == s[|a| + 1..] && y == t[|b| + 1..];
  }

  /** Clean identities never share a cache key. */
  lemma BuildKeyIsInjective(i: Identity, j: Identity)
    requires Clean(i) && Clean(j) && BuildKey(i) == BuildKey(j)
    ensures i == j
  {
    var n := |REDIS_PREFIX + ":"|;
    var x := i.tenant + ":" + (i.company + ":" + (i.scope + ":" + i.key));
    var y := j.tenant + ":" + (j.company + ":" + (j.scope + ":" + j.key));
    assert x == BuildKey(i)[n..] && y == BuildKey(j)[n..];
    SplitAtColon(i.tenant, j.tenant, i.company + ":" + (i.scope + ":" + i.key), j.company + ":" + (j.scope + ":" + j.key));
    SplitAtColon(i.company, j.company, i.scope + ":" + i.key, j.scope + ":" + j.key);
    SplitAtColon(i.scope, j.scope, i.key, j.key);
  }

  lemma SplitAt(s: string) returns (a: string, b: string)
    requires ':' in s
    ensures s == a + ":" + b && |a| < |s| && |b| < |s|
  {
    var k :| 0 <= k < |s| && s[k] == ':';
    a, b := s[..k], s[k + 1..];
  }

  lemma TenantBoundary(a: string, b: string, company: string, scope: string, key: string)
    ensures BuildKey(Identity(a + ":" + b, company, scope, key)) == BuildKey(Identity(a, b, company + ":" + scope, key))
  {
    assert (a + ":" + b) + ":" + (company + ":" + (scope + ":" + key))
        == a + ":" + (b + ":" + ((company + ":" + scope) + ":" + key));
  }

  lemma CompanyBoundary(tenant: string, a: string, b: string, scope: string, key: string)
    ensures BuildKey(Identity(tenant, a + ":" + b, scope, key)) == BuildKey(Identity(tenant, a, b + ":" + scope, key))
  {
    assert (a + ":" + b) + ":" + (scope + ":" + key) == a + ":" + ((b + ":" + scope) + ":" + key);
  }

  lemma ScopeBoundary(tenant: string, company: string, a: string, b: string, key: string)
    ensures BuildKey(Identity(tenant, company, a + ":" + b, key)) == BuildKey(Identity(tenant, company, a, b + ":" + key))
  {
    assert (a + ":" + b) + ":" + key == a + ":" + (b + ":" + key);
  }

  /** A separator in any part moves the boundary: another identity has the same cache key. */
  lemma SeparatorCollides(i: Identity) returns (j: Identity)
    requires !Clean(i) || ':' in i.key
    ensures j != i && BuildKey(j) == BuildKey(i)
  {
    if ':' in i.tenant {
      var a, b := SplitAt(i.tenant);
      j := Identity(a, b, i.company + ":" + i.scope, i.key);
      TenantBoundary(a, b, i.company, i.scope, i.key);
    } else if ':' in i.company {
      var a, b := SplitAt(i.company);
      j := Identity(i.tenant, a, b + ":" + i.scope, i.key);
      CompanyBoundary(i.tenant, a, b, i.scope, i.key);
    } else if ':' in i.scope {
      var a, b := SplitAt(i.scope);
      j := Identity(i.tenant, i.company, a, b + ":" + i.key);
      ScopeBoundary(i.tenant, i.company, a, b, i.key);
    } else {
      var a, b := SplitAt(i.key);
      j := Identity(i.tenant, i.company, i.scope + ":" + a, b);
      ScopeBoundary(i.tenant, i.company, i.scope, a, b);
    }
  }

  function Colons(s: string): nat {
    if s == "" then 0 else (if s[0] == ':' then 1 else 0) + Colons(s[1..])
  }

  lemma {:induction false} ColonsOfJoin(a: string, b: string)
    ensures Colons(a + ":" + b) == Colons(a) + 1 + Colons(b)
    decreases |a|
  {
    if a == "" {
      assert (a + ":" + b)[1..] == b;
    } else {
      assert (a + ":" + b)[1..] == a[1..] + ":" + b;
      ColonsOfJoin(a[1..], b);
    }
  }

  lemma {:induction false} NoColons(s: string)
    ensures Colons(s) == 0 <==> ':' !in s
    decreases |s|
  {
    if s != "" {
      assert ':' in s <==> s[0] == ':' || ':' in s[1..];
      NoColons(s[1..]);
    }
  }

  lemma ColonsOfKey(i: Identity)
    ensures Colons(BuildKey(i)) == Colons(REDIS_PREFIX) + 4 + Colons(i.tenant) + Colons(i.company) + Colons(i.scope) + Colons(i.key)
  {
    ColonsOfJoin(i.scope, i.key);
    ColonsOfJoin(i.company, i.scope + ":" + i.key);
    ColonsOfJoin(i.tenant, i.company + ":" + (i.scope + ":" + i.key));
    ColonsOfJoin(REDIS_PREFIX, i.tenant + ":" + (i.company + ":" + (i.scope + ":" + i.key)));
  }

  /** An identity has its cache key to itself, among all identities, if and only if no part of it holds the separator. */
  lemma KeyIsItsOwnExactly(i: Identity)
    ensures (forall j: Identity :: BuildKey(j) == BuildKey(i) ==> j == i) <==> Clean(i) && ':' !in i.key
  {
    if Clean(i) && ':' !in i.key {
      forall j: Identity | BuildKey(j) == BuildKey(i)
        ensures j == i
      {
        ColonsOfKey(i);
        ColonsOfKey(j);
        NoColons(i.tenant);
        NoColons(i.company);
        NoColons(i.scope);
        NoColons(i.key);
        NoColons(j.tenant);
        NoColons(j.company);
        NoColons(j.scope);
        BuildKeyIsInjective(i, j);
      }
    } else {
      var j := SeparatorCollides(i);
    }
  }

  // ----- the ledger in every run -----

  ghost predicate DbOk(db: Db) {
    && (forall i :: i in db.ledger ==> db.ledger[i].id < db.nextId && db.ledger[i].token < db.nextToken)
    && (forall i :: i in db.ledger && db.ledger[i].status.Completed? ==> db.ledger[i].result.Some?)
  }

  /**
   * How the ledger may change: ids and tokens are never reused, and a stored
   * result stays exactly as it is until its row is purged past its expiry.
   */
  ghost predicate Evolves(a: Db, b: Db) {
    && a.now <= b.now && a.nextId <= b.nextId && a.nextToken <= b.nextToken
    && (forall i :: i in b.ledger && b.ledger[i].id < a.nextId ==> i in a.ledger && a.ledger[i].id == b.ledger[i].id)
    && (forall i :: i in b.ledger && b.ledger[i].token < a.nextToken ==>
          i in a.ledger && a.ledger[i].id == b.ledger[i].id && a.ledger[i].token == b.ledger[i].token &&
          a.ledger[i].claimedAt == b.ledger[i].claimedAt && a.ledger[i].expiresAt == b.ledger[i].expiresAt)
    && (forall i :: i in a.ledger && a.ledger[i].status.Completed? ==>
          if i in b.ledger && b.ledger[i].id == a.ledger[i].id then b.ledger[i] == a.ledger[i]
          else a.ledger[i].expiresAt < b.now)
  }

  lemma DoEvolves(db: Db, op: LedgerOp)
    requires DbOk(db)
    ensures DbOk(Do(db, op)) && Evolves(db, Do(db, op))
  {
    match op
    case Keep =>
    case Insert(_, _, _) =>
    case TakeOver(_, _, _) =>
    case StoreResult(_, _) =>
    case Release(_) =>
    case PurgeTo(_) =>
  }

  lemma EvolvesTransitive(a: Db, b: Db, c: Db)
    requires DbOk(a) && DbOk(b) && Evolves(a, b) && Evolves(b, c)
    ensures Evolves(a, c)
  {
  }

  lemma ApplyEvolves(s: State, step: Step)
    requires DbOk(s.db)
    ensures DbOk(Apply(s, step).db) && Evolves(s.db, Apply(s, step).db)
    ensures s.log <= Apply(s, step).log && Apply(s, step).lease == s.lease
  {
    match step
    case Turn(p, c) => if p in s.procs { DoEvolves(s.db, TurnOf(s, s.procs[p], c).op); }
    case Purge(cutoff) => DoEvolves(s.db, PurgeTo(cutoff));
    case _ =>
  }

  lemma {:induction false} RunEvolves(s: State, steps: seq<Step>)
    requires DbOk(s.db)
    ensures DbOk(Run(s, steps).db) && Evolves(s.db, Run(s, steps).db)
    ensures s.log <= Run(s, steps).log && Run(s, steps).lease == s.lease
    decreases |steps|
  {
    if steps != [] {
      ApplyEvolves(s, steps[0]);
      RunEvolves(Apply(s, steps[0]), steps[1..]);
      EvolvesTransitive(s.db, Apply(s, steps[0]).db, Run(s, steps).db);
    }
  }
}
