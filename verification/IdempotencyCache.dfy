/**
 * The replay cache against the ledger: they agree in every run whose cache
 * writes land at the instant their time to live was computed, a cache hit can
 * then be replayed as a run that never reads the cache, and a cache write that
 * lands later can outlive the row it mirrors.
 */
module IdempotencyCache {
  import opened Common
  import opened Idempotency

  // ----- identities in use -----

  /** Cache keys tell these identities apart. */
  ghost predicate Apart(ids: iset<Identity>) {
    forall i: Identity, j: Identity {:trigger BuildKey(i), BuildKey(j)} :: i in ids && j in ids && BuildKey(i) == BuildKey(j) ==> i == j
  }

  lemma CleanIdentitiesAreApart(ids: iset<Identity>)
    requires forall i :: i in ids ==> Clean(i)
    ensures Apart(ids)
  {
    forall i: Identity, j: Identity {:trigger BuildKey(i), BuildKey(j)} | i in ids && j in ids && BuildKey(i) == BuildKey(j)
      ensures i == j
    {
      BuildKeyIsInjective(i, j);
    }
  }

  function IdentityOf(proc: Proc): Identity {
    match proc
    case CacheGet(req, _) => req.identity
    case Inserting(req, _, _) => req.identity
    case Inspecting(req, _) => req.identity
    case TakingOver(req, _) => req.identity
    case TookOver(req, _, _) => req.identity
    case Completing(r, _) => r.identity
    case CompleteRead(r, _) => r.identity
    case Caching(i, _, _) => i
    case CacheSetting(i, _, _, _) => i
    case Failing(r) => r.identity
    case Evicting(i) => i
  }

  ghost predicate InUse(procs: map<nat, Proc>, ids: iset<Identity>) {
    forall p :: p in procs ==> IdentityOf(procs[p]) in ids
  }

  /** Whatever the step calls for is about one of these identities. */
  ghost predicate CallsOnly(step: Step, ids: iset<Identity>) {
    match step
    case Reserve(_, req) => req.identity in ids
    case Complete(_, r, _) => r.identity in ids
    case Fail(_, r) => r.identity in ids
    case _ => true
  }

  ghost predicate UsesOnly(steps: seq<Step>, ids: iset<Identity>) {
    forall k :: 0 <= k < |steps| ==> CallsOnly(steps[k], ids)
  }

  lemma TurnStaysWithItsIdentity(s: State, proc: Proc, c: Choice)
    ensures var next := TurnOf(s, proc, c).next; next.Some? ==> IdentityOf(next.value) == IdentityOf(proc)
  {
  }

  lemma StaysInUse(s: State, step: Step, ids: iset<Identity>)
    requires InUse(s.procs, ids) && CallsOnly(step, ids)
    ensures InUse(Apply(s, step).procs, ids)
  {
    if step.Turn? && step.p in s.procs {
      TurnStaysWithItsIdentity(s, s.procs[step.p], step.choice);
    }
  }

  // ----- what the cache mirrors -----

  /** The ledger row that a cached value mirrors. */
  ghost predicate Mirrors(db: Db, i: Identity, value: Json, expiresAt: int) {
    i in db.ledger && db.ledger[i].status.Completed? && db.ledger[i].result == Some(value) && db.ledger[i].expiresAt == expiresAt
  }

  /** Until `expiresAt` the ledger row backs the value. */
  ghost predicate Backs(db: Db, i: Identity, value: Json, expiresAt: int) {
    db.now <= expiresAt ==> Mirrors(db, i, value, expiresAt)
  }

  /** A cache entry outlives the row that backs it by at most `d` ticks. */
  ghost predicate BackedWithin(db: Db, i: Identity, entry: CacheEntry, d: nat) {
    exists e: int {:trigger Backs(db, i, entry.value, e)} :: entry.expiresAt - d <= e <= entry.expiresAt && Backs(db, i, entry.value, e)
  }

  ghost predicate CacheBacked(db: Db, cache: Cache, d: nat, ids: iset<Identity>) {
    forall i: Identity {:trigger BuildKey(i)} :: i in ids && BuildKey(i) in cache ==> BackedWithin(db, i, cache[BuildKey(i)], d)
  }

  /** Every live cache entry shows a COMPLETED row's result under the row's own expiry. */
  ghost predicate CacheAgrees(db: Db, cache: Cache, ids: iset<Identity>) {
    forall i: Identity {:trigger BuildKey(i)} :: i in ids && CacheHit(cache, i, db.now) ==>
      Mirrors(db, i, cache[BuildKey(i)].value, cache[BuildKey(i)].expiresAt)
  }

  /** Every live cache entry shows a COMPLETED row's result, under the row's expiry or one tick more. */
  ghost predicate CacheShowsResults(db: Db, cache: Cache, ids: iset<Identity>) {
    forall i: Identity {:trigger BuildKey(i)} :: i in ids && CacheHit(cache, i, db.now) ==>
      var entry := cache[BuildKey(i)];
      Mirrors(db, i, entry.value, entry.expiresAt) || Mirrors(db, i, entry.value, entry.expiresAt - 1)
  }

  /** What a process may still write to the cache is backed by the ledger until it expires. */
  ghost predicate PendingOk(db: Db, proc: Proc) {
    match proc
    case CompleteRead(r, value) =>
      r.id < db.nextId &&
      (r.identity in db.ledger && db.ledger[r.identity].id == r.id ==>
         Mirrors(db, r.identity, value, db.ledger[r.identity].expiresAt))
    case Caching(i, value, expiresAt) => Backs(db, i, value, expiresAt)
    case CacheSetting(i, value, ttl, at) => at <= db.now && Backs(db, i, value, at + ttl)
    case _ => true
  }

  ghost predicate PendingsOk(db: Db, procs: map<nat, Proc>) {
    forall p :: p in procs ==> PendingOk(db, procs[p])
  }

  ghost predicate Inv(s: State, d: nat, ids: iset<Identity>) {
    && Apart(ids) && InUse(s.procs, ids)
    && DbOk(s.db) && CacheBacked(s.db, s.cache, d, ids) && PendingsOk(s.db, s.procs)
  }

  /** A cache write lands at most d ticks after its time to live was computed. */
  predicate Prompt(s: State, step: Step, d: nat) {
    step.Turn? && step.p in s.procs && s.procs[step.p].CacheSetting? ==> s.db.now <= s.procs[step.p].computedAt + d
  }

  predicate PromptRun(s: State, steps: seq<Step>, d: nat)
    decreases |steps|
  {
    steps == [] || (Prompt(s, steps[0], d) && PromptRun(Apply(s, steps[0]), steps[1..], d))
  }

  lemma BackingLasts(a: Db, b: Db, i: Identity, value: Json, expiresAt: int)
    requires Evolves(a, b) && Backs(a, i, value, expiresAt)
    ensures Backs(b, i, value, expiresAt)
  {
  }

  lemma CacheStaysBacked(a: Db, b: Db, cache: Cache, d: nat, ids: iset<Identity>)
    requires Evolves(a, b) && CacheBacked(a, cache, d, ids)
    ensures CacheBacked(b, cache, d, ids)
  {
    forall i: Identity {:trigger BuildKey(i)} | i in ids && BuildKey(i) in cache
      ensures BackedWithin(b, i, cache[BuildKey(i)], d)
    {
      var entry := cache[BuildKey(i)];
      assert BackedWithin(a, i, entry, d);
      var e: int :| entry.expiresAt - d <= e <= entry.expiresAt && Backs(a, i, entry.value, e);
      BackingLasts(a, b, i, entry.value, e);
    }
  }

  lemma PendingLasts(a: Db, b: Db, proc: Proc)
    requires Evolves(a, b) && PendingOk(a, proc)
    ensures PendingOk(b, proc)
  {
  }

  lemma NewPendingOk(s: State, proc: Proc, c: Choice)
    requires DbOk(s.db) && PendingOk(s.db, proc)
    ensures var move := TurnOf(s, proc, c); move.next.Some? ==> PendingOk(Do(s.db, move.op), move.next.value)
  {
  }

  lemma CacheWriteIsBacked(s: State, p: nat, c: Choice, d: nat, ids: iset<Identity>)
    requires p in s.procs && Inv(s, d, ids) && Prompt(s, Turn(p, c), d)
    ensures CacheBacked(s.db, TurnOf(s, s.procs[p], c).cache, d, ids)
  {
    var proc, cache := s.procs[p], TurnOf(s, s.procs[p], c).cache;
    forall i: Identity {:trigger BuildKey(i)} | i in ids && BuildKey(i) in cache
      ensures BackedWithin(s.db, i, cache[BuildKey(i)], d)
    {
      if proc.CacheSetting? && c.cacheUp && BuildKey(i) == BuildKey(proc.identity) {
        assert IdentityOf(proc) in ids && i == proc.identity;
        assert PendingOk(s.db, proc);
        assert Backs(s.db, i, cache[BuildKey(i)].value, proc.computedAt + proc.ttl);
      } else {
        assert BackedWithin(s.db, i, s.cache[BuildKey(i)], d);
      }
    }
  }

  lemma TurnKeepsInv(s: State, p: nat, c: Choice, d: nat, ids: iset<Identity>)
    requires Inv(s, d, ids) && Prompt(s, Turn(p, c), d) && p in s.procs
    ensures Inv(Apply(s, Turn(p, c)), d, ids)
  {
    var proc, t := s.procs[p], Apply(s, Turn(p, c));
    var move := TurnOf(s, proc, c);
    DoEvolves(s.db, move.op);
    CacheWriteIsBacked(s, p, c, d, ids);
    StaysInUse(s, Turn(p, c), ids);
    CacheStaysBacked(s.db, t.db, move.cache, d, ids);
    NewPendingOk(s, proc, c);
    forall q | q in t.procs
      ensures PendingOk(t.db, t.procs[q])
    {
      if q != p {
        PendingLasts(s.db, t.db, s.procs[q]);
      }
    }
  }

  lemma StepKeepsInv(s: State, step: Step, d: nat, ids: iset<Identity>)
    requires Inv(s, d, ids) && CallsOnly(step, ids) && Prompt(s, step, d)
    ensures Inv(Apply(s, step), d, ids)
  {
    var t := Apply(s, step);
    ApplyEvolves(s, step);
    StaysInUse(s, step, ids);
    match step
    case Turn(p, c) => if p in s.procs { TurnKeepsInv(s, p, c, d, ids); }
    case Evict(key) =>
      assert forall i: Identity {:trigger BuildKey(i)} :: BuildKey(i) in t.cache ==> t.cache[BuildKey(i)] == s.cache[BuildKey(i)];
    case _ =>
      CacheStaysBacked(s.db, t.db, s.cache, d, ids);
      forall q | q in t.procs
        ensures PendingOk(t.db, t.procs[q])
      {
        if q in s.procs {
          PendingLasts(s.db, t.db, s.procs[q]);
        }
      }
  }

  lemma {:induction false} RunKeepsInv(s: State, steps: seq<Step>, d: nat, ids: iset<Identity>)
    requires Inv(s, d, ids) && PromptRun(s, steps, d) && UsesOnly(steps, ids)
    ensures Inv(Run(s, steps), d, ids)
    decreases |steps|
  {
    if steps != [] {
      StepKeepsInv(s, steps[0], d, ids);
      RunKeepsInv(Apply(s, steps[0]), steps[1..], d, ids);
    }
  }

  /** An entry that is live with d ticks to spare mirrors its row, under an expiry at most d ticks earlier. */
  lemma HitMirrors(s: State, d: nat, i: Identity, ids: iset<Identity>)
    requires Inv(s, d, ids) && i in ids && BuildKey(i) in s.cache && s.db.now + d <= s.cache[BuildKey(i)].expiresAt
    ensures var entry := s.cache[BuildKey(i)];
            exists e: int {:trigger Mirrors(s.db, i, entry.value, e)} ::
              entry.expiresAt - d <= e <= entry.expiresAt && Mirrors(s.db, i, entry.value, e)
  {
    var entry := s.cache[BuildKey(i)];
    assert BackedWithin(s.db, i, entry, d);
    var e: int :| entry.expiresAt - d <= e <= entry.expiresAt && Backs(s.db, i, entry.value, e);
    assert Mirrors(s.db, i, entry.value, e);
  }

  /**
   * Bounded lateness: if every cache write lands within d ticks of computing its
   * time to live, an entry that would live d ticks longer shows the result of
   * a COMPLETED row, whose expiry precedes its own by at most d.
   */
  lemma LatenessIsTheSlack(lease: nat, steps: seq<Step>, d: nat, ids: iset<Identity>, i: Identity)
    requires Apart(ids) && UsesOnly(steps, ids) && PromptRun(Initial(lease), steps, d) && i in ids
    requires var s := Run(Initial(lease), steps); BuildKey(i) in s.cache && s.db.now + d <= s.cache[BuildKey(i)].expiresAt
    ensures var s := Run(Initial(lease), steps); var entry := s.cache[BuildKey(i)];
            exists e: int {:trigger Mirrors(s.db, i, entry.value, e)} ::
              entry.expiresAt - d <= e <= entry.expiresAt && Mirrors(s.db, i, entry.value, e)
  {
    RunKeepsInv(Initial(lease), steps, d, ids);
    HitMirrors(Run(Initial(lease), steps), d, i, ids);
  }

  lemma ZeroLatenessAgrees(s: State, ids: iset<Identity>)
    requires Inv(s, 0, ids)
    ensures CacheAgrees(s.db, s.cache, ids)
  {
    forall i: Identity {:trigger BuildKey(i)} | i in ids && CacheHit(s.cache, i, s.db.now)
      ensures Mirrors(s.db, i, s.cache[BuildKey(i)].value, s.cache[BuildKey(i)].expiresAt)
    {
      HitMirrors(s, 0, i, ids);
    }
  }

  lemma OneTickLateShowsResults(s: State, ids: iset<Identity>)
    requires Inv(s, 1, ids)
    ensures CacheShowsResults(s.db, s.cache, ids)
  {
    forall i: Identity {:trigger BuildKey(i)} | i in ids && CacheHit(s.cache, i, s.db.now)
      ensures var entry := s.cache[BuildKey(i)];
              Mirrors(s.db, i, entry.value, entry.expiresAt) || Mirrors(s.db, i, entry.value, entry.expiresAt - 1)
    {
      HitMirrors(s, 1, i, ids);
      var entry := s.cache[BuildKey(i)];
      var e: int :| entry.expiresAt - 1 <= e <= entry.expiresAt && Mirrors(s.db, i, entry.value, e);
      assert e == entry.expiresAt || e == entry.expiresAt - 1;
    }
  }

  /**
   * In every interleaving whose cache writes land in the tick they were computed
   * in, whatever is replayed from the cache is the COMPLETED ledger row's result,
   * and both expire together.
   */
  lemma CacheAgreesWithLedger(lease: nat, steps: seq<Step>, ids: iset<Identity>)
    requires Apart(ids) && UsesOnly(steps, ids) && PromptRun(Initial(lease), steps, 0)
    ensures CacheAgrees(Run(Initial(lease), steps).db, Run(Initial(lease), steps).cache, ids)
  {
    RunKeepsInv(Initial(lease), steps, 0, ids);
    ZeroLatenessAgrees(Run(Initial(lease), steps), ids);
  }

  /** One tick of lateness shows only in the expiry: every live entry still is the COMPLETED row's result. */
  lemma CacheShowsLedgerResults(lease: nat, steps: seq<Step>, ids: iset<Identity>)
    requires Apart(ids) && UsesOnly(steps, ids) && PromptRun(Initial(lease), steps, 1)
    ensures CacheShowsResults(Run(Initial(lease), steps).db, Run(Initial(lease), steps).cache, ids)
  {
    RunKeepsInv(Initial(lease), steps, 1, ids);
    OneTickLateShowsResults(Run(Initial(lease), steps), ids);
  }

  // ----- the cache is invisible -----

  /** The step answers a reserve call from the cache. */
  predicate Hits(s: State, step: Step) {
    && step.Turn? && step.p in s.procs && s.procs[step.p].CacheGet? && step.choice.cacheUp
    && CacheHit(s.cache, s.procs[step.p].req.identity, s.db.now)
  }

  /** The request and the stored row both carry a hash, and they differ. */
  predicate OtherHash(s: State, req: Request) {
    req.identity in s.db.ledger && HashesDiffer(s.db.ledger[req.identity].hash, req.hash)
  }

  predicate NoHashClash(s: State, steps: seq<Step>)
    decreases |steps|
  {
    steps == [] ||
    ((Hits(s, steps[0]) ==> !OtherHash(s, s.procs[steps[0].p].req)) && NoHashClash(Apply(s, steps[0]), steps[1..]))
  }

  /** No reserve call ever finds the cache. */
  predicate LedgerOnly(s: State, steps: seq<Step>)
    decreases |steps|
  {
    steps == [] || (!Hits(s, steps[0]) && LedgerOnly(Apply(s, steps[0]), steps[1..]))
  }

  /**
   * A reserve call that misses the cache, finds the row by its failed insert,
   * inspects it and loses the back-fill. If the row has expired meanwhile there
   * is nothing to write, and the last turn is idle.
   */
  function Detour(p: nat): seq<Step> {
    var leg := Turn(p, Choice(Delivered, false));
    [leg, leg, leg, leg, leg]
  }

  lemma RunFive(s: State, leg: Step)
    ensures Run(s, [leg, leg, leg, leg, leg]) == Apply(Apply(Apply(Apply(Apply(s, leg), leg), leg), leg), leg)
  {
    RunAppend(s, [], leg);
    RunAppend(s, [leg], leg);
    RunAppend(s, [leg, leg], leg);
    RunAppend(s, [leg, leg, leg], leg);
    RunAppend(s, [leg, leg, leg, leg], leg);
    assert [] + [leg] == [leg] && [leg] + [leg] == [leg, leg] && [leg, leg] + [leg] == [leg, leg, leg];
    assert [leg, leg, leg] + [leg] == [leg, leg, leg, leg] && [leg, leg, leg, leg] + [leg] == [leg, leg, leg, leg, leg];
  }

  /** The first three legs, up to the answer. */
  lemma DetourLegs(s: State, p: nat, c: Choice, ids: iset<Identity>)
    requires Inv(s, 1, ids) && Hits(s, Turn(p, c)) && !OtherHash(s, s.procs[p].req)
    ensures s.procs[p].req.identity in s.db.ledger
    ensures var leg, req := Turn(p, Choice(Delivered, false)), s.procs[p].req;
            var s1 := Apply(s, leg);
            var s2 := Apply(s1, leg);
            var s3 := Apply(s2, leg);
            var value := s.cache[BuildKey(req.identity)].value;
            && s1 == s.(procs := s.procs[p := Inserting(req, s.procs[p].start, false)])
            && s2 == s.(procs := s.procs[p := Inspecting(req, s.procs[p].start)])
            && s3 == s.(procs := s.procs[p := Caching(req.identity, value, s.db.ledger[req.identity].expiresAt)],
                        log := s.log + [Answered(req, Replay(value))])
  {
    OneTickLateShowsResults(s, ids);
    assert IdentityOf(s.procs[p]) in ids && CacheHit(s.cache, s.procs[p].req.identity, s.db.now);
  }

  /** The last two: the back-fill finds the cache away, and leaves nothing. */
  lemma LostBackFill(s: State, p: nat)
    requires p in s.procs && s.procs[p].Caching?
    ensures var leg := Turn(p, Choice(Delivered, false)); Apply(Apply(s, leg), leg) == s.(procs := s.procs - {p})
  {
    var leg := Turn(p, Choice(Delivered, false));
    var proc := s.procs[p];
    var s1 := Apply(s, leg);
    if proc.expiresAt - s.db.now > 0 {
      assert s1.procs == s.procs[p := CacheSetting(proc.identity, proc.value, proc.expiresAt - s.db.now, s.db.now)];
      assert s1.procs - {p} == s.procs - {p};
    } else {
      assert s1.procs == s.procs - {p};
    }
    assert s1.log == s.log && Apply(s1, leg).log == s.log;
  }

  lemma HitIsDetour(s: State, p: nat, c: Choice, ids: iset<Identity>)
    requires Inv(s, 1, ids) && Hits(s, Turn(p, c)) && !OtherHash(s, s.procs[p].req)
    ensures Run(s, Detour(p)) == Apply(s, Turn(p, c))
  {
    var leg := Turn(p, Choice(Delivered, false));
    DetourLegs(s, p, c, ids);
    RunFive(s, leg);
    var s3 := Apply(Apply(Apply(s, leg), leg), leg);
    LostBackFill(s3, p);
    assert s3.procs - {p} == s.procs - {p};
  }

  lemma DetourReadsNoCache(s: State, p: nat, rest: seq<Step>)
    requires LedgerOnly(Run(s, Detour(p)), rest)
    ensures LedgerOnly(s, Detour(p) + rest)
    ensures Run(s, Detour(p) + rest) == Run(Run(s, Detour(p)), rest)
  {
    var leg := Turn(p, Choice(Delivered, false));
    RunFive(s, leg);
    var s2 := Apply(Apply(s, leg), leg);
    var s4 := Apply(Apply(s2, leg), leg);
    LedgerOnlyOneMore(s4, leg, rest);
    LedgerOnlyOneMore(Apply(s2, leg), leg, [leg] + rest);
    LedgerOnlyOneMore(s2, leg, [leg] + ([leg] + rest));
    LedgerOnlyOneMore(Apply(s, leg), leg, [leg] + ([leg] + ([leg] + rest)));
    LedgerOnlyOneMore(s, leg, [leg] + ([leg] + ([leg] + ([leg] + rest))));
    assert Detour(p) + rest == [leg] + ([leg] + ([leg] + ([leg] + ([leg] + rest))));
  }

  lemma LedgerOnlyOneMore(s: State, step: Step, rest: seq<Step>)
    requires !Hits(s, step) && LedgerOnly(Apply(s, step), rest)
    ensures LedgerOnly(s, [step] + rest)
    ensures Run(s, [step] + rest) == Run(Apply(s, step), rest)
  {
    assert ([step] + rest)[1..] == rest;
  }

  lemma {:induction false} ReplayWithoutCache(s: State, steps: seq<Step>, ids: iset<Identity>) returns (plain: seq<Step>)
    requires Inv(s, 1, ids) && UsesOnly(steps, ids) && PromptRun(s, steps, 1) && NoHashClash(s, steps)
    ensures LedgerOnly(s, plain) && Run(s, plain) == Run(s, steps)
    decreases |steps|
  {
    if steps == [] {
      plain := [];
    } else {
      StepKeepsInv(s, steps[0], 1, ids);
      var rest := ReplayWithoutCache(Apply(s, steps[0]), steps[1..], ids);
      if Hits(s, steps[0]) {
        HitIsDetour(s, steps[0].p, steps[0].choice, ids);
        DetourReadsNoCache(s, steps[0].p, rest);
        plain := Detour(steps[0].p) + rest;
      } else {
        LedgerOnlyOneMore(s, steps[0], rest);
        plain := [steps[0]] + rest;
      }
    }
  }

  /**
   * The cache only saves time: every run, about identities that it tells apart, whose cache writes are at most one tick
   * late, in which no hit meets a row stored under another request hash, ends in
   * the same state with the same answers as a run in which no reserve call reads
   * the cache.
   */
  lemma CacheIsInvisible(lease: nat, steps: seq<Step>, ids: iset<Identity>) returns (plain: seq<Step>)
    requires Apart(ids) && UsesOnly(steps, ids) && PromptRun(Initial(lease), steps, 1) && NoHashClash(Initial(lease), steps)
    ensures LedgerOnly(Initial(lease), plain) && Run(Initial(lease), plain) == Run(Initial(lease), steps)
  {
    plain := ReplayWithoutCache(Initial(lease), steps, ids);
  }

  lemma {:induction false} HashlessCallsNeverClash(s: State, steps: seq<Step>)
    requires forall p :: p in s.procs && s.procs[p].CacheGet? ==> s.procs[p].req.hash.None?
    requires forall k :: 0 <= k < |steps| && steps[k].Reserve? ==> steps[k].req.hash.None?
    ensures NoHashClash(s, steps)
    decreases |steps|
  {
    if steps != [] {
      var t := Apply(s, steps[0]);
      forall p | p in t.procs && t.procs[p].CacheGet?
        ensures t.procs[p].req.hash.None?
      {
        if p in s.procs && t.procs[p] == s.procs[p] {
        } else {
          assert steps[0].Reserve?;
        }
      }
      HashlessCallsNeverClash(t, steps[1..]);
    }
  }

  /** For requests without a hash the cache is invisible in every run whose cache writes are at most one tick late. */
  lemma {:induction false} CacheIsInvisibleToHashlessCalls(lease: nat, steps: seq<Step>, ids: iset<Identity>) returns (plain: seq<Step>)
    requires Apart(ids) && UsesOnly(steps, ids) && PromptRun(Initial(lease), steps, 1)
    requires forall k :: 0 <= k < |steps| && steps[k].Reserve? ==> steps[k].req.hash.None?
    ensures LedgerOnly(Initial(lease), plain) && Run(Initial(lease), plain) == Run(Initial(lease), steps)
  {
    HashlessCallsNeverClash(Initial(lease), steps);
    plain := CacheIsInvisible(lease, steps, ids);
  }

  /** The exception is real: a hit replays where the ledger alone would answer KEY_MISMATCH. */
  lemma HitSkipsHashCheck(s: State, p: nat, start: int, ids: iset<Identity>)
    requires Inv(s, 1, ids) && Hits(s, Turn(p, Choice(Delivered, true))) && OtherHash(s, s.procs[p].req)
    ensures var req := s.procs[p].req;
            && TurnOf(s, Inspecting(req, start), Choice(Delivered, true)).events == [Answered(req, KeyMismatch)]
            && TurnOf(s, s.procs[p], Choice(Delivered, true)).events
               == [Answered(req, Replay(s.db.ledger[req.identity].result.value))]
  {
    OneTickLateShowsResults(s, ids);
    assert IdentityOf(s.procs[p]) in ids && CacheHit(s.cache, s.procs[p].req.identity, s.db.now);
  }

  // ----- late cache writes -----

  lemma {:induction false} PromptAppend(s: State, steps: seq<Step>, step: Step, d: nat)
    requires PromptRun(s, steps, d) && Prompt(Run(s, steps), step, d)
    ensures PromptRun(s, steps + [step], d)
    decreases |steps|
  {
    if steps == [] {
      assert [step][1..] == [];
      assert PromptRun(Apply(s, step), [], d);
    } else {
      PromptAppend(Apply(s, steps[0]), steps[1..], step, d);
      assert (steps + [step])[1..] == steps[1..] + [step];
    }
  }

  lemma Extend(s0: State, steps: seq<Step>, step: Step, d: nat) returns (more: seq<Step>)
    requires PromptRun(s0, steps, d) && Prompt(Run(s0, steps), step, d)
    ensures PromptRun(s0, more, d) && Run(s0, more) == Apply(Run(s0, steps), step) && more == steps + [step]
  {
    more := steps + [step];
    RunAppend(s0, steps, step);
    PromptAppend(s0, steps, step, d);
  }

  /** A first reserve and the call that completes it, about to write the cache. */
  function CacheWriteDue(lease: nat, req: Request, value: Json): State {
    var i, r := req.identity, Reservation(req.identity, 0, 0, 1);
    State(lease,
          Db(map[i := Row(0, Completed, 0, 2, Some(value), req.hash, 0, req.ttl)], 1, 1, 0), map[],
          map[1 := CacheSetting(i, value, req.ttl, 0)],
          [Granted(i, 0, 0, 0), Answered(req, Acquired(r)), Settled(i, 0, 0, Some(value), req.hash)])
  }

  /** One request, however often it is made. */
  predicate Asks(steps: seq<Step>, req: Request) {
    forall k :: 0 <= k < |steps| && steps[k].Reserve? ==> steps[k].req == req
  }

  lemma ReserveOnce(lease: nat, req: Request, d: nat) returns (steps: seq<Step>)
    ensures PromptRun(Initial(lease), steps, d) && UsesOnly(steps, iset{req.identity}) && Asks(steps, req)
    ensures var r := Reservation(req.identity, 0, 0, 1);
            Run(Initial(lease), steps)
            == State(lease, Db(map[req.identity := Row(0, InProgress, 0, 1, None, req.hash, 0, req.ttl)], 1, 1, 0), map[], map[],
                     [Granted(req.identity, 0, 0, 0), Answered(req, Acquired(r))])
  {
    var c, s0 := Choice(Delivered, true), Initial(lease);
    steps := [];
    assert Run(s0, steps) == s0;
    steps := Extend(s0, steps, Reserve(0, req), d);
    assert Run(s0, steps).procs == map[0 := CacheGet(req, 0)];
    steps := Extend(s0, steps, Turn(0, c), d);
    assert Run(s0, steps).procs == map[0 := Inserting(req, 0, false)];
    steps := Extend(s0, steps, Turn(0, c), d);
    assert Run(s0, steps).procs == map[];
  }

  lemma ReserveAndComplete(lease: nat, req: Request, value: Json, d: nat) returns (steps: seq<Step>)
    requires req.ttl > 0
    ensures PromptRun(Initial(lease), steps, d) && UsesOnly(steps, iset{req.identity}) && Asks(steps, req)
    ensures Run(Initial(lease), steps) == CacheWriteDue(lease, req, value)
  {
    var c, s0, i, r := Choice(Delivered, true), Initial(lease), req.identity, Reservation(req.identity, 0, 0, 1);
    steps := ReserveOnce(lease, req, d);
    steps := Extend(s0, steps, Complete(1, r, value), d);
    assert Run(s0, steps).procs == map[1 := Completing(r, value)];
    steps := Extend(s0, steps, Turn(1, c), d);
    assert Run(s0, steps).procs == map[1 := CompleteRead(r, value)];
    assert Run(s0, steps).db.ledger == map[i := Row(0, Completed, 0, 2, Some(value), req.hash, 0, req.ttl)];
    steps := Extend(s0, steps, Turn(1, c), d);
    assert Run(s0, steps).procs == map[1 := Caching(i, value, req.ttl)];
    steps := Extend(s0, steps, Turn(1, c), d);
    assert Run(s0, steps).procs == map[1 := CacheSetting(i, value, req.ttl, 0)];
  }

  /** The run of the cache write that lands `late` ticks after it was computed. */
  lemma WriteLate(lease: nat, req: Request, value: Json, late: nat) returns (steps: seq<Step>)
    requires req.ttl > 0
    ensures PromptRun(Initial(lease), steps, late) && UsesOnly(steps, iset{req.identity}) && Asks(steps, req)
    ensures var s, was := Run(Initial(lease), steps), CacheWriteDue(lease, req, value);
            s == was.(db := was.db.(now := late), cache := map[BuildKey(req.identity) := CacheEntry(value, late + req.ttl)], procs := map[])
  {
    var s0 := Initial(lease);
    steps := ReserveAndComplete(lease, req, value, late);
    steps := Extend(s0, steps, Tick(late), late);
    steps := Extend(s0, steps, Turn(1, Choice(Delivered, true)), late);
    assert Run(s0, steps).procs == map[];
    assert Run(s0, steps).cache == map[BuildKey(req.identity) := CacheEntry(value, late + req.ttl)];
  }

  /** The bound for equal expiry is exact: for every cache write that lands later there is a run in which the two expire apart. */
  lemma LateCacheWriteDisagrees(lease: nat, req: Request, value: Json, late: nat) returns (steps: seq<Step>)
    requires req.ttl > 0 && late >= 1
    ensures PromptRun(Initial(lease), steps, late) && UsesOnly(steps, iset{req.identity}) && Asks(steps, req)
    ensures !CacheAgrees(Run(Initial(lease), steps).db, Run(Initial(lease), steps).cache, iset{req.identity})
  {
    steps := WriteLate(lease, req, value, late);
    assert CacheHit(Run(Initial(lease), steps).cache, req.identity, late);
  }
}
