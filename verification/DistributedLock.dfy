/**
 * The Redis lock: a lease taken by SET NX PX, renewed and released under an
 * ownership check, and a fencing token drawn from a counter in a second,
 * separate command. Holders may stall between the two, outlive their lease, or
 * die.
 */
module DistributedLock {
  import opened Common
  import I = Idempotency

  // ----- keys -----

  datatype Identity = Identity(tenant: string, company: string, scope: string, resource: string)

  function BuildKey(i: Identity): string {
    i.tenant + ":" + (i.company + ":" + (i.scope + ":" + i.resource))
  }

  function LockName(key: string): string {
    "lock:" + key
  }

  function FenceName(key: string): string {
    "lock:fence:" + key
  }

  /** A lock lives under the name of some fence counter if and only if its tenant is "fence" or begins with "fence:". */
  lemma LockMeetsFenceExactly(i: Identity)
    ensures (exists key :: LockName(BuildKey(i)) == FenceName(key)) <==> "fence:" <= i.tenant + ":"
  {
    var rest := i.company + ":" + (i.scope + ":" + i.resource);
    assert BuildKey(i) == i.tenant + ":" + rest;
    if key :| LockName(BuildKey(i)) == FenceName(key) {
      SameAfterLock(BuildKey(i), key);
      FencePrefix(i.tenant, rest, key);
    }
    if "fence:" <= i.tenant + ":" {
      var key := BuildKey(i)[6..];
      assert BuildKey(i)[..6] == "fence:";
      SameAfterLock(BuildKey(i), key);
    }
  }

  lemma SameAfterLock(a: string, key: string)
    ensures LockName(a) == FenceName(key) <==> a == "fence:" + key
  {
    assert FenceName(key) == "lock:" + ("fence:" + key);
    assert LockName(a)[5..] == a && FenceName(key)[5..] == "fence:" + key;
  }

  lemma FencePrefix(tenant: string, rest: string, key: string)
    requires tenant + ":" + rest == "fence:" + key
    ensures "fence:" <= tenant + ":"
  {
    var s, t := tenant + ":" + rest, "fence:" + key;
    assert s[|tenant|] == ':';
    assert forall k :: 0 <= k < 5 ==> t[k] == "fence"[k] && t[k] != ':';
    assert t[..6] == "fence:" && s[..|tenant| + 1] == tenant + ":";
  }

  /** The text before the first separator, and the text after it. */
  lemma FirstPart(s: string) returns (a: string, b: string)
    requires ':' in s
    ensures s == a + ":" + b && ':' !in a && I.Colons(b) == I.Colons(s) - 1
  {
    var k := 0;
    while s[k] != ':'
      decreases |s| - k
      invariant 0 <= k < |s| && (forall j :: 0 <= j < k ==> s[j] != ':') && exists j :: k <= j < |s| && s[j] == ':'
    {
      k := k + 1;
    }
    a, b := s[..k], s[k + 1..];
    I.ColonsOfJoin(a, b);
    I.NoColons(a);
  }

  /** Every text with three separators is some lock's key. */
  lemma ThreeColonsMakeAKey(s: string) returns (j: Identity)
    requires I.Colons(s) >= 3
    ensures BuildKey(j) == s
  {
    I.NoColons(s);
    var tenant, a := FirstPart(s);
    I.NoColons(a);
    var company, b := FirstPart(a);
    I.NoColons(b);
    var scope, resource := FirstPart(b);
    j := Identity(tenant, company, scope, resource);
  }

  lemma ColonsOfKey(i: Identity)
    ensures I.Colons(BuildKey(i)) == 3 + I.Colons(i.tenant) + I.Colons(i.company) + I.Colons(i.scope) + I.Colons(i.resource)
  {
    I.ColonsOfJoin(i.scope, i.resource);
    I.ColonsOfJoin(i.company, i.scope + ":" + i.resource);
    I.ColonsOfJoin(i.tenant, i.company + ":" + (i.scope + ":" + i.resource));
  }

  predicate HoldsSeparator(i: Identity) {
    ':' in i.tenant || ':' in i.company || ':' in i.scope || ':' in i.resource
  }

  /** The counter is that of another lock if and only if, besides, some part of the identity holds the separator. */
  lemma LockMeetsAnotherLocksFenceExactly(i: Identity)
    ensures (exists j: Identity :: LockName(BuildKey(i)) == FenceName(BuildKey(j)))
       <==> "fence:" <= i.tenant + ":" && HoldsSeparator(i)
  {
    ColonsOfKey(i);
    I.NoColons(i.tenant);
    I.NoColons(i.company);
    I.NoColons(i.scope);
    I.NoColons(i.resource);
    LockMeetsFenceExactly(i);
    if j: Identity :| LockName(BuildKey(i)) == FenceName(BuildKey(j)) {
      SameAfterLock(BuildKey(i), BuildKey(j));
      I.ColonsOfJoin("fence", BuildKey(j));
      assert "fence:" + BuildKey(j) == "fence" + ":" + BuildKey(j);
      ColonsOfKey(j);
    }
    if "fence:" <= i.tenant + ":" && HoldsSeparator(i) {
      var key :| LockName(BuildKey(i)) == FenceName(key);
      SameAfterLock(BuildKey(i), key);
      I.ColonsOfJoin("fence", key);
      I.NoColons("fence");
      assert "fence:" + key == "fence" + ":" + key;
      var j := ThreeColonsMakeAKey(key);
    }
  }

  /** The illustration: a tenant called "fence". */
  lemma TenantCalledFenceCollides(i: Identity)
    ensures var j := Identity("fence", i.tenant, i.company, i.scope + ":" + i.resource);
            LockName(BuildKey(j)) == FenceName(BuildKey(i))
  {
    var j := Identity("fence", i.tenant, i.company, i.scope + ":" + i.resource);
    assert BuildKey(j) == "fence" + ":" + BuildKey(i);
  }

  function Clamp(value: int, low: int, high: int): int {
    Min(Max(value, low), high)
  }

  /** The nearest value between the bounds; the upper one wins when they cross. */
  lemma ClampIsNearest(value: int, low: int, high: int, other: int)
    ensures var c := Clamp(value, low, high);
            && c <= high && (low <= high ==> low <= c) && (low <= value <= high ==> c == value) && (high < low ==> c == high)
            && (low <= other <= high ==> (if c < value then value - c else c - value) <= (if other < value then value - other else other - value))
  {
  }

  /** The key is the four parts joined by colons. */
  lemma KeyIsJoined(i: Identity)
    ensures BuildKey(i) == i.tenant + ":" + i.company + ":" + i.scope + ":" + i.resource
  {
    assert i.tenant + ":" + (i.company + ":" + (i.scope + ":" + i.resource)) == i.tenant + ":" + i.company + ":" + i.scope + ":" + i.resource;
  }

  // ----- commands -----

  datatype Lease = Lease(owner: nat, expiresAt: int)

  datatype Redis = Redis(locks: map<string, Lease>, fences: map<string, nat>, now: int)

  /** An expired key reads as absent. */
  predicate Live(r: Redis, key: string) {
    key in r.locks && r.now < r.locks[key].expiresAt
  }

  predicate Holds(r: Redis, key: string, owner: nat) {
    Live(r, key) && r.locks[key].owner == owner
  }

  function SetNx(r: Redis, key: string, owner: nat, lease: nat): Redis {
    if Live(r, key) then r else r.(locks := r.locks[key := Lease(owner, r.now + lease)])
  }

  function Renew(r: Redis, key: string, owner: nat, lease: nat): Redis {
    if Holds(r, key, owner) then r.(locks := r.locks[key := Lease(owner, r.now + lease)]) else r
  }

  function Release(r: Redis, key: string, owner: nat): Redis {
    if Holds(r, key, owner) then r.(locks := r.locks - {key}) else r
  }

  function Fence(r: Redis, key: string): nat {
    if key in r.fences then r.fences[key] else 0
  }

  function Incr(r: Redis, key: string): Redis {
    r.(fences := r.fences[key := Fence(r, key) + 1])
  }

  /** What each command writes, key by key: an expired lock is free to take, and only its live owner extends or removes one. */
  lemma CommandsWrite(r: Redis, key: string, owner: nat, lease: nat, k: string)
    ensures var free := key !in r.locks || r.locks[key].expiresAt <= r.now;
            SetNx(r, key, owner, lease) == if free then r.(locks := r.locks[key := Lease(owner, r.now + lease)]) else r
    ensures var mine := key in r.locks && r.now < r.locks[key].expiresAt && r.locks[key].owner == owner;
            && Renew(r, key, owner, lease) == (if mine then r.(locks := r.locks[key := Lease(owner, r.now + lease)]) else r)
            && Release(r, key, owner) == (if mine then r.(locks := r.locks - {key}) else r)
    ensures var t := Incr(r, key);
            && t.locks == r.locks && t.now == r.now && key in t.fences
            && t.fences[key] == (if key in r.fences then r.fences[key] + 1 else 1)
            && (k != key ==> (k in t.fences <==> k in r.fences) && (k in t.fences ==> t.fences[k] == r.fences[k]))
  {
  }

  // ----- the machine -----

  /** A caller between its SET and its INCR. */
  datatype Proc = Allocating(key: string, owner: nat)

  /** Acquisitions, and tokens with whether their owner still held the lock when they were drawn. */
  datatype Event =
    | Acquired(key: string, owner: nat)
    | Issued(key: string, owner: nat, token: nat, timely: bool)

  datatype State = State(redis: Redis, nextOwner: nat, procs: map<nat, Proc>, log: seq<Event>)

  datatype Step =
    | Tick(d: nat)
    | Acquire(p: nat, key: string, lease: nat)
    | Draw(p: nat)
    | RenewLease(key: string, owner: nat, lease: nat)
    | ReleaseLock(key: string, owner: nat)
    | Crash(p: nat)

  function Initial(): State {
    State(Redis(map[], map[], 0), 0, map[], [])
  }

  function Apply(s: State, step: Step): State {
    match step
    case Tick(d) => s.(redis := s.redis.(now := s.redis.now + d))
    case Acquire(p, key, lease) =>
      if p in s.procs || Live(s.redis, key) then s
      else State(SetNx(s.redis, key, s.nextOwner, lease), s.nextOwner + 1,
                 s.procs[p := Allocating(key, s.nextOwner)], s.log + [Acquired(key, s.nextOwner)])
    case Draw(p) =>
      if p !in s.procs then s
      else
        var key, owner := s.procs[p].key, s.procs[p].owner;
        State(Incr(s.redis, key), s.nextOwner, s.procs - {p},
              s.log + [Issued(key, owner, Fence(s.redis, key) + 1, Holds(s.redis, key, owner))])
    case RenewLease(key, owner, lease) => s.(redis := Renew(s.redis, key, owner, lease))
    case ReleaseLock(key, owner) => s.(redis := Release(s.redis, key, owner))
    case Crash(p) => s.(procs := s.procs - {p})
  }

  function Run(s: State, steps: seq<Step>): State
    decreases |steps|
  {
    if steps == [] then s else Run(Apply(s, steps[0]), steps[1..])
  }

  // ----- mutual exclusion -----

  /** Ownership tokens are fresh, so nobody but the acquirer has ever held under one. */
  ghost predicate OwnersKnown(s: State) {
    forall key :: key in s.redis.locks ==> s.redis.locks[key].owner < s.nextOwner
  }

  /**
   * A holder that lost the lock, by expiry or release, never holds it again: no
   * renewal revives a lease, whoever has taken the key since.
   */
  lemma {:induction false} LostIsForever(s: State, steps: seq<Step>, key: string, owner: nat)
    requires OwnersKnown(s) && owner < s.nextOwner && !Holds(s.redis, key, owner)
    ensures !Holds(Run(s, steps).redis, key, owner)
    decreases |steps|
  {
    if steps != [] {
      LostIsForever(Apply(s, steps[0]), steps[1..], key, owner);
    }
  }

  /** From the moment the key is acquired, no earlier owner holds it in any later state. */
  lemma AcquisitionExcludesEarlierOwners(s: State, steps: seq<Step>, p: nat, key: string, lease: nat, earlier: nat)
    requires OwnersKnown(s) && p !in s.procs && !Live(s.redis, key) && earlier < s.nextOwner
    ensures !Holds(Run(Apply(s, Acquire(p, key, lease)), steps).redis, key, earlier)
  {
    LostIsForever(Apply(s, Acquire(p, key, lease)), steps, key, earlier);
  }

  /** Neither renewed nor given up by its owner. */
  predicate LeavesAlone(step: Step, key: string, owner: nat) {
    && !(step.RenewLease? && step.key == key && step.owner == owner)
    && !(step.ReleaseLock? && step.key == key && step.owner == owner)
  }

  lemma {:induction false} NowNeverFalls(s: State, steps: seq<Step>)
    ensures s.redis.now <= Run(s, steps).redis.now
    decreases |steps|
  {
    if steps != [] {
      NowNeverFalls(Apply(s, steps[0]), steps[1..]);
    }
  }

  lemma {:induction false} LeaseRunsItsCourse(s: State, steps: seq<Step>, key: string, owner: nat, expiresAt: int)
    requires OwnersKnown(s) && key in s.redis.locks && s.redis.locks[key] == Lease(owner, expiresAt)
    requires forall k :: 0 <= k < |steps| ==> LeavesAlone(steps[k], key, owner)
    ensures Holds(Run(s, steps).redis, key, owner) <==> Run(s, steps).redis.now < expiresAt
    decreases |steps|
  {
    if s.redis.now >= expiresAt {
      NowNeverFalls(s, steps);
      LostIsForever(s, steps, key, owner);
    } else if steps != [] {
      assert LeavesAlone(steps[0], key, owner);
      LeaseRunsItsCourse(Apply(s, steps[0]), steps[1..], key, owner, expiresAt);
    }
  }

  /**
   * An acquired lock is its owner's for exactly the lease, whatever anybody else
   * tries meanwhile, as long as the owner neither renews nor releases it.
   */
  lemma LeaseIsHonoured(s: State, steps: seq<Step>, p: nat, key: string, lease: nat)
    requires OwnersKnown(s) && p !in s.procs && !Live(s.redis, key)
    requires forall k :: 0 <= k < |steps| ==> LeavesAlone(steps[k], key, s.nextOwner)
    ensures var t := Run(Apply(s, Acquire(p, key, lease)), steps);
            Holds(t.redis, key, s.nextOwner) <==> t.redis.now < s.redis.now + lease
  {
    LeaseRunsItsCourse(Apply(s, Acquire(p, key, lease)), steps, key, s.nextOwner, s.redis.now + lease);
  }

  /** A stale owner's renewal or release changes nothing at all. */
  lemma StaleOwnerIsHarmless(s: State, steps: seq<Step>, key: string, owner: nat, lease: nat)
    requires OwnersKnown(s) && owner < s.nextOwner && !Holds(s.redis, key, owner)
    ensures var r := Run(s, steps).redis; Renew(r, key, owner, lease) == r && Release(r, key, owner) == r
  {
    LostIsForever(s, steps, key, owner);
  }

  // ----- fencing tokens -----

  ghost predicate TokensIncrease(s: State) {
    && (forall c :: 0 <= c < |s.log| && s.log[c].Issued? ==> s.log[c].token <= Fence(s.redis, s.log[c].key))
    && (forall c, d :: 0 <= c < d < |s.log| && s.log[c].Issued? && s.log[d].Issued? && s.log[c].key == s.log[d].key
          ==> s.log[c].token < s.log[d].token)
  }

  ghost predicate OwnersIncrease(s: State) {
    && OwnersKnown(s)
    && (forall a :: 0 <= a < |s.log| && s.log[a].Acquired? ==> s.log[a].owner < s.nextOwner)
    && (forall a, b :: 0 <= a < b < |s.log| && s.log[a].Acquired? && s.log[b].Acquired? ==> s.log[a].owner < s.log[b].owner)
  }

  /** The stored lease is the newest acquisition's, and whoever draws a token has acquired before. */
  ghost predicate HoldersAreNewest(s: State) {
    && (forall a :: 0 <= a < |s.log| && s.log[a].Acquired? && s.log[a].key in s.redis.locks ==>
          s.log[a].owner <= s.redis.locks[s.log[a].key].owner)
    && (forall p :: p in s.procs ==> Acquired(s.procs[p].key, s.procs[p].owner) in s.log)
  }

  ghost predicate AcquiredBefore(log: seq<Event>, d: nat)
    requires d < |log| && log[d].Issued?
  {
    exists b :: 0 <= b < d && log[b] == Acquired(log[d].key, log[d].owner)
  }

  /** A timely token was drawn before anyone else acquired the key; every token was drawn after its owner did. */
  ghost predicate DrawsInPlace(s: State) {
    && (forall b, c :: 0 <= b < c < |s.log| && s.log[b].Acquired? && s.log[c].Issued? && s.log[c].timely && s.log[b].key == s.log[c].key
          ==> s.log[b].owner <= s.log[c].owner)
    && (forall d :: 0 <= d < |s.log| && s.log[d].Issued? ==> AcquiredBefore(s.log, d))
  }

  ghost predicate Inv(s: State) {
    TokensIncrease(s) && OwnersIncrease(s) && HoldersAreNewest(s) && DrawsInPlace(s)
  }

  lemma TokensKeepIncreasing(s: State, step: Step)
    requires TokensIncrease(s)
    ensures TokensIncrease(Apply(s, step))
  {
    var t := Apply(s, step);
    assert forall c :: 0 <= c < |s.log| ==> t.log[c] == s.log[c];
  }

  lemma OwnersKeepIncreasing(s: State, step: Step)
    requires OwnersIncrease(s)
    ensures OwnersIncrease(Apply(s, step))
  {
    var t := Apply(s, step);
    assert forall a :: 0 <= a < |s.log| ==> t.log[a] == s.log[a];
  }

  lemma HoldersStayNewest(s: State, step: Step)
    requires OwnersIncrease(s) && HoldersAreNewest(s)
    ensures HoldersAreNewest(Apply(s, step))
  {
    var t := Apply(s, step);
    assert forall a :: 0 <= a < |s.log| ==> t.log[a] == s.log[a];
    forall p | p in t.procs
      ensures Acquired(t.procs[p].key, t.procs[p].owner) in t.log
    {
      if p in s.procs && t.procs[p] == s.procs[p] {
        assert Acquired(s.procs[p].key, s.procs[p].owner) in s.log;
      } else {
        assert t.log[|s.log|] == Acquired(t.procs[p].key, t.procs[p].owner);
      }
    }
  }

  lemma DrawsStayInPlace(s: State, step: Step)
    requires HoldersAreNewest(s) && DrawsInPlace(s)
    ensures DrawsInPlace(Apply(s, step))
  {
    var t, n := Apply(s, step), |s.log|;
    assert forall a :: 0 <= a < n ==> t.log[a] == s.log[a];
    forall d | 0 <= d < |t.log| && t.log[d].Issued?
      ensures AcquiredBefore(t.log, d)
    {
      if d < n {
        assert AcquiredBefore(s.log, d);
        var b :| 0 <= b < d && s.log[b] == Acquired(s.log[d].key, s.log[d].owner);
        assert t.log[b] == s.log[b];
      } else {
        var e := Acquired(s.procs[step.p].key, s.procs[step.p].owner);
        var b :| 0 <= b < n && s.log[b] == e;
        assert t.log[b] == e;
      }
    }
  }

  lemma {:induction false} RunKeepsInv(s: State, steps: seq<Step>)
    requires Inv(s)
    ensures Inv(Run(s, steps))
    decreases |steps|
  {
    if steps != [] {
      TokensKeepIncreasing(s, steps[0]);
      OwnersKeepIncreasing(s, steps[0]);
      HoldersStayNewest(s, steps[0]);
      DrawsStayInPlace(s, steps[0]);
      RunKeepsInv(Apply(s, steps[0]), steps[1..]);
    }
  }

  /**
   * In every run, a holder that drew its token while it still held the lock has
   * a smaller token than every later holder of the key.
   */
  lemma LaterHoldersHaveGreaterTokens(steps: seq<Step>, a: nat, b: nat, c: nat, d: nat)
    requires var log := Run(Initial(), steps).log;
             && a < b < |log| && c < |log| && d < |log|
             && log[a].Acquired? && log[b].Acquired? && log[a].key == log[b].key
             && log[c].Issued? && log[c].key == log[a].key && log[c].owner == log[a].owner && log[c].timely
             && log[d].Issued? && log[d].key == log[b].key && log[d].owner == log[b].owner
    ensures var log := Run(Initial(), steps).log; log[c].token < log[d].token
  {
    RunKeepsInv(Initial(), steps);
    var log := Run(Initial(), steps).log;
    assert AcquiredBefore(log, d);
    var e :| 0 <= e < d && log[e] == Acquired(log[d].key, log[d].owner);
    assert c != d;
  }

  /** Tokens of one key are ordered like their draws, whenever these happen. */
  lemma TokenOrderIsDrawOrder(steps: seq<Step>, c: nat, d: nat)
    requires var log := Run(Initial(), steps).log;
             c < |log| && d < |log| && log[c].Issued? && log[d].Issued? && log[c].key == log[d].key
    ensures var log := Run(Initial(), steps).log; log[c].token < log[d].token <==> c < d
  {
    RunKeepsInv(Initial(), steps);
  }

  /** The key has not been acquired since this owner acquired it. */
  ghost predicate NotAcquiredSince(log: seq<Event>, key: string, owner: nat) {
    forall a :: 0 <= a < |log| && log[a].Acquired? && log[a].key == key ==> log[a].owner <= owner
  }

  lemma {:induction false} LogGrows(s: State, steps: seq<Step>)
    ensures s.log <= Run(s, steps).log
    decreases |steps|
  {
    if steps != [] {
      LogGrows(Apply(s, steps[0]), steps[1..]);
    }
  }

  lemma Continue(steps: seq<Step>, later: seq<Step>) returns (all: seq<Step>)
    ensures all == steps + later && Run(Initial(), all) == Run(Run(Initial(), steps), later)
  {
    all := steps + later;
    RunSplits(Initial(), steps, later);
  }

  lemma {:induction false} RunSplits(s: State, steps: seq<Step>, later: seq<Step>)
    ensures Run(s, steps + later) == Run(Run(s, steps), later)
    decreases |steps|
  {
    if steps == [] {
      assert steps + later == later;
    } else {
      assert (steps + later)[1..] == steps[1..] + later;
      RunSplits(Apply(s, steps[0]), steps[1..], later);
    }
  }

  /**
   * A token drawn before any later acquisition of the key, in time or late, is
   * smaller than every later holder's, in every continuation.
   */
  lemma DrawnBeforeLaterAcquisitions(steps: seq<Step>, p: nat, later: seq<Step>, d: nat)
    requires var s := Run(Initial(), steps);
             p in s.procs && NotAcquiredSince(s.log, s.procs[p].key, s.procs[p].owner)
    requires var s := Run(Initial(), steps); var log := Run(Apply(s, Draw(p)), later).log;
             d < |log| && log[d].Issued? && log[d].key == s.procs[p].key && log[d].owner > s.procs[p].owner
    ensures var s := Run(Initial(), steps); var t := Apply(s, Draw(p));
            |s.log| < |t.log| && t.log[|s.log|].Issued? && t.log[|s.log|].owner == s.procs[p].owner &&
            t.log[|s.log|].token < Run(t, later).log[d].token
  {
    var s := Run(Initial(), steps);
    var t, n := Apply(s, Draw(p)), |s.log|;
    var all := Continue(steps, [Draw(p)] + later);
    assert ([Draw(p)] + later)[1..] == later;
    assert Run(Initial(), all) == Run(t, later);
    LogGrows(t, later);
    RunKeepsInv(Initial(), all);
    var log := Run(t, later).log;
    assert AcquiredBefore(log, d);
    var e :| 0 <= e < d && log[e] == Acquired(log[d].key, log[d].owner);
    assert forall a :: 0 <= a < n ==> log[a] == s.log[a];
    assert e > n;
  }

  /** Once a later owner has acquired the key and is still to draw, it can draw first, and the tokens are inverted. */
  lemma LaterAcquirerCanOvertake(steps: seq<Step>, p: nat, q: nat) returns (all: seq<Step>)
    requires var s := Run(Initial(), steps);
             p in s.procs && q in s.procs && s.procs[p].key == s.procs[q].key && s.procs[p].owner < s.procs[q].owner
    ensures var s, log := Run(Initial(), steps), Run(Initial(), all).log; var n := |s.log|;
            && |log| == n + 2 && log[n].Issued? && log[n + 1].Issued?
            && log[n].owner == s.procs[q].owner && log[n + 1].owner == s.procs[p].owner
            && log[n].token < log[n + 1].token
  {
    var s := Run(Initial(), steps);
    all := Continue(steps, [Draw(q), Draw(p)]);
    var t := Apply(s, Draw(q));
    assert [Draw(q), Draw(p)][1..] == [Draw(p)] && [Draw(p)][1..] == [];
    assert Run(t, [Draw(p)]) == Run(Apply(t, Draw(p)), []);
    assert p in t.procs && t.procs[p] == s.procs[p];
  }

  /** The shortest such run: a token drawn after the lease overtakes the next holder's. */
  lemma LateTokenOvertakes(key: string, lease: nat) returns (steps: seq<Step>)
    ensures Run(Initial(), steps).log
            == [Acquired(key, 0), Acquired(key, 1), Issued(key, 1, 1, lease > 0), Issued(key, 0, 2, false)]
  {
    steps := [Acquire(0, key, lease), Tick(lease), Acquire(1, key, lease), Draw(1), Draw(0)];
    var s1 := Apply(Initial(), steps[0]);
    var s2 := Apply(s1, steps[1]);
    var s3 := Apply(s2, steps[2]);
    var s4 := Apply(s3, steps[3]);
    var s5 := Apply(s4, steps[4]);
    assert s3.procs == map[0 := Allocating(key, 0), 1 := Allocating(key, 1)];
    assert s4.procs == map[0 := Allocating(key, 0)];
    RunFive(Initial(), steps);
  }

  lemma RunFive(s: State, steps: seq<Step>)
    requires |steps| == 5
    ensures Run(s, steps) == Apply(Apply(Apply(Apply(Apply(s, steps[0]), steps[1]), steps[2]), steps[3]), steps[4])
  {
    assert steps[1..][1..] == steps[2..] && steps[2..][1..] == steps[3..] && steps[3..][1..] == steps[4..] && steps[4..][1..] == [];
    var s4 := Apply(Apply(Apply(Apply(s, steps[0]), steps[1]), steps[2]), steps[3]);
    assert Run(s4, steps[4..]) == Run(Apply(s4, steps[4]), []);
    assert Run(Apply(Apply(Apply(s, steps[0]), steps[1]), steps[2]), steps[3..]) == Run(s4, steps[4..]);
    assert Run(Apply(Apply(s, steps[0]), steps[1]), steps[2..]) == Run(s4, steps[4..]);
    assert Run(Apply(s, steps[0]), steps[1..]) == Run(s4, steps[4..]);
  }
}
