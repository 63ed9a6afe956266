/**
 * The Redis lock adapter and the acquire use case over it, run by one caller.
 * Each method is tied to the commands whose interleavings DistributedLock
 * studies.
 */
module LockAdapter {
  import opened Common
  import opened DistributedLock

  class RedisDistributedLock {
    var locks: map<string, Lease>
    var fences: map<string, nat>

    ghost function At(now: int): Redis
      reads this
    {
      Redis(locks, fences, now)
    }

    constructor ()
      ensures At(0) == Initial().redis
    {
      locks, fences := map[], map[];
    }

    method Acquire(key: string, owner: nat, lease: nat, up: bool, now: int) returns (ok: bool)
      modifies this`locks
      ensures ok == (up && !Live(old(At(now)), key))
      ensures At(now) == if up then SetNx(old(At(now)), key, owner, lease) else old(At(now))
    {
      ok := up && !(key in locks && now < locks[key].expiresAt);
      if ok {
        locks := locks[key := Lease(owner, now + lease)];
      }
    }

    method Renew(key: string, owner: nat, lease: nat, up: bool, now: int) returns (ok: bool)
      modifies this`locks
      ensures ok == (up && Holds(old(At(now)), key, owner))
      ensures At(now) == if up then DistributedLock.Renew(old(At(now)), key, owner, lease) else old(At(now))
    {
      ok := up && key in locks && now < locks[key].expiresAt && locks[key].owner == owner;
      if ok {
        locks := locks[key := Lease(owner, now + lease)];
      }
    }

    method Release(key: string, owner: nat, up: bool, now: int) returns (ok: bool)
      modifies this`locks
      ensures ok == (up && Holds(old(At(now)), key, owner))
      ensures At(now) == if up then DistributedLock.Release(old(At(now)), key, owner) else old(At(now))
    {
      ok := up && key in locks && now < locks[key].expiresAt && locks[key].owner == owner;
      if ok {
        locks := locks - {key};
      }
    }

    method NextFencingToken(key: string, up: bool) returns (token: Option<nat>)
      modifies this`fences
      ensures forall now :: At(now) == if up then Incr(old(At(now)), key) else old(At(now))
      ensures token == if up then Some(Fence(old(At(0)), key) + 1) else None
    {
      token := None;
      if up {
        var next := (if key in fences then fences[key] else 0) + 1;
        fences := fences[key := next];
        token := Some(next);
      }
    }
  }

  datatype Ticket = Ticket(key: string, owner: nat, token: nat, acquiredAt: int, expiresAt: int)

  datatype Answer = Granted(ticket: Ticket) | Busy(retryAfter: int) | Raised

  /** What an acquisition does when nothing runs beside it: nothing on a held key, the lock and the next token on a free one. */
  function AcquireAlone(r: Redis, key: string, owner: nat, lease: nat): (Redis, Option<nat>) {
    if Live(r, key) then (r, None) else (Incr(SetNx(r, key, owner, lease), key), Some(Fence(r, key) + 1))
  }

  /** The two uninterrupted commands of a process do just that, and the token is drawn in time. */
  lemma MachineAcquiresAlone(s: State, p: nat, key: string, lease: nat)
    requires p !in s.procs
    ensures var t := Apply(Apply(s, Acquire(p, key, lease)), Draw(p));
            var (r, token) := AcquireAlone(s.redis, key, s.nextOwner, lease);
            && t.redis == r && t.procs == s.procs
            && t.log == s.log + (if token.Some? then [Acquired(key, s.nextOwner), Issued(key, s.nextOwner, token.value, lease > 0)] else [])
  {
    var t := Apply(s, Acquire(p, key, lease));
    assert t.procs == if Live(s.redis, key) then s.procs else s.procs[p := Allocating(key, s.nextOwner)];
    assert Apply(t, Draw(p)).procs == s.procs;
  }

  class AcquireDistributedLock {
    const redis: RedisDistributedLock
    const minLease: nat
    const maxLease: nat

    constructor (redis: RedisDistributedLock, minLease: nat, maxLease: nat)
      ensures this.redis == redis && this.minLease == minLease && this.maxLease == maxLease
    {
      this.redis, this.minLease, this.maxLease := redis, minLease, maxLease;
    }

    /**
     * A granted ticket's owner holds the lock, and its token is above every token
     * drawn before. A caller whose second command fails leaves the lock held.
     */
    method Execute(identity: Identity, lease: int, owner: nat, up: bool, stillUp: bool, now: int) returns (answer: Answer)
      modifies redis
      ensures var key, was, clamped := BuildKey(identity), old(redis.At(now)), Clamp(lease, minLease, maxLease);
              var (r, token) := AcquireAlone(was, key, owner, clamped);
              if !up || token.None? then answer == Busy(clamped) && redis.At(now) == was
              else if !stillUp then answer == Raised && redis.At(now) == SetNx(was, key, owner, clamped)
              else answer == Granted(Ticket(key, owner, token.value, now, now + clamped)) && redis.At(now) == r
      ensures answer.Granted? ==>
                var t := answer.ticket;
                && t.key in redis.locks && redis.locks[t.key] == Lease(owner, t.expiresAt) && t.owner == owner
                && t.key in redis.fences && redis.fences[t.key] == t.token
                && (t.key in old(redis.fences) ==> t.token == old(redis.fences)[t.key] + 1)
                && (t.key in old(redis.locks) ==> old(redis.locks)[t.key].expiresAt <= now)
      ensures answer.Busy? <==> !up || (BuildKey(identity) in old(redis.locks) && now < old(redis.locks)[BuildKey(identity)].expiresAt)
    {
      var leaseMs: nat := Clamp(lease, minLease, maxLease);
      var key := BuildKey(identity);
      var acquired := redis.Acquire(key, owner, leaseMs, up, now);
      if !acquired {
        return Busy(leaseMs);
      }
      var token := redis.NextFencingToken(key, stillUp);
      if token.None? {
        return Raised;
      }
      return Granted(Ticket(key, owner, token.value, now, now + leaseMs));
    }
  }
}
