/**
 * Identities and the cache. The ledger tells any two identities apart; the
 * cache does so by a joined key, and where that fails a result crosses over.
 */
module IdempotencyKeys {
  import opened Common
  import opened Idempotency
  import opened IdempotencyCache
  import R = IdempotencyReplays

  /** Every prompt run about these identities, in which no hit meets another request hash, has the answers of a run without the cache. */
  ghost predicate CacheInvisibleAmong(lease: nat, ids: iset<Identity>) {
    forall steps {:trigger UsesOnly(steps, ids)} ::
      UsesOnly(steps, ids) && PromptRun(Initial(lease), steps, 1) && NoHashClash(Initial(lease), steps)
      ==> exists plain :: LedgerOnly(Initial(lease), plain) && Run(Initial(lease), plain).log == Run(Initial(lease), steps).log
  }

  lemma UsesAtMost(steps: seq<Step>, few: iset<Identity>, ids: iset<Identity>)
    requires UsesOnly(steps, few) && few <= ids
    ensures UsesOnly(steps, ids)
  {
    forall k | 0 <= k < |steps|
      ensures CallsOnly(steps[k], ids)
    {
      assert CallsOnly(steps[k], few);
    }
  }

  /** Two identities that share a cache key: one is answered with the result of the other. */
  lemma ResultCrossesOver(lease: nat, i: Identity, j: Identity, value: Json) returns (steps: seq<Step>)
    requires i != j && BuildKey(i) == BuildKey(j)
    ensures UsesOnly(steps, iset{i, j}) && PromptRun(Initial(lease), steps, 0)
    ensures forall k :: 0 <= k < |steps| && steps[k].Reserve? ==> steps[k].req.hash.None?
    ensures Run(Initial(lease), steps).log
            == CacheWriteDue(lease, Request(i, None, 1), value).log + [Answered(Request(j, None, 1), Replay(value))]
    ensures forall plain :: LedgerOnly(Initial(lease), plain) ==> Run(Initial(lease), plain).log != Run(Initial(lease), steps).log
  {
    var s0, req, other := Initial(lease), Request(i, None, 1), Request(j, None, 1);
    var wrote := WriteLate(lease, req, value, 0);
    UsesAtMost(wrote, iset{i}, iset{i, j});
    steps := R.ReplayFromEntry(s0, wrote, other, 0);
    var log := Run(s0, steps).log;
    assert log[3] == Answered(other, Replay(value));
    assert forall c :: 0 <= c < 3 ==> log[..3][c] == CacheWriteDue(lease, req, value).log[c];
    assert !R.OnRecord(log[..3], j, value);
    assert !R.ReplaysLatest(log);
    forall plain | LedgerOnly(s0, plain)
      ensures Run(s0, plain).log != log
    {
      R.LedgerReplaysLatest(s0, plain);
    }
  }

  /**
   * The exact condition on the identities in use: the cache is invisible among
   * them if and only if no two of them share a cache key.
   */
  lemma CacheIsInvisibleAmongExactly(lease: nat, ids: iset<Identity>)
    ensures CacheInvisibleAmong(lease, ids) <==> Apart(ids)
  {
    var s0 := Initial(lease);
    if Apart(ids) {
      forall steps {:trigger UsesOnly(steps, ids)} | UsesOnly(steps, ids) && PromptRun(s0, steps, 1) && NoHashClash(s0, steps)
        ensures exists plain :: LedgerOnly(s0, plain) && Run(s0, plain).log == Run(s0, steps).log
      {
        var plain := CacheIsInvisible(lease, steps, ids);
      }
    } else {
      var i: Identity, j: Identity :| i in ids && j in ids && BuildKey(i) == BuildKey(j) && i != j;
      var steps := ResultCrossesOver(lease, i, j, "null");
      UsesAtMost(steps, iset{i, j}, ids);
      HashlessCallsNeverClash(s0, steps);
      SlowerIsFine(s0, steps, 0, 1);
    }
  }

  lemma {:induction false} SlowerIsFine(s: State, steps: seq<Step>, d: nat, e: nat)
    requires PromptRun(s, steps, d) && d <= e
    ensures PromptRun(s, steps, e)
    decreases |steps|
  {
    if steps != [] {
      SlowerIsFine(Apply(s, steps[0]), steps[1..], d, e);
    }
  }
}
