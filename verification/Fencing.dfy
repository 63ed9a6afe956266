/**
 * Token fencing of work rows, as both the batch-operation rows and the import
 * rows do it: a claim takes a waiting row and bumps its token, a terminal write
 * lands only while the row is held under the presented token, a reset hands a
 * held row back under a bumped token, an abandonment closes a held row, and a
 * release hands it back under the same token.
 *
 * Nobody's good behaviour is assumed: any caller may present any token at any
 * time, so every result below holds for every sequence of operations.
 */
module Fencing {

  datatype Phase = Waiting | Held | Done

  datatype Slot = Slot(phase: Phase, token: nat)

  type Table<!K> = map<K, Slot>

  datatype Op<!K> =
    | Add(keys: set<K>)
    | Claim(key: K)
    | Settle(key: K, token: int)
    | Release(key: K, token: int)
    | Reset(keys: set<K>)
    | Abandon(keys: set<K>)
    | Idle

  /** One successful claim or one terminal write that landed. */
  datatype Entry<!K> =
    | Claimed(key: K, token: nat)
    | Settled(key: K, token: nat)

  datatype World<!K> = World(table: Table<K>, log: seq<Entry<K>>)

  predicate Holds<K>(t: Table<K>, key: K, token: int) {
    key in t && t[key] == Slot(Held, t[key].token) && t[key].token == token
  }

  function Do<K>(t: Table<K>, op: Op<K>): Table<K> {
    match op
    case Add(keys) => t + map k | k in keys && k !in t :: Slot(Waiting, 0)
    case Claim(k) =>
      if k in t && t[k].phase.Waiting? then t[k := Slot(Held, t[k].token + 1)] else t
    case Settle(k, token) =>
      if Holds(t, k, token) then t[k := Slot(Done, t[k].token)] else t
    case Release(k, token) =>
      if Holds(t, k, token) then t[k := Slot(Waiting, t[k].token)] else t
    case Reset(keys) =>
      map k | k in t :: if k in keys && t[k].phase.Held? then Slot(Waiting, t[k].token + 1) else t[k]
    case Abandon(keys) =>
      map k | k in t :: if k in keys && t[k].phase.Held? then Slot(Done, t[k].token) else t[k]
    case Idle => t
  }

  /** What an operation adds to the history. */
  function Note<K>(t: Table<K>, op: Op<K>): seq<Entry<K>> {
    match op
    case Claim(k) =>
      if k in t && t[k].phase.Waiting? then [Claimed(k, t[k].token + 1)] else []
    case Settle(k, token) =>
      if Holds(t, k, token) then [Settled(k, t[k].token)] else []
    case _ => []
  }

  function Step<K>(w: World<K>, op: Op<K>): World<K> {
    World(Do(w.table, op), w.log + Note(w.table, op))
  }

  function Run<K>(w: World<K>, ops: seq<Op<K>>): World<K>
    decreases |ops|
  {
    if ops == [] then w else Run(Step(w, ops[0]), ops[1..])
  }

  function Start<K>(): World<K> {
    World(map[], [])
  }

  /** Claim tokens of one row strictly increase along the history. */
  ghost predicate ClaimsIncrease<K>(log: seq<Entry<K>>) {
    forall i, j :: 0 <= i < j < |log| && log[i].Claimed? && log[j].Claimed? && log[i].key == log[j].key
      ==> log[i].token < log[j].token
  }

  /** No row has two terminal writes. */
  ghost predicate SettledOnce<K>(log: seq<Entry<K>>) {
    forall i, j :: 0 <= i < j < |log| && log[i].Settled? && log[j].Settled? ==> log[i].key != log[j].key
  }

  /** Every terminal write closed the row under the newest token ever claimed for it. */
  ghost predicate SettledByLatestClaim<K>(w: World<K>) {
    forall i :: 0 <= i < |w.log| && w.log[i].Settled? ==>
      var e := w.log[i];
      && e.key in w.table && w.table[e.key] == Slot(Done, e.token)
      && Claimed(e.key, e.token) in w.log
  }

  ghost predicate TokensBounded<K>(w: World<K>) {
    forall i :: 0 <= i < |w.log| ==> w.log[i].key in w.table && w.log[i].token <= w.table[w.log[i].key].token
  }

  ghost predicate HeldWasClaimed<K>(w: World<K>) {
    forall k :: k in w.table && w.table[k].phase.Held? ==> Claimed(k, w.table[k].token) in w.log
  }

  ghost predicate Fenced<K>(w: World<K>) {
    && ClaimsIncrease(w.log)
    && SettledOnce(w.log)
    && SettledByLatestClaim(w)
    && TokensBounded(w)
    && HeldWasClaimed(w)
  }

  /** How one row may change: tokens never fall, a closed row never changes, a step back to waiting or a fresh hold is visible in the token. */
  ghost predicate Evolves<K>(t: Table<K>, u: Table<K>) {
    forall k :: k in t ==>
      && k in u
      && t[k].token <= u[k].token
      && (t[k].phase.Done? ==> u[k] == t[k])
      && (u[k].phase.Held? && !t[k].phase.Held? ==> t[k].token < u[k].token)
  }

  lemma DoEvolves<K>(t: Table<K>, op: Op<K>)
    ensures Evolves(t, Do(t, op))
  {
  }

  lemma {:induction false} RunEvolves<K>(w: World<K>, ops: seq<Op<K>>)
    ensures Evolves(w.table, Run(w, ops).table)
    ensures w.log <= Run(w, ops).log
    decreases |ops|
  {
    if ops != [] {
      DoEvolves(w.table, ops[0]);
      RunEvolves(Step(w, ops[0]), ops[1..]);
    }
  }

  /** An operation adds at most one entry, and that entry reflects the table after it. */
  lemma NoteFacts<K>(w: World<K>, op: Op<K>)
    requires TokensBounded(w)
    ensures var n := Note(w.table, op); var u := Do(w.table, op);
            n == [] ||
            (|n| == 1 && n[0].key in w.table && n[0].key in u && n[0].token == u[n[0].key].token &&
             (n[0].Claimed? ==> w.table[n[0].key].token < n[0].token) &&
             (n[0].Settled? ==> u[n[0].key].phase.Done? && w.table[n[0].key] == Slot(Held, n[0].token)))
  {
  }

  lemma StepTokensBounded<K>(w: World<K>, op: Op<K>)
    requires TokensBounded(w)
    ensures TokensBounded(Step(w, op))
  {
    DoEvolves(w.table, op);
    NoteFacts(w, op);
  }

  lemma StepHeldWasClaimed<K>(w: World<K>, op: Op<K>)
    requires HeldWasClaimed(w)
    ensures HeldWasClaimed(Step(w, op))
  {
    var v := Step(w, op);
    forall k | k in v.table && v.table[k].phase.Held?
      ensures Claimed(k, v.table[k].token) in v.log
    {
      if k in w.table && w.table[k] == v.table[k] {
        assert Claimed(k, w.table[k].token) in w.log;
      } else {
        assert Note(w.table, op) == [Claimed(k, v.table[k].token)];
      }
    }
  }

  lemma StepSettledByLatestClaim<K>(w: World<K>, op: Op<K>)
    requires SettledByLatestClaim(w) && HeldWasClaimed(w) && TokensBounded(w)
    ensures SettledByLatestClaim(Step(w, op))
  {
    DoEvolves(w.table, op);
    NoteFacts(w, op);
    var v := Step(w, op);
    assert forall e :: e in w.log ==> e in v.log;
    forall i | 0 <= i < |v.log| && v.log[i].Settled?
      ensures var e := v.log[i];
              e.key in v.table && v.table[e.key] == Slot(Done, e.token) && Claimed(e.key, e.token) in v.log
    {
      if i < |w.log| {
        assert v.log[i] == w.log[i];
      } else {
        assert v.log[i] == Note(w.table, op)[0];
      }
    }
  }

  lemma StepOrdered<K>(w: World<K>, op: Op<K>)
    requires Fenced(w)
    ensures ClaimsIncrease(Step(w, op).log) && SettledOnce(Step(w, op).log)
  {
    NoteFacts(w, op);
    var n := Note(w.table, op);
    var v := Step(w, op);
    assert forall i :: 0 <= i < |w.log| ==> v.log[i] == w.log[i];
    assert n != [] ==> v.log[|w.log|] == n[0];
  }

  lemma StepFenced<K>(w: World<K>, op: Op<K>)
    requires Fenced(w)
    ensures Fenced(Step(w, op))
  {
    StepTokensBounded(w, op);
    StepHeldWasClaimed(w, op);
    StepSettledByLatestClaim(w, op);
    StepOrdered(w, op);
  }

  lemma {:induction false} RunFenced<K>(w: World<K>, ops: seq<Op<K>>)
    requires Fenced(w)
    ensures Fenced(Run(w, ops))
    decreases |ops|
  {
    if ops != [] {
      StepFenced(w, ops[0]);
      RunFenced(Step(w, ops[0]), ops[1..]);
    }
  }

  /** Row fencing over whole runs, for any rows and any operations by anybody. */
  lemma FencingHolds<K>(ops: seq<Op<K>>)
    ensures Fenced(Run(Start(), ops))
  {
    RunFenced(Start<K>(), ops);
  }

  /**
   * A claim whose token has been overtaken (by a later claim or by a reset)
   * never lands a terminal write again, whatever happens next.
   */
  lemma {:induction false} OvertakenClaimNeverLands<K>(w: World<K>, key: K, token: nat, ops: seq<Op<K>>)
    requires Fenced(w)
    requires key in w.table && token < w.table[key].token
    ensures forall i :: |w.log| <= i < |Run(w, ops).log| ==> Run(w, ops).log[i] != Settled(key, token)
  {
    RunEvolves(w, ops);
    RunFenced(w, ops);
  }

  /** A reset overtakes every claim ever made on the rows it hands back. */
  lemma ResetVoidsEarlierClaims<K>(w: World<K>, keys: set<K>, key: K, i: nat)
    requires Fenced(w)
    requires key in keys && key in w.table && w.table[key].phase.Held?
    requires i < |w.log| && w.log[i].key == key
    ensures w.log[i].token < Step(w, Reset(keys)).table[key].token
    ensures Step(w, Reset(keys)).table[key].phase.Waiting?
  {
    assert TokensBounded(w);
  }
}
