/**
 * The rows of one import job and the statements on them. Row numbers are
 * unique within a job, so a map from row number stands for the table.
 */
module ImportRows {
  import opened Common
  import Fencing

  datatype Validation = Unchecked | Valid | Invalid | Duplicate

  datatype Execution = Waiting | Processing | Applied | Failed | Skipped

  datatype Row = Row(validation: Validation, execution: Execution, token: nat, updatedAt: int)

  type Rows = map<nat, Row>

  datatype Verdict = Verdict(row: nat, status: Validation)

  datatype Answer = Answer(row: nat, status: Execution)

  datatype Settlement = Settlement(row: nat, status: Execution, token: int)

  predicate Final(e: Execution) {
    e.Applied? || e.Failed? || e.Skipped?
  }

  function FreshRow(now: int): Row {
    Row(Unchecked, Waiting, 0, now)
  }

  // ----- statements -----

  /** Rows already there stay as they are (skipDuplicates). */
  function BulkInsert(rows: Rows, numbers: set<nat>, now: int): Rows {
    (map n | n in numbers :: FreshRow(now)) + rows
  }

  function Claimable(rows: Rows): set<nat> {
    set n | n in rows && rows[n].validation.Valid? && rows[n].execution.Waiting?
  }

  function ClaimRow(rows: Rows, n: nat, now: int): Rows {
    if n in Claimable(rows)
    then rows[n := rows[n].(execution := Processing, token := rows[n].token + 1, updatedAt := now)]
    else rows
  }

  function ClaimRows(rows: Rows, picked: seq<nat>, now: int): Rows
    decreases |picked|
  {
    if picked == [] then rows else ClaimRows(ClaimRow(rows, picked[0], now), picked[1..], now)
  }

  predicate Lands(rows: Rows, s: Settlement) {
    s.row in rows && rows[s.row].execution.Processing? && rows[s.row].token == s.token
  }

  function Settle(rows: Rows, s: Settlement): Rows {
    if Lands(rows, s) then rows[s.row := rows[s.row].(execution := s.status)] else rows
  }

  function SettleAll(rows: Rows, all: seq<Settlement>): Rows
    decreases |all|
  {
    if all == [] then rows else SettleAll(Settle(rows, all[0]), all[1..])
  }

  /** How many of the settlements land, each on the rows the ones before it left. */
  function Landed(rows: Rows, all: seq<Settlement>): nat
    decreases |all|
  {
    if all == [] then 0 else (if Lands(rows, all[0]) then 1 else 0) + Landed(Settle(rows, all[0]), all[1..])
  }

  function ApplyVerdict(rows: Rows, v: Verdict): Rows {
    if v.row in rows then rows[v.row := rows[v.row].(validation := v.status)] else rows
  }

  function ApplyVerdicts(rows: Rows, all: seq<Verdict>): Rows
    decreases |all|
  {
    if all == [] then rows else ApplyVerdicts(ApplyVerdict(rows, all[0]), all[1..])
  }

  /** The reconciler's two statements, for a job that is executing and for one that has ended. */
  function ResetStale(rows: Rows, cutoff: int, now: int): Rows {
    map n | n in rows ::
      if rows[n].execution.Processing? && rows[n].updatedAt < cutoff
      then rows[n].(execution := Waiting, token := rows[n].token + 1, updatedAt := now)
      else rows[n]
  }

  function Abandon(rows: Rows, now: int): Rows {
    map n | n in rows ::
      if rows[n].execution.Processing? then rows[n].(execution := Skipped, updatedAt := now) else rows[n]
  }

  // ----- what the multi-row statements mean -----

  lemma {:induction false} ClaimRowsEffect(rows: Rows, picked: seq<nat>, now: int)
    requires forall i, j :: 0 <= i < j < |picked| ==> picked[i] != picked[j]
    ensures var after := ClaimRows(rows, picked, now);
            && after.Keys == rows.Keys
            && forall n :: n in rows ==>
                 after[n] == if n in picked && n in Claimable(rows)
                             then rows[n].(execution := Processing, token := rows[n].token + 1, updatedAt := now) else rows[n]
    decreases |picked|
  {
    if picked != [] {
      ClaimRowsEffect(ClaimRow(rows, picked[0], now), picked[1..], now);
    }
  }

  /** The settlement that decides a held row: the first that names it under its token and moves it. */
  function Deciding(all: seq<Settlement>, n: nat, token: nat): Option<Execution>
    decreases |all|
  {
    if all == [] then None
    else if all[0].row == n && all[0].token == token && !all[0].status.Processing? then Some(all[0].status)
    else Deciding(all[1..], n, token)
  }

  lemma {:induction false} SettleAllEffect(rows: Rows, all: seq<Settlement>)
    ensures var after := SettleAll(rows, all);
            && after.Keys == rows.Keys
            && forall n :: n in rows ==>
                 after[n] == if rows[n].execution.Processing? && Deciding(all, n, rows[n].token).Some?
                             then rows[n].(execution := Deciding(all, n, rows[n].token).value) else rows[n]
    decreases |all|
  {
    if all != [] {
      SettleAllEffect(Settle(rows, all[0]), all[1..]);
    }
  }

  /** The rows left PROCESSING. */
  function Open(rows: Rows): set<nat> {
    set n | n in rows && rows[n].execution.Processing?
  }

  lemma SettleFreesOne(rows: Rows, s: Settlement)
    requires Final(s.status)
    ensures |Open(Settle(rows, s))| + (if Lands(rows, s) then 1 else 0) == |Open(rows)|
  {
    if Lands(rows, s) {
      assert Open(Settle(rows, s)) == Open(rows) - {s.row};
    }
  }

  /** With final statuses, the settlements that land are as many as the rows they take out of PROCESSING. */
  lemma {:induction false} LandedCountsTheFreed(rows: Rows, all: seq<Settlement>)
    requires forall k :: 0 <= k < |all| ==> Final(all[k].status)
    ensures |Open(SettleAll(rows, all))| + Landed(rows, all) == |Open(rows)|
    decreases |all|
  {
    if all != [] {
      SettleFreesOne(rows, all[0]);
      LandedCountsTheFreed(Settle(rows, all[0]), all[1..]);
    }
  }

  /** The last verdict on a row. */
  function LastVerdict(all: seq<Verdict>, n: nat): Option<Validation>
    decreases |all|
  {
    if all == [] then None
    else match LastVerdict(all[1..], n)
      case Some(v) => Some(v)
      case None => if all[0].row == n then Some(all[0].status) else None
  }

  lemma {:induction false} ApplyVerdictsEffect(rows: Rows, all: seq<Verdict>)
    ensures var after := ApplyVerdicts(rows, all);
            && after.Keys == rows.Keys
            && forall n :: n in rows ==>
                 after[n] == rows[n].(validation := LastVerdict(all, n).GetOr(rows[n].validation))
    decreases |all|
  {
    if all != [] {
      ApplyVerdictsEffect(ApplyVerdict(rows, all[0]), all[1..]);
    }
  }

  // ----- fencing -----

  /** Statements by anyone, in any order, with any token; a batch is the sequence of its rows. */
  datatype Op =
    | OpInsert(numbers: set<nat>, now: int)
    | OpVerdict(verdict: Verdict)
    | OpClaim(row: nat, now: int)
    | OpSettle(settlement: Settlement)
    | OpReset(cutoff: int, now: int)
    | OpAbandon(now: int)

  function Do(rows: Rows, op: Op): Rows {
    match op
    case OpInsert(numbers, now) => BulkInsert(rows, numbers, now)
    case OpVerdict(v) => ApplyVerdict(rows, v)
    case OpClaim(n, now) => ClaimRow(rows, n, now)
    case OpSettle(s) => Settle(rows, s)
    case OpReset(cutoff, now) => ResetStale(rows, cutoff, now)
    case OpAbandon(now) => Abandon(rows, now)
  }

  function Run(rows: Rows, ops: seq<Op>): Rows
    decreases |ops|
  {
    if ops == [] then rows else Run(Do(rows, ops[0]), ops[1..])
  }

  function PhaseOf(e: Execution): Fencing.Phase {
    match e
    case Waiting => Fencing.Waiting
    case Processing => Fencing.Held
    case _ => Fencing.Done
  }

  function Slots(rows: Rows): Fencing.Table<nat> {
    map n | n in rows :: Fencing.Slot(PhaseOf(rows[n].execution), rows[n].token)
  }

  /** The fencing operation behind each statement; a handler may also answer PENDING, which releases the row. */
  function FenceOp(rows: Rows, op: Op): Fencing.Op<nat> {
    match op
    case OpInsert(numbers, _) => Fencing.Add(numbers)
    case OpVerdict(_) => Fencing.Idle
    case OpClaim(n, _) => if n in Claimable(rows) then Fencing.Claim(n) else Fencing.Idle
    case OpSettle(s) =>
      if Final(s.status) then Fencing.Settle(s.row, s.token)
      else if s.status.Waiting? then Fencing.Release(s.row, s.token)
      else Fencing.Idle
    case OpReset(cutoff, _) => Fencing.Reset(set n | n in rows && rows[n].updatedAt < cutoff)
    case OpAbandon(_) => Fencing.Abandon(rows.Keys)
  }

  function FenceOps(rows: Rows, ops: seq<Op>): seq<Fencing.Op<nat>>
    decreases |ops|
  {
    if ops == [] then [] else [FenceOp(rows, ops[0])] + FenceOps(Do(rows, ops[0]), ops[1..])
  }

  lemma DoRefinesFencing(rows: Rows, op: Op)
    ensures Slots(Do(rows, op)) == Fencing.Do(Slots(rows), FenceOp(rows, op))
  {
  }

  lemma {:induction false} RunRefinesFencing(rows: Rows, log: seq<Fencing.Entry<nat>>, ops: seq<Op>)
    ensures Slots(Run(rows, ops)) == Fencing.Run(Fencing.World(Slots(rows), log), FenceOps(rows, ops)).table
    decreases |ops|
  {
    if ops != [] {
      var w := Fencing.World(Slots(rows), log);
      var f := FenceOp(rows, ops[0]);
      DoRefinesFencing(rows, ops[0]);
      RunRefinesFencing(Do(rows, ops[0]), Fencing.Step(w, f).log, ops[1..]);
      assert FenceOps(rows, ops)[1..] == FenceOps(Do(rows, ops[0]), ops[1..]);
    }
  }

  /**
   * Row fencing of the import table over every run without a re-parse: tokens
   * of a row's claims increase, at most one settlement of a row lands, and it
   * belongs to the row's latest claim.
   */
  lemma ImportRowsAreFenced(ops: seq<Op>)
    ensures var w := Fencing.Run(Fencing.Start<nat>(), FenceOps(map[], ops));
            Fencing.Fenced(w) && w.table == Slots(Run(map[], ops))
  {
    assert Slots(map[]) == map[];
    RunRefinesFencing(map[], [], ops);
    Fencing.FencingHolds(FenceOps(map[], ops));
  }

  /** A settled row never changes its outcome or its token again. */
  lemma {:induction false} SettledIsForever(rows: Rows, ops: seq<Op>, n: nat)
    requires n in rows && Final(rows[n].execution)
    ensures var after := Run(rows, ops);
            n in after && after[n].execution == rows[n].execution && after[n].token == rows[n].token
    decreases |ops|
  {
    if ops != [] {
      SettledIsForever(Do(rows, ops[0]), ops[1..], n);
    }
  }

  /** A worker whose row was reset under it can settle nothing, whatever happens in between. */
  lemma ResetVoidsTheClaim(rows: Rows, cutoff: int, now: int, ops: seq<Op>, s: Settlement)
    requires s.row in rows && rows[s.row].execution.Processing? && rows[s.row].updatedAt < cutoff && s.token == rows[s.row].token
    ensures var after := Run(ResetStale(rows, cutoff, now), ops); Settle(after, s) == after
  {
    TokensNeverFall(ResetStale(rows, cutoff, now), ops, s.row);
  }

  lemma {:induction false} TokensNeverFall(rows: Rows, ops: seq<Op>, n: nat)
    requires n in rows
    ensures n in Run(rows, ops) && rows[n].token <= Run(rows, ops)[n].token
    decreases |ops|
  {
    if ops != [] {
      TokensNeverFall(Do(rows, ops[0]), ops[1..], n);
    }
  }

  // ----- which rows a claim takes -----

  lemma {:induction false} LeastExists(s: set<nat>, m: nat)
    requires m in s
    ensures exists k :: k in s && forall x :: x in s ==> k <= x
    decreases m
  {
    if y :| y in s && y < m {
      LeastExists(s, y);
    }
  }

  function Least(s: set<nat>): (m: nat)
    requires s != {}
    ensures m in s && forall x :: x in s ==> m <= x
  {
    assert exists m :: m in s;
    assert exists k :: k in s && forall x :: x in s ==> k <= x by {
      var m :| m in s;
      LeastExists(s, m);
    }
    var m :| m in s && forall x :: x in s ==> m <= x;
    m
  }

  /** The lowest row numbers, at most limit of them, in order. */
  function Lowest(s: set<nat>, limit: nat): (r: seq<nat>)
    decreases limit
  {
    if limit == 0 || s == {} then [] else [Least(s)] + Lowest(s - {Least(s)}, limit - 1)
  }

  lemma {:induction false} LowestIsSorted(s: set<nat>, limit: nat)
    ensures forall x :: x in Lowest(s, limit) ==> x in s
    ensures forall i, j :: 0 <= i < j < |Lowest(s, limit)| ==> Lowest(s, limit)[i] < Lowest(s, limit)[j]
    decreases limit
  {
    if limit != 0 && s != {} {
      var m, rest := Least(s), Lowest(s - {Least(s)}, limit - 1);
      LowestIsSorted(s - {m}, limit - 1);
      assert Lowest(s, limit) == [m] + rest;
      assert forall i :: 0 <= i < |rest| ==> rest[i] in rest;
    }
  }

  /** A row is left out only if the batch is full, of lower rows. */
  lemma {:induction false} LowestLeavesOutTheHigher(s: set<nat>, limit: nat, x: nat)
    requires x in s && x !in Lowest(s, limit)
    ensures var r := Lowest(s, limit); |r| == limit && forall i :: 0 <= i < |r| ==> r[i] < x
    decreases limit
  {
    if limit != 0 {
      LowestLeavesOutTheHigher(s - {Least(s)}, limit - 1, x);
    }
  }

  function Keep(numbers: seq<nat>, wanted: set<nat>): (r: seq<nat>)
    ensures forall n :: n in r <==> n in numbers && n in wanted
    decreases |numbers|
  {
    if numbers == [] then [] else (if numbers[0] in wanted then [numbers[0]] else []) + Keep(numbers[1..], wanted)
  }

  function Drop(numbers: seq<nat>, unwanted: set<nat>): (r: seq<nat>)
    ensures forall n :: n in r <==> n in numbers && n !in unwanted
    decreases |numbers|
  {
    if numbers == [] then [] else (if numbers[0] in unwanted then [] else [numbers[0]]) + Drop(numbers[1..], unwanted)
  }

  lemma {:induction false} KeepOneMore(numbers: seq<nat>, n: nat, wanted: set<nat>)
    ensures Keep(numbers + [n], wanted) == Keep(numbers, wanted) + if n in wanted then [n] else []
    decreases |numbers|
  {
    if numbers == [] {
      assert [n][1..] == [];
      assert Keep([n], wanted) == (if n in wanted then [n] else []) + Keep([], wanted);
    } else {
      assert (numbers + [n])[1..] == numbers[1..] + [n];
      KeepOneMore(numbers[1..], n, wanted);
    }
  }

  lemma {:induction false} DropOneMore(numbers: seq<nat>, n: nat, unwanted: set<nat>)
    ensures Drop(numbers + [n], unwanted) == Drop(numbers, unwanted) + if n in unwanted then [] else [n]
    decreases |numbers|
  {
    if numbers == [] {
      assert [n][1..] == [];
      assert Drop([n], unwanted) == (if n in unwanted then [] else [n]) + Drop([], unwanted);
    } else {
      assert (numbers + [n])[1..] == numbers[1..] + [n];
      DropOneMore(numbers[1..], n, unwanted);
    }
  }

  lemma LowestAreDistinct(s: set<nat>, limit: nat)
    ensures forall i, j :: 0 <= i < j < |Lowest(s, limit)| ==> Lowest(s, limit)[i] != Lowest(s, limit)[j]
  {
    LowestIsSorted(s, limit);
  }

  /** A claim of distinct claimable rows is one update of all of them. */
  lemma ClaimIsOneUpdate(rows: Rows, claimed: seq<nat>, now: int)
    requires forall i, j :: 0 <= i < j < |claimed| ==> claimed[i] != claimed[j]
    requires forall n :: n in claimed ==> n in Claimable(rows)
    ensures ClaimRows(rows, claimed, now)
            == map n | n in rows ::
                 if n in claimed then rows[n].(execution := Processing, token := rows[n].token + 1, updatedAt := now) else rows[n]
  {
    ClaimRowsEffect(rows, claimed, now);
  }

  lemma ClaimLowestIsOneUpdate(rows: Rows, limit: nat, now: int)
    ensures var claimed := Lowest(Claimable(rows), limit);
            ClaimRows(rows, claimed, now)
            == map n | n in rows ::
                 if n in claimed then rows[n].(execution := Processing, token := rows[n].token + 1, updatedAt := now) else rows[n]
  {
    LowestAreDistinct(Claimable(rows), limit);
    LowestIsSorted(Claimable(rows), limit);
    ClaimIsOneUpdate(rows, Lowest(Claimable(rows), limit), now);
  }
}
