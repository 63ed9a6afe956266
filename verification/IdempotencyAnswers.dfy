/**
 * Exclusivity as callers see it. A takeover reads its row back in a second
 * statement, so an ACQUIRED answer can come later than the claim it reports:
 * within the lease it names the one live claim, after it it may name a dead one.
 */
module IdempotencyAnswers {
  import opened Common
  import opened Idempotency
  import opened IdempotencyClaims

  /** The reservation that the turn hands to its caller. */
  function AnswerOf(s: State, p: nat, c: Choice): Option<Reservation> {
    if p !in s.procs then None
    else
      var events := TurnOf(s, s.procs[p], c).events;
      if events != [] && events[|events| - 1].Answered? && events[|events| - 1].answer.Acquired?
      then Some(events[|events| - 1].answer.reservation) else None
  }

  /** A takeover's read-back runs no later than a lease after the takeover. */
  predicate ReadBackInTime(s: State, p: nat) {
    p in s.procs && s.procs[p].TookOver? ==> s.db.now <= s.procs[p].since + s.lease
  }

  ghost predicate Claimed(log: seq<Event>, i: Identity, token: nat, at: int) {
    exists a :: 0 <= a < |log| && log[a].Granted? && log[a].identity == i && log[a].token == token && log[a].at == at
  }

  /** Whoever has yet to read back a takeover has its claim on record. */
  ghost predicate TakersOk(s: State) {
    forall p :: p in s.procs && s.procs[p].TookOver? ==>
      s.procs[p].token < s.db.nextToken && Claimed(s.log, s.procs[p].req.identity, s.procs[p].token, s.procs[p].since)
  }

  /** Every claim on the identity but this one is settled, or its lease is over. */
  ghost predicate OthersOver(s: State, i: Identity, token: nat) {
    forall a :: 0 <= a < |s.log| && s.log[a].Granted? && s.log[a].identity == i && s.log[a].token != token ==>
      SettledIn(s.log, s.log[a].token) || s.db.now > s.log[a].at + s.lease
  }

  lemma ClaimedGrows(log: seq<Event>, more: seq<Event>, i: Identity, token: nat, at: int)
    requires Claimed(log, i, token, at)
    ensures Claimed(log + more, i, token, at)
  {
    var a :| 0 <= a < |log| && log[a].Granted? && log[a].identity == i && log[a].token == token && log[a].at == at;
    assert (log + more)[a] == log[a];
  }

  /** Only a takeover puts a process where it has a row to read back. */
  lemma NewTaker(s: State, step: Step, q: nat)
    requires q in Apply(s, step).procs && Apply(s, step).procs[q].TookOver?
    requires q !in s.procs || Apply(s, step).procs[q] != s.procs[q]
    ensures var proc := Apply(s, step).procs[q];
            && step.Turn? && step.p == q && q in s.procs && s.procs[q].TakingOver?
            && proc.token == s.db.nextToken < Apply(s, step).db.nextToken && proc.since == s.db.now
            && |Added(s, step)| == 1 && Added(s, step)[0].Granted? && Added(s, step)[0].identity == proc.req.identity
            && Added(s, step)[0].token == proc.token && Added(s, step)[0].at == proc.since
  {
  }

  lemma TakerStaysOk(log: seq<Event>, added: seq<Event>, a: nat, i: Identity, token: nat, at: int)
    requires a < |added| && added[a].Granted? && added[a].identity == i && added[a].token == token && added[a].at == at
    ensures Claimed(log + added, i, token, at)
  {
    assert (log + added)[|log| + a] == added[a];
  }

  lemma TakersStayOk(s: State, step: Step)
    requires DbOk(s.db) && TakersOk(s)
    ensures TakersOk(Apply(s, step))
  {
    var t := Apply(s, step);
    ApplyEvolves(s, step);
    LogGrowsByAdded(s, step);
    forall p | p in t.procs && t.procs[p].TookOver?
      ensures t.procs[p].token < t.db.nextToken && Claimed(t.log, t.procs[p].req.identity, t.procs[p].token, t.procs[p].since)
    {
      var proc := t.procs[p];
      if p in s.procs && proc == s.procs[p] {
        ClaimedGrows(s.log, Added(s, step), proc.req.identity, proc.token, proc.since);
      } else {
        NewTaker(s, step, p);
        TakerStaysOk(s.log, Added(s, step), 0, proc.req.identity, proc.token, proc.since);
      }
    }
  }

  lemma {:induction false} RunKeepsTakersOk(s: State, steps: seq<Step>)
    requires DbOk(s.db) && TakersOk(s)
    ensures DbOk(Run(s, steps).db) && TakersOk(Run(s, steps))
    decreases |steps|
  {
    if steps != [] {
      ApplyEvolves(s, steps[0]);
      TakersStayOk(s, steps[0]);
      RunKeepsTakersOk(Apply(s, steps[0]), steps[1..]);
    }
  }

  lemma InsertAnswerIsExclusive(s: State, p: nat, c: Choice, r: Reservation)
    requires Inv(s) && Timely(s, Turn(p, c)) && p in s.procs && s.procs[p].Inserting? && AnswerOf(s, p, c) == Some(r)
    ensures var t := Apply(s, Turn(p, c)); Owns(t.db.ledger, r) && OthersOver(t, r.identity, r.token)
  {
    var step := Turn(p, c);
    var t, n := Apply(s, step), |s.log|;
    LogGrowsByAdded(s, step);
    forall a | 0 <= a < |t.log| && t.log[a].Granted? && t.log[a].identity == r.identity && t.log[a].token != r.token
      ensures SettledIn(t.log, t.log[a].token) || t.db.now > t.log[a].at + t.lease
    {
      if a < n {
        assert t.log[a] == s.log[a];
        NewClaimIsAlone(s, step, s.log[a]);
        if SettledIn(s.log, s.log[a].token) {
          SettledInGrows(s.log, Added(s, step), s.log[a].token);
        }
      }
    }
  }

  lemma ReadBackAnswerIsExclusive(s: State, p: nat, c: Choice, r: Reservation)
    requires Inv(s) && TakersOk(s) && p in s.procs && s.procs[p].TookOver? && AnswerOf(s, p, c) == Some(r)
    requires ReadBackInTime(s, p)
    ensures SettledIn(s.log, r.token) || (Owns(s.db.ledger, r) && OthersOver(s, r.identity, r.token))
  {
    var proc := s.procs[p];
    var a :| 0 <= a < |s.log| && s.log[a].Granted? && s.log[a].identity == proc.req.identity && s.log[a].token == proc.token &&
             s.log[a].at == proc.since;
    assert ClaimOk(s, s.log[a]);
    if !SettledIn(s.log, r.token) {
      forall b | 0 <= b < |s.log| && s.log[b].Granted? && s.log[b].identity == r.identity && s.log[b].token != r.token
        ensures SettledIn(s.log, s.log[b].token) || s.db.now > s.log[b].at + s.lease
      {
        assert ClaimOk(s, s.log[b]);
      }
    }
  }

  lemma OthersStayOver(s: State, p: nat, c: Choice, i: Identity, token: nat)
    requires p in s.procs && s.procs[p].TookOver? && OthersOver(s, i, token)
    ensures OthersOver(Apply(s, Turn(p, c)), i, token)
  {
    var step := Turn(p, c);
    var t, n := Apply(s, step), |s.log|;
    LogGrowsByAdded(s, step);
    assert forall a :: n <= a < |t.log| ==> !t.log[a].Granted?;
    forall a | 0 <= a < |t.log| && t.log[a].Granted? && t.log[a].identity == i && t.log[a].token != token
      ensures SettledIn(t.log, t.log[a].token) || t.db.now > t.log[a].at + t.lease
    {
      assert t.log[a] == s.log[a];
      if SettledIn(s.log, s.log[a].token) {
        SettledInGrows(s.log, Added(s, step), s.log[a].token);
      }
    }
  }

  /**
   * In every run of timely claims, an ACQUIRED answer read back within its lease
   * owns the row and every other claim on the identity is settled or over, unless
   * somebody has already settled under its token.
   */
  lemma PromptAnswersAreExclusive(lease: nat, steps: seq<Step>, p: nat, c: Choice, r: Reservation)
    requires var s := Run(Initial(lease), steps);
             TimelyRun(Initial(lease), steps) && Timely(s, Turn(p, c)) && AnswerOf(s, p, c) == Some(r) && ReadBackInTime(s, p)
    ensures var s := Run(Initial(lease), steps); var t := Apply(s, Turn(p, c));
            SettledIn(s.log, r.token) || (Owns(t.db.ledger, r) && OthersOver(t, r.identity, r.token))
  {
    var s := Run(Initial(lease), steps);
    RunKeepsInv(Initial(lease), steps);
    RunKeepsTakersOk(Initial(lease), steps);
    if s.procs[p].Inserting? {
      InsertAnswerIsExclusive(s, p, c, r);
    } else {
      ReadBackAnswerIsExclusive(s, p, c, r);
      if OthersOver(s, r.identity, r.token) {
        OthersStayOver(s, p, c, r.identity, r.token);
      }
    }
  }

  // ----- reservations are settled by those who hold them -----

  ghost predicate AnsweredWith(log: seq<Event>, r: Reservation) {
    exists a :: 0 <= a < |log| && log[a].Answered? && log[a].answer == Acquired(r)
  }

  ghost predicate TokenAnswered(log: seq<Event>, token: nat) {
    exists a :: 0 <= a < |log| && log[a].Answered? && log[a].answer.Acquired? && log[a].answer.reservation.token == token
  }

  /** Complete and fail are called with reservations that reserve has answered. */
  ghost predicate Honest(s: State, step: Step) {
    step.Complete? || step.Fail? ==> AnsweredWith(s.log, step.r)
  }

  ghost predicate HonestRun(s: State, steps: seq<Step>)
    decreases |steps|
  {
    steps == [] || (Honest(s, steps[0]) && HonestRun(Apply(s, steps[0]), steps[1..]))
  }

  ghost predicate SettlersOk(log: seq<Event>, proc: Proc) {
    proc.Completing? || proc.Failing? ==> TokenAnswered(log, proc.r.token)
  }

  /** Settled tokens have been answered; a takeover that is yet to be read back has not, and no two share a token. */
  ghost predicate HandedOut(log: seq<Event>, procs: map<nat, Proc>, nextToken: nat) {
    && (forall a :: 0 <= a < |log| && log[a].Settled? ==> TokenAnswered(log, log[a].token))
    && (forall p :: p in procs ==> SettlersOk(log, procs[p]))
    && (forall a :: 0 <= a < |log| && log[a].Answered? && log[a].answer.Acquired? ==> log[a].answer.reservation.token < nextToken)
    && (forall p :: p in procs && procs[p].TookOver? ==> procs[p].token < nextToken && !TokenAnswered(log, procs[p].token))
    && (forall p, q :: p in procs && q in procs && p != q && procs[p].TookOver? && procs[q].TookOver? ==>
          procs[p].token != procs[q].token)
  }

  lemma TokenAnsweredGrows(log: seq<Event>, more: seq<Event>, token: nat)
    requires TokenAnswered(log, token)
    ensures TokenAnswered(log + more, token)
  {
    var a :| 0 <= a < |log| && log[a].Answered? && log[a].answer.Acquired? && log[a].answer.reservation.token == token;
    assert (log + more)[a] == log[a];
  }

  /** What one step may add to the history and make of its process. */
  ghost predicate Fits(log: seq<Event>, added: seq<Event>, was: Option<Proc>, next: Option<Proc>, n: nat, m: nat) {
    && n <= m
    && (forall a :: 0 <= a < |added| && added[a].Settled? ==>
          was.Some? && (was.value.Completing? || was.value.Failing?) && added[a].token == was.value.r.token)
    && (forall a :: 0 <= a < |added| && added[a].Answered? && added[a].answer.Acquired? ==>
          var token := added[a].answer.reservation.token;
          was.Some? && next.None? && (if was.value.TookOver? then token == was.value.token else token == n < m))
    && (next.Some? && next != was && next.value.TookOver? ==>
          next.value.token == n < m && forall a :: 0 <= a < |added| ==> !added[a].Answered?)
    && (next.Some? && next != was ==> SettlersOk(log, next.value))
  }

  function Actor(step: Step): nat {
    match step
    case Reserve(p, _) => p
    case Complete(p, _, _) => p
    case Fail(p, _) => p
    case Turn(p, _) => p
    case Crash(p) => p
    case _ => 0
  }

  function ProcAt(procs: map<nat, Proc>, p: nat): Option<Proc> {
    if p in procs then Some(procs[p]) else None
  }

  lemma TurnFits(s: State, p: nat, c: Choice)
    requires p in s.procs
    ensures var move := TurnOf(s, s.procs[p], c);
            Fits(s.log, move.events, Some(s.procs[p]), move.next, s.db.nextToken, Do(s.db, move.op).nextToken)
  {
    match s.procs[p]
    case Inserting(_, _, _) =>
    case TakingOver(_, _) =>
    case _ =>
  }

  lemma StepFits(s: State, step: Step)
    requires Honest(s, step)
    ensures var t := Apply(s, step);
            && (forall q :: q in t.procs && q != Actor(step) ==> q in s.procs && t.procs[q] == s.procs[q])
            && Fits(s.log, Added(s, step), ProcAt(s.procs, Actor(step)), ProcAt(t.procs, Actor(step)), s.db.nextToken, t.db.nextToken)
  {
    if step.Turn? && step.p in s.procs {
      TurnFits(s, step.p, step.choice);
    } else if (step.Complete? || step.Fail?) && step.p !in s.procs {
      var a :| 0 <= a < |s.log| && s.log[a].Answered? && s.log[a].answer == Acquired(step.r);
      assert TokenAnswered(s.log, step.r.token);
    }
  }

  lemma NotAnsweredStays(log: seq<Event>, added: seq<Event>, token: nat)
    requires !TokenAnswered(log, token)
    requires forall a :: 0 <= a < |added| && added[a].Answered? && added[a].answer.Acquired? ==> added[a].answer.reservation.token != token
    ensures !TokenAnswered(log + added, token)
  {
    var all, n := log + added, |log|;
    assert forall a :: 0 <= a < |all| ==> if a < n then all[a] == log[a] else all[a] == added[a - n];
  }

  lemma SettledStayAnswered(log: seq<Event>, added: seq<Event>, procs: map<nat, Proc>, p: nat, next: Option<Proc>, n: nat, m: nat)
    requires HandedOut(log, procs, n) && Fits(log, added, ProcAt(procs, p), next, n, m)
    ensures var all := log + added;
            forall a :: 0 <= a < |all| && all[a].Settled? ==> TokenAnswered(all, all[a].token)
  {
    var all := log + added;
    forall a | 0 <= a < |all| && all[a].Settled?
      ensures TokenAnswered(all, all[a].token)
    {
      if a < |log| {
        assert all[a] == log[a];
      } else {
        assert all[a] == added[a - |log|];
        assert SettlersOk(log, procs[p]);
      }
      TokenAnsweredGrows(log, added, all[a].token);
    }
  }

  lemma HandedOutStays(log: seq<Event>, added: seq<Event>, procs: map<nat, Proc>, after: map<nat, Proc>, p: nat, n: nat, m: nat)
    requires HandedOut(log, procs, n) && Fits(log, added, ProcAt(procs, p), ProcAt(after, p), n, m)
    requires forall q :: q in after && q != p ==> q in procs && after[q] == procs[q]
    ensures HandedOut(log + added, after, m)
  {
    var all := log + added;
    SettledStayAnswered(log, added, procs, p, ProcAt(after, p), n, m);
    assert forall a :: 0 <= a < |all| ==> if a < |log| then all[a] == log[a] else all[a] == added[a - |log|];
    forall q | q in after
      ensures SettlersOk(all, after[q])
    {
      if after[q].Completing? || after[q].Failing? {
        assert SettlersOk(log, after[q]);
        TokenAnsweredGrows(log, added, after[q].r.token);
      }
    }
    forall q | q in after && after[q].TookOver?
      ensures after[q].token < m && !TokenAnswered(all, after[q].token)
    {
      assert !TokenAnswered(log, after[q].token);
      NotAnsweredStays(log, added, after[q].token);
    }
  }

  lemma {:induction false} RunKeepsHandedOut(s: State, steps: seq<Step>)
    requires HandedOut(s.log, s.procs, s.db.nextToken) && HonestRun(s, steps)
    ensures var t := Run(s, steps); HandedOut(t.log, t.procs, t.db.nextToken)
    decreases |steps|
  {
    if steps != [] {
      var t := Apply(s, steps[0]);
      StepFits(s, steps[0]);
      LogGrowsByAdded(s, steps[0]);
      HandedOutStays(s.log, Added(s, steps[0]), s.procs, t.procs, Actor(steps[0]), s.db.nextToken, t.db.nextToken);
      RunKeepsHandedOut(t, steps[1..]);
    }
  }

  /** What is about to be answered has not been settled. */
  lemma UnansweredIsUnsettled(s: State, p: nat, c: Choice, r: Reservation)
    requires HandedOut(s.log, s.procs, s.db.nextToken) && AnswerOf(s, p, c) == Some(r)
    ensures !SettledIn(s.log, r.token)
  {
    assert !TokenAnswered(s.log, r.token);
  }

  /**
   * With reservations settled only by those they were answered to: every ACQUIRED
   * answer read back within its lease owns the row, and every other claim on the
   * identity is settled or over.
   */
  lemma AcquiredMeansExclusive(lease: nat, steps: seq<Step>, p: nat, c: Choice, r: Reservation)
    requires var s := Run(Initial(lease), steps);
             && TimelyRun(Initial(lease), steps) && HonestRun(Initial(lease), steps)
             && Timely(s, Turn(p, c)) && AnswerOf(s, p, c) == Some(r) && ReadBackInTime(s, p)
    ensures var t := Apply(Run(Initial(lease), steps), Turn(p, c));
            Owns(t.db.ledger, r) && OthersOver(t, r.identity, r.token)
  {
    var s := Run(Initial(lease), steps);
    PromptAnswersAreExclusive(lease, steps, p, c, r);
    RunEvolves(Initial(lease), steps);
    RunKeepsHandedOut(Initial(lease), steps);
    UnansweredIsUnsettled(s, p, c, r);
  }

  /** However late it comes, an ACQUIRED answer owns its row, or is dead for good. */
  lemma AnswerOwnsOrIsDead(lease: nat, steps: seq<Step>, p: nat, c: Choice, r: Reservation, later: seq<Step>, value: Json)
    requires AnswerOf(Run(Initial(lease), steps), p, c) == Some(r)
    ensures var t := Apply(Run(Initial(lease), steps), Turn(p, c));
            var ledger := Run(t, later).db.ledger;
            Owns(t.db.ledger, r) || (CompleteCas(ledger, r, value) == ledger && FailDeleteCas(ledger, r) == ledger)
  {
    var s := Run(Initial(lease), steps);
    RunKeepsTakersOk(Initial(lease), steps);
    ApplyEvolves(s, Turn(p, c));
    LostAnswerIsDead(s, p, c, r);
    if !Owns(Apply(s, Turn(p, c)).db.ledger, r) {
      DeadForever(Apply(s, Turn(p, c)), later, r, value);
    }
  }

  lemma LostAnswerIsDead(s: State, p: nat, c: Choice, r: Reservation)
    requires TakersOk(s) && AnswerOf(s, p, c) == Some(r)
    ensures var t := Apply(s, Turn(p, c));
            r.token < t.db.nextToken && (Owns(t.db.ledger, r) || Dead(t.db, r.identity, r.token))
  {
  }

  // ----- late read-backs -----

  lemma {:induction false} TimelyAppend(s: State, steps: seq<Step>, step: Step)
    requires TimelyRun(s, steps) && Timely(Run(s, steps), step)
    ensures TimelyRun(s, steps + [step])
    decreases |steps|
  {
    if steps == [] {
      assert [step][1..] == [];
      assert TimelyRun(Apply(s, step), []);
    } else {
      TimelyAppend(Apply(s, steps[0]), steps[1..], step);
      assert (steps + [step])[1..] == steps[1..] + [step];
    }
  }

  lemma Extend(s0: State, steps: seq<Step>, step: Step) returns (more: seq<Step>)
    requires TimelyRun(s0, steps) && Timely(Run(s0, steps), step)
    ensures TimelyRun(s0, more) && Run(s0, more) == Apply(Run(s0, steps), step)
  {
    more := RunOneMore(s0, steps, step);
    TimelyAppend(s0, steps, step);
  }

  /** One row under a live claim, nobody reading the cache. */
  ghost predicate OneOpenRow(s: State, req: Request) {
    && req.hash.None? && req.ttl >= s.lease && s.cache == map[]
    && req.identity in s.db.ledger && s.db.ledger[req.identity].status.InProgress?
  }

  function Took(s: State, p: nat, req: Request): State
    requires req.identity in s.db.ledger
  {
    s.(db := Do(s.db, TakeOver(req.identity, s.db.now - s.lease, s.db.now + req.ttl)),
       procs := s.procs[p := TookOver(req, s.db.nextToken, s.db.now)],
       log := s.log + [Granted(req.identity, s.db.ledger[req.identity].id, s.db.nextToken, s.db.now)])
  }

  /** A second reserve call on an open row gets as far as the takeover. */
  lemma ReachTakeover(s0: State, steps: seq<Step>, p: nat, req: Request) returns (more: seq<Step>)
    requires TimelyRun(s0, steps)
    requires var s := Run(s0, steps); OneOpenRow(s, req) && p !in s.procs
    ensures var s := Run(s0, steps);
            TimelyRun(s0, more) && Run(s0, more) == s.(procs := s.procs[p := TakingOver(req, s.db.now)])
  {
    var s, turn := Run(s0, steps), Turn(p, Choice(Delivered, true));
    more := Extend(s0, steps, Reserve(p, req));
    more := Extend(s0, more, turn);
    assert Run(s0, more) == s.(procs := s.procs[p := Inserting(req, s.db.now, false)]);
    more := Extend(s0, more, turn);
    assert Run(s0, more) == s.(procs := s.procs[p := Inspecting(req, s.db.now)]);
    more := Extend(s0, more, turn);
    assert Run(s0, more).procs == s.procs[p := TakingOver(req, s.db.now)];
  }

  /** Once the lease is over, the takeover lands. */
  lemma TakeOverNow(s0: State, steps: seq<Step>, p: nat, req: Request) returns (more: seq<Step>)
    requires TimelyRun(s0, steps)
    requires var s := Run(s0, steps);
             OneOpenRow(s, req) && p !in s.procs && CanTakeOver(s.db.ledger, req.identity, s.db.now - s.lease)
    ensures TimelyRun(s0, more) && Run(s0, more) == Took(Run(s0, steps), p, req)
  {
    var s := Run(s0, steps);
    more := ReachTakeover(s0, steps, p, req);
    var t := Run(s0, more);
    assert t.procs[p] == TakingOver(req, s.db.now);
    more := Extend(s0, more, Turn(p, Choice(Delivered, true)));
    assert Run(s0, more).procs == s.procs[p := TookOver(req, s.db.nextToken, s.db.now)];
  }

  /** A first claim at time zero. */
  lemma ClaimFirst(lease: nat, req: Request) returns (steps: seq<Step>)
    requires req.ttl >= lease
    ensures TimelyRun(Initial(lease), steps) && Run(Initial(lease), steps) == OneClaim(lease, req, 0)
  {
    var c, s0 := Choice(Delivered, true), Initial(lease);
    steps := [];
    assert Run(s0, steps) == s0;
    steps := Extend(s0, steps, Reserve(0, req));
    assert Run(s0, steps).procs == map[0 := CacheGet(req, 0)];
    steps := Extend(s0, steps, Turn(0, c));
    assert Run(s0, steps).procs == map[0 := Inserting(req, 0, false)];
    steps := Extend(s0, steps, Turn(0, c));
    assert Run(s0, steps).procs == map[];
  }

  lemma Wait(s0: State, steps: seq<Step>, d: nat) returns (more: seq<Step>)
    requires TimelyRun(s0, steps)
    ensures TimelyRun(s0, more)
    ensures var s := Run(s0, steps); Run(s0, more) == s.(db := s.db.(now := s.db.now + d))
  {
    more := Extend(s0, steps, Tick(d));
  }

  /** Two takeovers in a row, the first not yet read back. */
  lemma TwoTakeovers(lease: nat, req: Request, delay: nat) returns (steps: seq<Step>)
    requires req.hash.None? && req.ttl >= lease && delay > lease
    ensures TimelyRun(Initial(lease), steps)
    ensures var s := Run(Initial(lease), steps); var i := req.identity; var since := lease + 1;
            && s.lease == lease && s.db.now == since + delay
            && s.procs == map[1 := TookOver(req, 1, since), 2 := TookOver(req, 2, since + delay)]
            && s.db.ledger == map[i := Row(0, InProgress, 2, 3, None, None, since + delay, since + delay + req.ttl)]
            && |s.log| == 4 && s.log[3] == Granted(i, 0, 2, since + delay)
            && forall a :: 0 <= a < 4 ==> !s.log[a].Settled?
  {
    var s0, i := Initial(lease), req.identity;
    steps := ClaimFirst(lease, req);
    steps := Wait(s0, steps, lease + 1);
    steps := TakeOverNow(s0, steps, 1, req);
    var s := Run(s0, steps);
    assert s.db.ledger == map[i := Row(0, InProgress, 1, 2, None, None, lease + 1, lease + 1 + req.ttl)];
    steps := Wait(s0, steps, delay);
    steps := TakeOverNow(s0, steps, 2, req);
  }

  /**
   * The bound is exact: for every read-back later than a lease after its
   * takeover there is a run of timely claims in which it answers ACQUIRED while
   * another claim on the identity is unsettled, inside its lease and owns the
   * row, so that the answered reservation is dead.
   */
  lemma LateReadBackBreaksExclusivity(lease: nat, ttl: nat, delay: nat, i: Identity) returns (steps: seq<Step>, r: Reservation)
    requires ttl >= lease && delay > lease
    ensures TimelyRun(Initial(lease), steps)
    ensures var s := Run(Initial(lease), steps);
            && 1 in s.procs && s.procs[1].TookOver? && s.db.now == s.procs[1].since + delay
            && AnswerOf(s, 1, Choice(Delivered, true)) == Some(r) && r.identity == i
            && Dead(s.db, i, r.token)
            && !SettledIn(s.log, 2) && r.token != 2 && 0 < |s.log| && s.log[|s.log| - 1] == Granted(i, 0, 2, s.db.now)
            && Holds(s.db, s.log[|s.log| - 1], s.lease)
  {
    steps := TwoTakeovers(lease, Request(i, None, ttl), delay);
    r := Reservation(i, 0, 1, 3);
  }

  // ----- finding the row by its id -----

  /** The reserved id is on no other identity's row. */
  ghost predicate NamesItsRow(db: Db, r: Reservation) {
    r.id < db.nextId && forall i :: i in db.ledger && db.ledger[i].id == r.id ==> i == r.identity
  }

  ghost predicate AnswersNameRows(db: Db, log: seq<Event>) {
    forall a :: 0 <= a < |log| && log[a].Answered? && log[a].answer.Acquired? ==> NamesItsRow(db, log[a].answer.reservation)
  }

  lemma NamingLasts(a: Db, b: Db, log: seq<Event>)
    requires Evolves(a, b) && AnswersNameRows(a, log)
    ensures AnswersNameRows(b, log)
  {
  }

  lemma NewAnswersNameRows(s: State, proc: Proc, c: Choice)
    requires DbOk(s.db) && IdsDistinct(s.db)
    ensures var move := TurnOf(s, proc, c); AnswersNameRows(Do(s.db, move.op), move.events)
  {
    match proc
    case Inserting(_, _, _) =>
    case TookOver(_, _, _) =>
    case _ =>
  }

  lemma NamingExtends(db: Db, log: seq<Event>, added: seq<Event>)
    requires AnswersNameRows(db, log) && AnswersNameRows(db, added)
    ensures AnswersNameRows(db, log + added)
  {
    var all := log + added;
    assert forall a :: 0 <= a < |all| ==> if a < |log| then all[a] == log[a] else all[a] == added[a - |log|];
  }

  lemma AnswersKeepNamingRows(s: State, step: Step)
    requires DbOk(s.db) && IdsDistinct(s.db) && AnswersNameRows(s.db, s.log)
    ensures AnswersNameRows(Apply(s, step).db, Apply(s, step).log)
  {
    ApplyEvolves(s, step);
    LogGrowsByAdded(s, step);
    NamingLasts(s.db, Apply(s, step).db, s.log);
    if step.Turn? && step.p in s.procs {
      NewAnswersNameRows(s, s.procs[step.p], step.choice);
      assert AnswersNameRows(Apply(s, step).db, Added(s, step));
    }
    NamingExtends(Apply(s, step).db, s.log, Added(s, step));
  }

  lemma {:induction false} RunKeepsNamingRows(s: State, steps: seq<Step>)
    requires DbOk(s.db) && IdsDistinct(s.db) && AnswersNameRows(s.db, s.log)
    ensures AnswersNameRows(Run(s, steps).db, Run(s, steps).log)
    decreases |steps|
  {
    if steps != [] {
      ApplyEvolves(s, steps[0]);
      IdsStayDistinct(s.db, OpOf(s, steps[0]));
      DbAfter(s, steps[0]);
      AnswersKeepNamingRows(s, steps[0]);
      RunKeepsNamingRows(Apply(s, steps[0]), steps[1..]);
    }
  }

  lemma ByIdIsByIdentity(db: Db, r: Reservation, value: Json)
    requires NamesItsRow(db, r)
    ensures CompleteCasById(db.ledger, r, value) == CompleteCas(db.ledger, r, value)
    ensures FailDeleteCasById(db.ledger, r) == FailDeleteCas(db.ledger, r)
  {
    assert forall i :: i in db.ledger && Matches(db.ledger[i], r) ==> i == r.identity;
  }

  /** For every reservation that was ever answered, completing or failing the row found by its id is completing or failing the identity's row. */
  lemma AnsweredReservationsFindTheirRow(lease: nat, steps: seq<Step>, r: Reservation, value: Json)
    requires AnsweredWith(Run(Initial(lease), steps).log, r)
    ensures var ledger := Run(Initial(lease), steps).db.ledger;
            CompleteCasById(ledger, r, value) == CompleteCas(ledger, r, value) && FailDeleteCasById(ledger, r) == FailDeleteCas(ledger, r)
  {
    var s := Run(Initial(lease), steps);
    RunKeepsNamingRows(Initial(lease), steps);
    var a :| 0 <= a < |s.log| && s.log[a].Answered? && s.log[a].answer == Acquired(r);
    assert NamesItsRow(s.db, r);
    ByIdIsByIdentity(s.db, r, value);
  }
}
