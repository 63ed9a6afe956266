/**
 * What an ACQUIRED answer of the inbox means when claims are completed and
 * failed only by those they were answered to.
 */
module InboxAnswers {
  import opened Inbox

  /** The token of the claim whose answer the step delivers. */
  function AnswerOf(s: State, step: Step): set<nat> {
    if step.Turn? && step.p in s.procs && s.procs[step.p].Answering? then {s.procs[step.p].token} else {}
  }

  function AnsweredBy(s: State, answered: set<nat>, steps: seq<Step>): set<nat>
    decreases |steps|
  {
    if steps == [] then answered else AnsweredBy(Apply(s, steps[0]), answered + AnswerOf(s, steps[0]), steps[1..])
  }

  predicate SettlesAnswered(s: State, answered: set<nat>, step: Step) {
    var op := WriteOf(s, step); op.MarkDone? || op.MarkFailed? ==> op.token in answered
  }

  /** Only a claim that has been answered is completed or failed. */
  predicate HonestRun(s: State, answered: set<nat>, steps: seq<Step>)
    decreases |steps|
  {
    steps == [] ||
    (SettlesAnswered(s, answered, steps[0]) && HonestRun(Apply(s, steps[0]), answered + AnswerOf(s, steps[0]), steps[1..]))
  }

  ghost predicate AnswersFresh(s: State, answered: set<nat>) {
    && (forall t :: t in answered ==> t < s.db.nextToken)
    && (forall p :: p in s.procs && s.procs[p].Answering? ==> s.procs[p].token < s.db.nextToken && s.procs[p].token !in answered)
    && (forall p, q :: p in s.procs && q in s.procs && p != q && s.procs[p].Answering? && s.procs[q].Answering? ==>
          s.procs[p].token != s.procs[q].token)
  }

  ghost predicate SettledByAnswered(log: seq<Event>, answered: set<nat>) {
    forall c :: 0 <= c < |log| && log[c].Settled? ==> log[c].token in answered
  }

  lemma AnswersStayFresh(s: State, step: Step, answered: set<nat>)
    requires AnswersFresh(s, answered)
    ensures AnswersFresh(Apply(s, step), answered + AnswerOf(s, step))
  {
    var t := Apply(s, step);
    assert forall p :: p in t.procs && t.procs[p].Answering? ==>
      (p in s.procs && t.procs[p] == s.procs[p]) || (step == Turn(p) && t.procs[p].token == s.db.nextToken < t.db.nextToken);
  }

  lemma SettlementIsByAnswered(s: State, step: Step, answered: set<nat>)
    requires SettledByAnswered(s.log, answered) && SettlesAnswered(s, answered, step)
    ensures SettledByAnswered(Apply(s, step).log, answered + AnswerOf(s, step))
  {
    var t, n := Apply(s, step), Note(s.db, WriteOf(s, step));
    assert forall c :: 0 <= c < |t.log| ==> if c < |s.log| then t.log[c] == s.log[c] else t.log[c] == n[c - |s.log|];
  }

  lemma {:induction false} UnansweredIsUnsettled(s: State, answered: set<nat>, steps: seq<Step>)
    requires AnswersFresh(s, answered) && SettledByAnswered(s.log, answered) && HonestRun(s, answered, steps)
    ensures var after := AnsweredBy(s, answered, steps); AnswersFresh(Run(s, steps), after) && SettledByAnswered(Run(s, steps).log, after)
    decreases |steps|
  {
    if steps != [] {
      AnswersStayFresh(s, steps[0], answered);
      SettlementIsByAnswered(s, steps[0], answered);
      UnansweredIsUnsettled(Apply(s, steps[0]), answered + AnswerOf(s, steps[0]), steps[1..]);
    }
  }

  /**
   * When claims are settled only by those they were answered to, ACQUIRED inside
   * the lease always means that: the row is owned, and every other claim is over.
   */
  lemma AcquiredMeansExclusive(cfg: Config, steps: seq<Step>, p: nat)
    requires HonestRun(Initial(cfg), {}, steps)
    requires var s := Run(Initial(cfg), steps);
             p in s.procs && s.procs[p].Answering? && s.db.now < s.procs[p].start + cfg.lease
    ensures var s := Run(Initial(cfg), steps); var proc := s.procs[p];
            && proc.identity in s.db.table && Owned(s.db.table[proc.identity], proc.id, proc.token)
            && OthersOver(s, proc.identity, proc.token)
  {
    PromptAnswersAreExclusive(cfg, steps, p);
    UnansweredIsUnsettled(Initial(cfg), {}, steps);
  }

  lemma {:induction false} HonestAppend(s: State, answered: set<nat>, steps: seq<Step>, step: Step)
    requires HonestRun(s, answered, steps) && SettlesAnswered(Run(s, steps), AnsweredBy(s, answered, steps), step)
    ensures HonestRun(s, answered, steps + [step])
    ensures AnsweredBy(s, answered, steps + [step]) == AnsweredBy(s, answered, steps) + AnswerOf(Run(s, steps), step)
    decreases |steps|
  {
    var a := answered + AnswerOf(s, (steps + [step])[0]);
    if steps == [] {
      assert [step][1..] == [] && [] + [step] == [step];
      assert HonestRun(Apply(s, step), a, []) && AnsweredBy(Apply(s, step), a, []) == a;
    } else {
      HonestAppend(Apply(s, steps[0]), a, steps[1..], step);
      assert (steps + [step])[1..] == steps[1..] + [step];
    }
  }

  /** One step more of a run from the initial state, settled by those answered. */
  lemma HonestOneMore(s0: State, steps: seq<Step>, step: Step) returns (more: seq<Step>)
    requires HonestRun(s0, {}, steps) && SettlesAnswered(Run(s0, steps), AnsweredBy(s0, {}, steps), step)
    ensures HonestRun(s0, {}, more) && Run(s0, more) == Apply(Run(s0, steps), step)
    ensures AnsweredBy(s0, {}, more) == AnsweredBy(s0, {}, steps) + AnswerOf(Run(s0, steps), step)
  {
    RunAppend(s0, steps, step);
    HonestAppend(s0, {}, steps, step);
    more := steps + [step];
  }
}
