/**
 * A recurring TIME template over its whole life: the handler that claims an
 * occurrence, decides it, appends the outbox event and reschedules in one
 * transaction, interleaved with pausing, cancelling, consumers reporting back
 * and the sweep of stale executions. The scheduler may fire at any time and any
 * number of times.
 */
module RecurringSeries {
  import opened Common
  import opened Calendar
  import opened RecurrenceEngine

  datatype TemplateStatus = Active | Paused | Cancelled | Completed

  /** `listens` says whether the TIME template also names an event. */
  datatype Template = Template(
    status: TemplateStatus,
    frequency: Frequency,
    interval: nat,
    start: CalendarDate,
    end: Option<CalendarDate>,
    nextRunDate: CalendarDate,
    lastRunDate: Option<CalendarDate>,
    listens: bool)

  /** The unique trigger key of an execution: the run date, or the source event. */
  datatype Key = OnDate(date: CalendarDate) | OnEvent(id: nat)

  datatype ExecutionStatus = InProgress | Succeeded | Failed | SkippedInactive | SkippedByCondition | SkippedByConsumer

  /** `claims` lists the executions in the order of their inserts. */
  datatype State = State(
    template: Template,
    executions: map<Key, ExecutionStatus>,
    claims: seq<Key>,
    outbox: seq<Key>)

  /** How the condition check and the outbox append turn out. */
  datatype Verdict = Passes | NotMet | Throws

  datatype Step =
    | Fire(verdict: Verdict)
    | FireOnEvent(id: nat, verdict: Verdict)
    | Pause
    | Cancel
    | Report(key: Key, status: ExecutionStatus)
    | SweepStale(keys: set<Key>)

  function Create(f: Frequency, interval: nat, start: CalendarDate, end: Option<CalendarDate>, listens: bool): State {
    State(Template(Active, f, interval, start, end, start, None, listens), map[], [], [])
  }

  /** What the engine answers for this template; functional by SpecIsFunctional. */
  function NextOf(t: Template): Result<CalendarDate, EngineError> {
    if t.interval == 0 then Err(BadInterval)
    else if Walks(t.frequency) then WalkFrom(t, 1)
    else Ok(Add(t.nextRunDate, t.frequency, t.interval))
  }

  function WalkFrom(t: Template, k: nat): Result<CalendarDate, EngineError>
    decreases MAX_ANCHOR_STEPS + 1 - k
  {
    if k > MAX_ANCHOR_STEPS then Err(WalkExceeded)
    else
      var candidate := Grid(t.start, t.frequency, t.interval, k);
      if Before(t.nextRunDate, candidate) then Ok(candidate) else WalkFrom(t, k + 1)
  }

  lemma {:induction false} WalkFromMeetsSpec(t: Template, k: nat)
    requires t.interval > 0 && Walks(t.frequency) && 1 <= k <= MAX_ANCHOR_STEPS + 1
    requires forall j :: 1 <= j < k ==> !Before(t.nextRunDate, Grid(t.start, t.frequency, t.interval, j))
    ensures NextRunDateSpec(t.frequency, t.interval, t.nextRunDate, Some(t.start), WalkFrom(t, k))
    decreases MAX_ANCHOR_STEPS + 1 - k
  {
    if k <= MAX_ANCHOR_STEPS {
      if Before(t.nextRunDate, Grid(t.start, t.frequency, t.interval, k)) {
        assert FirstAfter(t.start, t.frequency, t.interval, t.nextRunDate, k);
      } else {
        WalkFromMeetsSpec(t, k + 1);
      }
    }
  }

  lemma NextOfMeetsSpec(t: Template)
    ensures NextRunDateSpec(t.frequency, t.interval, t.nextRunDate, Some(t.start), NextOf(t))
  {
    if t.interval > 0 && Walks(t.frequency) {
      WalkFromMeetsSpec(t, 1);
    }
  }

  /** A template without an interval is left where it is. */
  function Rescheduled(t: Template): Result<Template, EngineError> {
    if t.interval == 0 then Ok(t)
    else match NextOf(t)
      case Err(e) => Err(e)
      case Ok(next) =>
        if t.end.Some? && Before(t.end.value, next)
        then Ok(t.(status := Completed, lastRunDate := Some(t.nextRunDate)))
        else Ok(t.(nextRunDate := next, lastRunDate := Some(t.nextRunDate)))
  }

  /** The handler's transaction for one trigger key; an engine error rolls everything back. */
  function Handle(s: State, key: Key, verdict: Verdict): State {
    if key in s.executions then s
    else if s.template.status != Active then
      s.(executions := s.executions[key := SkippedInactive], claims := s.claims + [key])
    else
      match Rescheduled(s.template)
      case Err(_) => s
      case Ok(template) =>
        var status := match verdict case Passes => InProgress case NotMet => SkippedByCondition case Throws => Failed;
        State(template, s.executions[key := status], s.claims + [key],
              if verdict.Passes? then s.outbox + [key] else s.outbox)
  }

  function Apply(s: State, step: Step): State {
    match step
    case Fire(verdict) => Handle(s, OnDate(s.template.nextRunDate), verdict)
    case FireOnEvent(id, verdict) =>
      // The dispatcher only hands over templates that name the event.
      if s.template.listens then Handle(s, OnEvent(id), verdict) else s
    case Pause => s.(template := s.template.(status := Paused))
    case Cancel => s.(template := s.template.(status := Cancelled))
    case Report(key, status) =>
      if key in s.executions && s.executions[key].InProgress?
      then s.(executions := s.executions[key := status]) else s
    case SweepStale(keys) =>
      s.(executions := map k | k in s.executions ::
        if k in keys && s.executions[k].InProgress? then Failed else s.executions[k])
  }

  function Run(s: State, steps: seq<Step>): State
    decreases |steps|
  {
    if steps == [] then s else Run(Apply(s, steps[0]), steps[1..])
  }

  // ----- the handler as the source writes it -----

  class RecurringGenerationHandler {
    var template: Template
    var executions: map<Key, ExecutionStatus>
    var claims: seq<Key>
    var outbox: seq<Key>

    ghost function View(): State
      reads this
    {
      State(template, executions, claims, outbox)
    }

    constructor (f: Frequency, interval: nat, start: CalendarDate, end: Option<CalendarDate>, listens: bool)
      ensures View() == Create(f, interval, start, end, listens)
    {
      template := Template(Active, f, interval, start, end, start, None, listens);
      executions, claims, outbox := map[], [], [];
    }

    /** Insert-as-claim on the unique key. */
    method Claim(key: Key) returns (claimed: bool)
      modifies this`executions, this`claims
      ensures claimed <==> key !in old(executions)
      ensures executions == if claimed then old(executions)[key := InProgress] else old(executions)
      ensures claims == if claimed then old(claims) + [key] else old(claims)
    {
      claimed := key !in executions;
      if claimed {
        executions, claims := executions[key := InProgress], claims + [key];
      }
    }

    method SettleIfInProgress(key: Key, status: ExecutionStatus)
      modifies this`executions
      ensures executions == if key in old(executions) && old(executions)[key].InProgress?
                            then old(executions)[key := status] else old(executions)
    {
      if key in executions && executions[key].InProgress? {
        executions := executions[key := status];
      }
    }

    method Reschedule() returns (ok: bool)
      modifies this`template
      ensures ok <==> Rescheduled(old(template)).Ok?
      ensures template == if ok then Rescheduled(old(template)).value else old(template)
    {
      if template.interval == 0 {
        return true;
      }
      var next := NextRunDate(template.frequency, template.interval, template.nextRunDate, Some(template.start));
      NextOfMeetsSpec(template);
      SpecIsFunctional(template.frequency, template.interval, template.nextRunDate, Some(template.start), next, NextOf(template));
      match next {
        case Err(_) => ok := false;
        case Ok(date) =>
          ok := true;
          if template.end.Some? && Before(template.end.value, date) {
            template := template.(status := Completed, lastRunDate := Some(template.nextRunDate));
          } else {
            template := template.(nextRunDate := date, lastRunDate := Some(template.nextRunDate));
          }
      }
    }

    /** One firing; `event` is the source event of an EVENT payload. A failed reschedule aborts the transaction. */
    method HandleFiring(event: Option<nat>, verdict: Verdict)
      modifies this
      ensures View() == Handle(old(View()), if event.Some? then OnEvent(event.value) else OnDate(old(template).nextRunDate), verdict)
    {
      var key := if event.Some? then OnEvent(event.value) else OnDate(template.nextRunDate);
      var savedExecutions, savedClaims, savedOutbox := executions, claims, outbox;
      var claimed := Claim(key);
      if !claimed {
        return;
      }
      if template.status != Active {
        SettleIfInProgress(key, SkippedInactive);
        return;
      }
      match verdict {
        case Passes => outbox := outbox + [key];
        case NotMet => SettleIfInProgress(key, SkippedByCondition);
        case Throws => SettleIfInProgress(key, Failed);
      }
      var ok := Reschedule();
      if !ok {
        executions, claims, outbox := savedExecutions, savedClaims, savedOutbox;
      }
    }
  }

  // ----- invariant -----

  function GridOf(t: Template, k: nat): CalendarDate {
    Grid(t.start, t.frequency, t.interval, k)
  }

  ghost predicate SameSeries(t: Template, u: Template) {
    u.frequency == t.frequency && u.interval == t.interval && u.start == t.start && u.end == t.end && u.listens == t.listens
  }

  /** The claimed run dates are the first dates of the grid, in order. */
  ghost predicate ClaimsAreGridPrefix(s: State) {
    forall i :: 0 <= i < |s.claims| ==> s.claims[i] == OnDate(GridOf(s.template, i))
  }

  /** The next run date is the first unclaimed grid date, or the series has stopped on its last one. */
  ghost predicate PositionOk(t: Template, n: nat) {
    t.nextRunDate == GridOf(t, n) || (n > 0 && t.nextRunDate == GridOf(t, n - 1) && t.status != Active)
  }

  ghost predicate OutboxOk(executions: map<Key, ExecutionStatus>, outbox: seq<Key>) {
    && (forall i, j :: 0 <= i < j < |outbox| ==> outbox[i] != outbox[j])
    && (forall k :: k in outbox ==> k in executions)
  }

  ghost predicate EndOk(t: Template, n: nat) {
    t.end.Some? && !Before(t.end.value, t.start) ==>
      !Before(t.end.value, t.nextRunDate) && forall i :: 0 <= i < n ==> !Before(t.end.value, GridOf(t, i))
  }

  ghost predicate Inv(s: State) {
    && s.template.interval > 0
    && !s.template.listens
    && ClaimsAreGridPrefix(s)
    && (forall k :: k in s.executions <==> k in s.claims)
    && PositionOk(s.template, |s.claims|)
    && OutboxOk(s.executions, s.outbox)
    && EndOk(s.template, |s.claims|)
  }

  lemma NextOfOnGrid(t: Template, k: nat)
    requires t.interval > 0 && t.nextRunDate == GridOf(t, k)
    ensures NextOf(t) == Following(t.start, t.frequency, t.interval, k)
  {
    NextOfMeetsSpec(t);
    EngineFollowsGrid(t.start, t.frequency, t.interval, k);
    SpecIsFunctional(t.frequency, t.interval, t.nextRunDate, Some(t.start), NextOf(t),
                     Following(t.start, t.frequency, t.interval, k));
  }

  /** The next date is unclaimed as long as the series has not stopped. */
  lemma NextDateIsFresh(s: State)
    requires Inv(s)
    ensures OnDate(s.template.nextRunDate) !in s.executions <==> s.template.nextRunDate == GridOf(s.template, |s.claims|)
  {
    var t, n := s.template, |s.claims|;
    if t.nextRunDate == GridOf(t, n) && OnDate(t.nextRunDate) in s.claims {
      var i :| 0 <= i < n && s.claims[i] == OnDate(t.nextRunDate);
      GridIsInjective(t.start, t.frequency, t.interval, i, n);
    }
    if t.nextRunDate != GridOf(t, n) {
      assert s.claims[n - 1] == OnDate(t.nextRunDate);
    }
  }

  lemma FireKeepsOutboxOk(s: State, verdict: Verdict)
    requires OutboxOk(s.executions, s.outbox)
    ensures var u := Apply(s, Fire(verdict)); OutboxOk(u.executions, u.outbox)
  {
    var u := Apply(s, Fire(verdict));
    if u.outbox != s.outbox {
      assert forall i :: 0 <= i < |s.outbox| ==> u.outbox[i] == s.outbox[i] && s.outbox[i] in s.outbox;
    }
  }

  lemma FreshFiringKeepsInv(s: State, verdict: Verdict)
    requires Inv(s) && s.template.nextRunDate == GridOf(s.template, |s.claims|)
    ensures Inv(Apply(s, Fire(verdict)))
  {
    var u := Apply(s, Fire(verdict));
    NextDateIsFresh(s);
    NextOfOnGrid(s.template, |s.claims|);
    FireKeepsOutboxOk(s, verdict);
    if u.claims != s.claims {
      assert forall i :: 0 <= i < |s.claims| ==> u.claims[i] == s.claims[i];
      assert forall k :: k in u.claims <==> k in s.claims || k == OnDate(s.template.nextRunDate);
    }
  }

  lemma FireKeepsInv(s: State, verdict: Verdict)
    requires Inv(s)
    ensures Inv(Apply(s, Fire(verdict)))
  {
    NextDateIsFresh(s);
    if s.template.nextRunDate == GridOf(s.template, |s.claims|) {
      FreshFiringKeepsInv(s, verdict);
    }
  }

  lemma ApplyKeepsInv(s: State, step: Step)
    requires Inv(s)
    ensures Inv(Apply(s, step)) && SameSeries(s.template, Apply(s, step).template)
  {
    if step.Fire? {
      FireKeepsInv(s, step.verdict);
    }
  }

  lemma {:induction false} RunKeepsInv(s: State, steps: seq<Step>)
    requires Inv(s)
    ensures Inv(Run(s, steps)) && SameSeries(s.template, Run(s, steps).template)
    decreases |steps|
  {
    if steps != [] {
      ApplyKeepsInv(s, steps[0]);
      RunKeepsInv(Apply(s, steps[0]), steps[1..]);
    }
  }

  lemma CreateEstablishesInv(f: Frequency, interval: nat, start: CalendarDate, end: Option<CalendarDate>)
    requires interval > 0
    ensures Inv(Create(f, interval, start, end, false))
  {
    GridStartsAtAnchor(start, f, interval);
  }

  // ----- main results -----

  /**
   * However often and in whatever order the template is fired, paused,
   * cancelled, reported on or swept, its run dates are exactly a prefix of the
   * clamped grid: no gap, no drift, no repetition, and at most one event each.
   */
  lemma RunDatesAreGridPrefix(f: Frequency, interval: nat, start: CalendarDate, end: Option<CalendarDate>, steps: seq<Step>)
    requires interval > 0
    ensures var s := Run(Create(f, interval, start, end, false), steps);
            && (forall i :: 0 <= i < |s.claims| ==> s.claims[i] == OnDate(Grid(start, f, interval, i)))
            && (forall k :: k in s.executions <==> k in s.claims)
            && (forall i, j :: 0 <= i < j < |s.outbox| ==> s.outbox[i] != s.outbox[j])
            && (forall k :: k in s.outbox ==> k in s.claims)
  {
    CreateEstablishesInv(f, interval, start, end);
    RunKeepsInv(Create(f, interval, start, end, false), steps);
  }

  /**
   * No run date lies past the end date exactly when the series starts on or
   * before it or has not run at all: the first occurrence is never checked
   * against the end date.
   */
  lemma EndDateIsKeptExactly(f: Frequency, interval: nat, start: CalendarDate, end: CalendarDate, steps: seq<Step>)
    requires interval > 0
    ensures var s := Run(Create(f, interval, start, Some(end), false), steps);
            (forall i :: 0 <= i < |s.claims| ==> s.claims[i].OnDate? && !Before(end, s.claims[i].date))
            <==> (s.claims == [] || !Before(end, start))
  {
    CreateEstablishesInv(f, interval, start, Some(end));
    RunKeepsInv(Create(f, interval, start, Some(end), false), steps);
    GridStartsAtAnchor(start, f, interval);
    var s := Run(Create(f, interval, start, Some(end), false), steps);
    if s.claims != [] {
      assert s.claims[0] == OnDate(start);
    }
  }

  /** A firing of an active template claims the next grid date, unless its anchored walk is used up. */
  lemma ActiveFiringAdvances(s: State, verdict: Verdict)
    requires Inv(s) && s.template.status == Active
    ensures var t, n, u := s.template, |s.claims|, Apply(s, Fire(verdict));
            if Walks(t.frequency) && n >= MAX_ANCHOR_STEPS then u == s
            else
              && u.claims == s.claims + [OnDate(GridOf(t, n))]
              && u.outbox == (if verdict.Passes? then s.outbox + [OnDate(GridOf(t, n))] else s.outbox)
              && (u.template.status == Active <==> t.end.None? || !Before(t.end.value, GridOf(t, n + 1)))
  {
    NextDateIsFresh(s);
    NextOfOnGrid(s.template, |s.claims|);
  }

  function Firings(verdicts: seq<Verdict>): seq<Step> {
    seq(|verdicts|, i requires 0 <= i < |verdicts| => Fire(verdicts[i]))
  }

  /** The k-th occurrence exists: its date is not past the end (the first always exists) and the walk reaches past it. */
  predicate Occurs(t: Template, k: nat) {
    (k == 0 || t.end.None? || !Before(t.end.value, GridOf(t, k))) && (Walks(t.frequency) ==> k < MAX_ANCHOR_STEPS)
  }

  /** Only ever fired: active while the next occurrence is not past the end, completed on the last one otherwise. */
  ghost predicate OnlyFired(s: State) {
    var t, n := s.template, |s.claims|;
    && Inv(s)
    && (if n == 0 || t.end.None? || !Before(t.end.value, GridOf(t, n)) then t.status == Active
        else t.status == Completed && t.nextRunDate == GridOf(t, n - 1))
  }

  lemma FiringTakesOneOccurrence(s: State, verdict: Verdict)
    requires OnlyFired(s)
    ensures var u, n := Apply(s, Fire(verdict)), |s.claims|;
            && OnlyFired(u) && SameSeries(s.template, u.template)
            && |u.claims| == (if Occurs(s.template, n) then n + 1 else n)
  {
    FireKeepsInv(s, verdict);
    NextDateIsFresh(s);
    if s.template.status == Active {
      ActiveFiringAdvances(s, verdict);
      NextOfOnGrid(s.template, |s.claims|);
    } else {
      GridIsMonotone(s.template.start, s.template.frequency, s.template.interval, |s.claims| - 1, |s.claims|);
    }
  }

  /**
   * Fired m times and never paused or cancelled, a series runs exactly its
   * first m occurrences, or all of them when there are fewer.
   */
  lemma {:induction false} FiringIsExact(s: State, verdicts: seq<Verdict>)
    requires OnlyFired(s)
    ensures var n := |Run(s, Firings(verdicts)).claims|;
            && |s.claims| <= n <= |s.claims| + |verdicts|
            && (forall k :: |s.claims| <= k < n ==> Occurs(s.template, k))
            && (n < |s.claims| + |verdicts| ==> !Occurs(s.template, n))
    decreases |verdicts|
  {
    if verdicts != [] {
      var u := Apply(s, Fire(verdicts[0]));
      assert Firings(verdicts)[1..] == Firings(verdicts[1..]);
      FiringTakesOneOccurrence(s, verdicts[0]);
      FiringIsExact(u, verdicts[1..]);
      var n := |Run(s, Firings(verdicts)).claims|;
      forall k | |s.claims| <= k <= n
        ensures Occurs(s.template, k) <==> Occurs(u.template, k)
      {
      }
    }
  }

  /** From creation: m firings give exactly the first m occurrences there are. */
  lemma {:induction false} SeriesFromCreationIsExact(f: Frequency, interval: nat, start: CalendarDate, end: Option<CalendarDate>, verdicts: seq<Verdict>)
    requires interval > 0
    ensures var s := Create(f, interval, start, end, false); var n := |Run(s, Firings(verdicts)).claims|;
            && n <= |verdicts|
            && (forall k :: 0 <= k < n ==> Occurs(s.template, k))
            && (n < |verdicts| ==> !Occurs(s.template, n))
  {
    CreateEstablishesInv(f, interval, start, end);
    FiringIsExact(Create(f, interval, start, end, false), verdicts);
  }

  // ----- one firing, field by field -----

  /**
   * A firing on an active template whose engine answers: the execution is left to
   * the consumer exactly if the condition passed, skipped by its condition if it
   * was not met, and failed if it threw; the event is appended in the first case
   * only. The template notes the date it has run and moves on to the next one,
   * or completes where that lies past the end.
   */
  lemma FiringWrites(s: State, key: Key, verdict: Verdict, next: CalendarDate)
    requires key !in s.executions && s.template.status == Active && s.template.interval > 0
    requires NextRunDateSpec(s.template.frequency, s.template.interval, s.template.nextRunDate, Some(s.template.start), Ok(next))
    ensures var u, t := Handle(s, key, verdict), s.template;
            && u.executions == s.executions[key := match verdict case Passes => InProgress case NotMet => SkippedByCondition case Throws => Failed]
            && u.claims == s.claims + [key]
            && u.outbox == (if verdict == Passes then s.outbox + [key] else s.outbox)
            && u.template == (if t.end.Some? && Before(t.end.value, next)
                              then t.(status := Completed, lastRunDate := Some(t.nextRunDate))
                              else t.(nextRunDate := next, lastRunDate := Some(t.nextRunDate)))
  {
    NextOfMeetsSpec(s.template);
    SpecIsFunctional(s.template.frequency, s.template.interval, s.template.nextRunDate, Some(s.template.start), NextOf(s.template), Ok(next));
  }

  /** Any other firing: a claimed key or an engine error changes nothing, and on a template that is not active the execution is skipped. */
  lemma OtherFiringsWrite(s: State, key: Key, verdict: Verdict)
    ensures key in s.executions ==> Handle(s, key, verdict) == s
    ensures key !in s.executions && s.template.status != Active ==>
              Handle(s, key, verdict) == s.(executions := s.executions[key := SkippedInactive], claims := s.claims + [key])
    ensures key !in s.executions && s.template.status == Active && s.template.interval > 0 && NextOf(s.template).Err? ==>
              Handle(s, key, verdict) == s
    ensures key !in s.executions && s.template.status == Active && s.template.interval == 0 ==>
              Handle(s, key, verdict).template == s.template && Handle(s, key, verdict).claims == s.claims + [key]
  {
  }

  /** Reports and sweeps: they write an execution that is in progress, and no other. */
  lemma ReportWrites(s: State, key: Key, status: ExecutionStatus, keys: set<Key>, k: Key)
    requires k in s.executions
    ensures var u := Apply(s, Report(key, status));
            u == s.(executions := u.executions) && u.executions.Keys == s.executions.Keys &&
            u.executions[k] == if k == key && s.executions[k] == InProgress then status else s.executions[k]
    ensures var u := Apply(s, SweepStale(keys));
            u == s.(executions := u.executions) && u.executions.Keys == s.executions.Keys &&
            u.executions[k] == if k in keys && s.executions[k] == InProgress then Failed else s.executions[k]
    ensures Apply(s, Pause) == s.(template := s.template.(status := Paused))
    ensures Apply(s, Cancel) == s.(template := s.template.(status := Cancelled))
  {
  }

  /** A settled execution never changes again. */
  lemma {:induction false} SettledExecutionsStay(s: State, steps: seq<Step>, key: Key)
    requires key in s.executions && !s.executions[key].InProgress?
    ensures key in Run(s, steps).executions && Run(s, steps).executions[key] == s.executions[key]
    decreases |steps|
  {
    if steps != [] {
      assert key in Apply(s, steps[0]).executions && Apply(s, steps[0]).executions[key] == s.executions[key];
      SettledExecutionsStay(Apply(s, steps[0]), steps[1..], key);
    }
  }
}
