/**
 * A TIME template that also names an event: each event firing that finds it
 * active takes the place of a date. What its run dates then are, and when they
 * still are a prefix of the grid.
 */
module RecurringEvents {
  import opened Common
  import opened Calendar
  import opened RecurrenceEngine
  import opened RecurringSeries

  /** The step is a firing that claims while the template is active. */
  predicate MovesOn(s: State, step: Step) {
    s.template.status.Active? && Apply(s, step).claims != s.claims
  }

  /** How many firings of a run claimed while the template was active. */
  function Moves(s: State, steps: seq<Step>): nat
    decreases |steps|
  {
    if steps == [] then 0 else (if MovesOn(s, steps[0]) then 1 else 0) + Moves(Apply(s, steps[0]), steps[1..])
  }

  ghost predicate Distinct(claims: seq<Key>) {
    forall i, j :: 0 <= i < j < |claims| ==> claims[i] != claims[j]
  }

  /** The i-th of the first `a` claims stands in the place of the i-th grid date; later ones find the series at rest. */
  ghost predicate ClaimsInPlace(t: Template, claims: seq<Key>, a: nat) {
    && a <= |claims|
    && (forall i :: 0 <= i < a ==> claims[i].OnEvent? || claims[i] == OnDate(GridOf(t, i)))
    && (forall i :: a <= i < |claims| ==> claims[i].OnEvent? || claims[i] == OnDate(t.nextRunDate))
  }

  ghost predicate AtRest(t: Template, a: nat) {
    t.nextRunDate == GridOf(t, a) || (a > 0 && t.nextRunDate == GridOf(t, a - 1) && !t.status.Active?)
  }

  ghost predicate InvAt(s: State, a: nat) {
    && s.template.interval > 0
    && ClaimsInPlace(s.template, s.claims, a)
    && Distinct(s.claims)
    && (forall k :: k in s.executions <==> k in s.claims)
    && (s.template.status.Active? ==> a == |s.claims|)
    && AtRest(s.template, a)
    && (forall k :: k in s.outbox ==> k in s.claims[..a])
    && OutboxOk(s.executions, s.outbox)
  }

  lemma DistinctExtends(claims: seq<Key>, key: Key)
    requires Distinct(claims) && key !in claims
    ensures Distinct(claims + [key])
  {
  }

  lemma RestingClaimKeepsInv(s: State, key: Key, verdict: Verdict, a: nat)
    requires InvAt(s, a) && !s.template.status.Active? && key !in s.executions
    requires key.OnEvent? || key == OnDate(s.template.nextRunDate)
    ensures InvAt(Handle(s, key, verdict), a)
  {
    DistinctExtends(s.claims, key);
    assert (s.claims + [key])[..a] == s.claims[..a];
  }

  lemma ActiveClaimKeepsInv(s: State, key: Key, verdict: Verdict, a: nat)
    requires InvAt(s, a) && s.template.status.Active? && key !in s.executions
    requires key.OnEvent? || key == OnDate(s.template.nextRunDate)
    ensures var u := Handle(s, key, verdict);
            InvAt(u, if u.claims != s.claims then a + 1 else a)
  {
    var u := Handle(s, key, verdict);
    NextOfOnGrid(s.template, a);
    DistinctExtends(s.claims, key);
    if u.claims != s.claims {
      assert u.claims == s.claims + [key] && u.claims[..a + 1] == u.claims && s.claims[..a] == s.claims;
      assert forall i :: 0 <= i < |s.outbox| ==> u.outbox[i] == s.outbox[i] && s.outbox[i] in s.outbox;
    }
  }

  lemma HandleKeepsInv(s: State, key: Key, verdict: Verdict, a: nat)
    requires InvAt(s, a)
    requires key.OnEvent? || key == OnDate(s.template.nextRunDate)
    ensures var u := Handle(s, key, verdict);
            InvAt(u, if s.template.status.Active? && u.claims != s.claims then a + 1 else a)
    ensures SameSeries(s.template, Handle(s, key, verdict).template)
  {
    if key !in s.executions {
      if s.template.status.Active? {
        ActiveClaimKeepsInv(s, key, verdict, a);
      } else {
        RestingClaimKeepsInv(s, key, verdict, a);
      }
    }
  }

  lemma StepKeepsInv(s: State, step: Step, a: nat)
    requires InvAt(s, a)
    ensures InvAt(Apply(s, step), if MovesOn(s, step) then a + 1 else a)
    ensures SameSeries(s.template, Apply(s, step).template)
  {
    match step
    case Fire(verdict) => HandleKeepsInv(s, OnDate(s.template.nextRunDate), verdict, a);
    case FireOnEvent(id, verdict) => if s.template.listens { HandleKeepsInv(s, OnEvent(id), verdict, a); }
    case _ =>
  }

  lemma {:induction false} RunKeepsInv(s: State, steps: seq<Step>, a: nat)
    requires InvAt(s, a)
    ensures InvAt(Run(s, steps), a + Moves(s, steps)) && SameSeries(s.template, Run(s, steps).template)
    decreases |steps|
  {
    if steps != [] {
      StepKeepsInv(s, steps[0], a);
      RunKeepsInv(Apply(s, steps[0]), steps[1..], if MovesOn(s, steps[0]) then a + 1 else a);
    }
  }

  // ----- the dates that run -----

  /** The k-th grid date has an execution of its own. */
  predicate Runs(s: State, k: nat) {
    OnDate(GridOf(s.template, k)) in s.claims
  }

  lemma PlaceOfDate(s: State, a: nat, j: nat)
    requires InvAt(s, a) && j < |s.claims| && s.claims[j].OnDate?
    ensures exists k: nat {:trigger GridOf(s.template, k)} :: k <= a && s.claims[j].date == GridOf(s.template, k) &&
              (j < a ==> k == j) && (j >= a ==> k >= a - 1)
  {
    if j < a {
      assert s.claims[j].date == GridOf(s.template, j);
    } else if s.template.nextRunDate == GridOf(s.template, a) {
      assert s.claims[j].date == GridOf(s.template, a);
    } else {
      assert s.claims[j].date == GridOf(s.template, a - 1);
    }
  }

  lemma DatesIncrease(s: State, a: nat, i: nat, j: nat)
    requires InvAt(s, a) && i < j < |s.claims| && s.claims[i].OnDate? && s.claims[j].OnDate?
    ensures Before(s.claims[i].date, s.claims[j].date)
  {
    var t := s.template;
    PlaceOfDate(s, a, i);
    PlaceOfDate(s, a, j);
    var k: nat :| k <= a && s.claims[i].date == GridOf(t, k) && (i < a ==> k == i) && (i >= a ==> k >= a - 1);
    var m: nat :| m <= a && s.claims[j].date == GridOf(t, m) && (j < a ==> m == j) && (j >= a ==> m >= a - 1);
    assert i < a && k == i;
    assert s.claims[i] != s.claims[j];
    if k < m {
      GridIsMonotone(t.start, t.frequency, t.interval, k, m);
    }
  }

  /** Among the first a dates only those whose place an event took can be missing; of these only the last, once the series rests on it, can still be claimed. */
  lemma RunsExactly(s: State, a: nat, k: nat)
    requires InvAt(s, a) && k < a
    ensures Runs(s, k) <==> s.claims[k].OnDate? || OnDate(GridOf(s.template, k)) in s.claims[a..]
    ensures OnDate(GridOf(s.template, k)) in s.claims[a..] ==> k == a - 1 && !s.template.status.Active? && s.claims[k].OnEvent?
  {
    var t, key := s.template, OnDate(GridOf(s.template, k));
    if Runs(s, k) {
      var j :| 0 <= j < |s.claims| && s.claims[j] == key;
      if j < a && j != k {
        GridIsInjective(t.start, t.frequency, t.interval, j, k);
      }
      if j >= a {
        assert s.claims[a..][j - a] == key;
      }
    }
    if key in s.claims[a..] {
      var j :| 0 <= j < |s.claims[a..]| && s.claims[a..][j] == key;
      assert s.claims[a + j] == key && t.nextRunDate == GridOf(t, k);
      if t.nextRunDate == GridOf(t, a) {
        GridIsInjective(t.start, t.frequency, t.interval, k, a);
      } else {
        GridIsInjective(t.start, t.frequency, t.interval, k, a - 1);
      }
      assert s.claims[k] != s.claims[a + j];
    }
  }

  /** Whatever runs is one of the first a dates or the one after them. */
  lemma NothingRunsBeyond(s: State, a: nat, k: nat)
    requires InvAt(s, a) && Runs(s, k)
    ensures k <= a
  {
    var t := s.template;
    var j :| 0 <= j < |s.claims| && s.claims[j] == OnDate(GridOf(t, k));
    PlaceOfDate(s, a, j);
    var m: nat :| m <= a && s.claims[j].date == GridOf(t, m) && (j < a ==> m == j) && (j >= a ==> m >= a - 1);
    GridIsInjective(t.start, t.frequency, t.interval, k, m);
  }

  /** The run dates are a prefix of the grid. */
  ghost predicate PrefixLaw(s: State) {
    forall j: nat, k: nat :: j < k && Runs(s, k) ==> Runs(s, j)
  }

  /** No date later than the one whose place an event firing took has run after it. */
  ghost predicate EventsComeLast(s: State, a: nat)
    requires a <= |s.claims|
  {
    forall i, j :: 0 <= i < a && i < j < |s.claims| && s.claims[i].OnEvent? && s.claims[j].OnDate? ==>
      s.claims[j].date == GridOf(s.template, i)
  }

  lemma EventBeforeDateBreaksPrefix(s: State, a: nat, i: nat, j: nat)
    requires InvAt(s, a) && i < a && i < j < |s.claims| && s.claims[i].OnEvent? && s.claims[j].OnDate?
    requires s.claims[j].date != GridOf(s.template, i)
    ensures !PrefixLaw(s)
  {
    var t := s.template;
    PlaceOfDate(s, a, j);
    var m: nat :| m <= a && s.claims[j].date == GridOf(t, m) && (j < a ==> m == j) && (j >= a ==> m >= a - 1);
    assert Runs(s, m);
    RunsExactly(s, a, i);
    assert forall q :: 0 <= q < |s.claims[a..]| ==> s.claims[a..][q] == s.claims[a + q];
    assert i < m && !Runs(s, i);
  }

  lemma LastEventsKeepPrefix(s: State, a: nat, j: nat, k: nat)
    requires InvAt(s, a) && EventsComeLast(s, a) && j < k && Runs(s, k)
    ensures Runs(s, j)
  {
    var t := s.template;
    NothingRunsBeyond(s, a, k);
    RunsExactly(s, a, j);
    var q :| 0 <= q < |s.claims| && s.claims[q] == OnDate(GridOf(t, k));
    PlaceOfDate(s, a, q);
    var m: nat :| m <= a && s.claims[q].date == GridOf(t, m) && (q < a ==> m == q) && (q >= a ==> m >= a - 1);
    GridIsInjective(t.start, t.frequency, t.interval, k, m);
    if s.claims[j].OnEvent? {
      assert j < q && s.claims[q].date == GridOf(t, j);
      GridIsInjective(t.start, t.frequency, t.interval, j, k);
    }
  }

  // ----- main results -----

  /**
   * Listening or not, and with or without an end date: the run dates are a
   * strictly increasing part of the grid. With a claims made while active, the
   * k-th date (k < a) is missing exactly if an event firing took its place, save
   * that a series at rest on its last date may still claim it, to skip it. Each
   * date has at most one event, and a date whose place was taken has none.
   */
  lemma RunDatesOfListener(f: Frequency, interval: nat, start: CalendarDate, end: Option<CalendarDate>, listens: bool, steps: seq<Step>)
    requires interval > 0
    ensures var s, a := Run(Create(f, interval, start, end, listens), steps), Moves(Create(f, interval, start, end, listens), steps);
            && a <= |s.claims|
            && (forall i, j :: 0 <= i < j < |s.claims| && s.claims[i].OnDate? && s.claims[j].OnDate? ==>
                  Before(s.claims[i].date, s.claims[j].date))
            && (forall k: nat :: k < a ==>
                  (Runs(s, k) <==> s.claims[k].OnDate? || OnDate(GridOf(s.template, k)) in s.claims[a..]) &&
                  (OnDate(GridOf(s.template, k)) in s.claims[a..] ==> k == a - 1 && !s.template.status.Active? && s.claims[k].OnEvent?))
            && (forall k: nat :: Runs(s, k) ==> k <= a)
            && (forall i, j :: 0 <= i < j < |s.outbox| ==> s.outbox[i] != s.outbox[j])
            && (forall k :: k in s.outbox ==> k in s.claims[..a])
  {
    var s0 := Create(f, interval, start, end, listens);
    var s, a := Run(s0, steps), Moves(s0, steps);
    GridStartsAtAnchor(start, f, interval);
    RunKeepsInv(s0, steps, 0);
    forall i, j | 0 <= i < j < |s.claims| && s.claims[i].OnDate? && s.claims[j].OnDate?
      ensures Before(s.claims[i].date, s.claims[j].date)
    {
      DatesIncrease(s, a, i, j);
    }
    forall k: nat | k < a
      ensures Runs(s, k) <==> s.claims[k].OnDate? || OnDate(GridOf(s.template, k)) in s.claims[a..]
      ensures OnDate(GridOf(s.template, k)) in s.claims[a..] ==> k == a - 1 && !s.template.status.Active? && s.claims[k].OnEvent?
    {
      RunsExactly(s, a, k);
    }
    forall k: nat | Runs(s, k)
      ensures k <= a
    {
      NothingRunsBeyond(s, a, k);
    }
  }

  /**
   * The run dates of a template are a prefix of the grid if and only if no event
   * firing took the place of a date before a later date ran.
   */
  lemma PrefixLawExactly(f: Frequency, interval: nat, start: CalendarDate, end: Option<CalendarDate>, listens: bool, steps: seq<Step>)
    requires interval > 0
    ensures var s, a := Run(Create(f, interval, start, end, listens), steps), Moves(Create(f, interval, start, end, listens), steps);
            a <= |s.claims| && (PrefixLaw(s) <==> EventsComeLast(s, a))
  {
    var s0 := Create(f, interval, start, end, listens);
    var s, a := Run(s0, steps), Moves(s0, steps);
    GridStartsAtAnchor(start, f, interval);
    RunKeepsInv(s0, steps, 0);
    if EventsComeLast(s, a) {
      forall j: nat, k: nat | j < k && Runs(s, k)
        ensures Runs(s, j)
      {
        LastEventsKeepPrefix(s, a, j, k);
      }
    } else {
      var i, j :| 0 <= i < a && i < j < |s.claims| && s.claims[i].OnEvent? && s.claims[j].OnDate? &&
                  s.claims[j].date != GridOf(s.template, i);
      EventBeforeDateBreaksPrefix(s, a, i, j);
    }
  }

  /**
   * An event that fires first takes the place of the start date, which then never
   * has an event of its own: the next firing runs the second date, or, if that is
   * past the end and the event has completed the series, skips the start date.
   */
  lemma EventFiringSkipsADate(f: Frequency, interval: nat, start: CalendarDate, end: Option<CalendarDate>, id: nat)
    requires interval > 0
    ensures var s := Run(Create(f, interval, start, end, true), [FireOnEvent(id, Passes), Fire(Passes)]);
            var second := Grid(start, f, interval, 1);
            if end.Some? && Before(end.value, second)
            then s.template.status == Completed && s.claims == [OnEvent(id), OnDate(start)] &&
                 OnDate(start) in s.executions && s.executions[OnDate(start)] == SkippedInactive && s.outbox == [OnEvent(id)]
            else s.claims == [OnEvent(id), OnDate(second)] && OnDate(start) !in s.executions &&
                 s.outbox == [OnEvent(id), OnDate(second)]
  {
    var s0 := Create(f, interval, start, end, true);
    var s1 := Apply(s0, FireOnEvent(id, Passes));
    var steps := [FireOnEvent(id, Passes), Fire(Passes)];
    GridStartsAtAnchor(start, f, interval);
    NextOfOnGrid(s0.template, 0);
    assert steps[1..] == [Fire(Passes)] && steps[1..][1..] == [];
    assert Run(s0, steps) == Run(s1, [Fire(Passes)]) == Run(Apply(s1, Fire(Passes)), []);
    if !(end.Some? && Before(end.value, Grid(start, f, interval, 1))) {
      NextOfOnGrid(s1.template, 1);
      GridIsMonotone(start, f, interval, 0, 1);
    }
  }
}
