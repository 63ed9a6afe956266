/** The next run date of a series: an anchored walk for months and years, one step for days and weeks. */
module RecurrenceEngine {
  import opened Common
  import opened Calendar

  datatype EngineError = BadInterval | WalkExceeded

  const MAX_ANCHOR_STEPS: nat := 10000

  /** The k-th grid date is the first one after `from`. */
  ghost predicate FirstAfter(anchor: CalendarDate, f: Frequency, interval: nat, from: CalendarDate, k: nat) {
    && Before(from, Grid(anchor, f, interval, k))
    && forall j :: 1 <= j < k ==> !Before(from, Grid(anchor, f, interval, j))
  }

  /** What nextRunDate promises. */
  ghost predicate NextRunDateSpec(f: Frequency, interval: int, from: CalendarDate, anchor: Option<CalendarDate>,
                                  r: Result<CalendarDate, EngineError>)
  {
    if interval <= 0 then r == Err(BadInterval)
    else if anchor.Some? && Walks(f) then
      match r
      case Ok(date) =>
        exists k: nat :: 1 <= k <= MAX_ANCHOR_STEPS && FirstAfter(anchor.value, f, interval, from, k) &&
          date == Grid(anchor.value, f, interval, k)
      case Err(e) =>
        && e == WalkExceeded
        && forall k: nat :: 1 <= k <= MAX_ANCHOR_STEPS ==> !Before(from, Grid(anchor.value, f, interval, k))
    else r == Ok(Add(from, f, interval))
  }

  method NextRunDate(f: Frequency, interval: int, from: CalendarDate, anchor: Option<CalendarDate>)
    returns (r: Result<CalendarDate, EngineError>)
    ensures NextRunDateSpec(f, interval, from, anchor, r)
    ensures r == Err(BadInterval) <==> interval <= 0
    ensures interval > 0 && f == Daily ==> r.Ok? && Ordinal(r.value) == Ordinal(from) + interval
    ensures interval > 0 && f == Weekly ==> r.Ok? && Ordinal(r.value) == Ordinal(from) + 7 * interval
    ensures r.Ok? && f in {Monthly, Yearly} ==>
              var months := if f == Monthly then interval else 12 * interval;
              if anchor.None? then StepsByMonths(from, months, r.value)
              else exists k: nat {:trigger StepsByMonths(anchor.value, k * months, r.value)} :: 1 <= k <= 10000 && StepsByMonths(anchor.value, k * months, r.value)
  {
    if interval > 0 {
      StepMeans(from, f, interval);
    }
    if interval <= 0 {
      return Err(BadInterval);
    }
    if anchor.Some? && Walks(f) {
      for step := 1 to MAX_ANCHOR_STEPS + 1
        invariant forall k: nat :: 1 <= k < step ==> !Before(from, Grid(anchor.value, f, interval, k))
      {
        var candidate := Grid(anchor.value, f, interval, step);
        if Before(from, candidate) {
          assert FirstAfter(anchor.value, f, interval, from, step);
          GridStepsByMonths(anchor.value, f, interval, step);
          return Ok(candidate);
        }
      }
      return Err(WalkExceeded);
    }
    return Ok(Add(from, f, interval));
  }

  /** That many months on, with the day where that month has it and else its last day. */
  predicate StepsByMonths(d: CalendarDate, months: int, r: CalendarDate) {
    12 * r.year + r.month == 12 * d.year + d.month + months && r.day == Min(d.day, DaysIn(r.year, r.month))
  }

  lemma GridStepsByMonths(anchor: CalendarDate, f: Frequency, interval: nat, k: nat)
    requires Walks(f)
    ensures StepsByMonths(anchor, k * (if f == Monthly then interval else 12 * interval), Grid(anchor, f, interval, k))
  {
    GridKeepsAnchorDay(anchor, f, interval, k);
    assert 12 * (k * interval) == k * (12 * interval);
  }

  /** From a date of its own week grid, the answer is the next date of that grid: whole weeks after the anchor. */
  lemma WeeklyAnswerStaysOnGrid(interval: int, from: CalendarDate, anchor: CalendarDate, weeks: int, r: Result<CalendarDate, EngineError>)
    requires interval > 0 && NextRunDateSpec(Weekly, interval, from, Some(anchor), r)
    requires Ordinal(from) == Ordinal(anchor) + 7 * interval * weeks
    ensures r.Ok? && Ordinal(r.value) == Ordinal(anchor) + 7 * interval * (weeks + 1)
  {
    StepMeans(from, Weekly, interval);
    assert 7 * interval * (weeks + 1) == 7 * interval * weeks + 7 * interval;
  }

  /** The promise determines the answer. */
  lemma SpecIsFunctional(f: Frequency, interval: int, from: CalendarDate, anchor: Option<CalendarDate>,
                         r: Result<CalendarDate, EngineError>, q: Result<CalendarDate, EngineError>)
    requires NextRunDateSpec(f, interval, from, anchor, r) && NextRunDateSpec(f, interval, from, anchor, q)
    ensures r == q
  {
  }

  /**
   * With an anchor, for any `from`, the answer is the least grid date strictly
   * after it, among those the walk can reach: every grid date is at or before
   * `from`, or at or after the answer.
   */
  lemma {:induction false} AnswerIsLeastGridDate(f: Frequency, interval: int, from: CalendarDate, anchor: CalendarDate,
                              date: CalendarDate, k: nat)
    requires interval > 0 && Walks(f) && NextRunDateSpec(f, interval, from, Some(anchor), Ok(date))
    requires k >= 1
    ensures Before(from, date)
    ensures !Before(from, Grid(anchor, f, interval, k)) || date == Grid(anchor, f, interval, k) ||
            Before(date, Grid(anchor, f, interval, k))
  {
    var j: nat :| 1 <= j <= MAX_ANCHOR_STEPS && FirstAfter(anchor, f, interval, from, j) &&
                  date == Grid(anchor, f, interval, j);
    if j < k {
      GridIsMonotone(anchor, f, interval, j, k);
    }
  }

  /** Without an anchor the answer is still strictly after `from`. */
  lemma AnswerMovesForward(f: Frequency, interval: int, from: CalendarDate, date: CalendarDate)
    requires NextRunDateSpec(f, interval, from, None, Ok(date))
    ensures interval > 0 && Before(from, date)
  {
    AddMovesForward(from, f, interval);
  }

  /** The walk fails exactly when even its last candidate is not after `from`. */
  lemma {:induction false} WalkFailsExactly(f: Frequency, interval: int, from: CalendarDate, anchor: CalendarDate,
                         r: Result<CalendarDate, EngineError>)
    requires interval > 0 && Walks(f) && NextRunDateSpec(f, interval, from, Some(anchor), r)
    ensures r.Err? <==> !Before(from, Grid(anchor, f, interval, 10000))
  {
    if r.Ok? {
      var j: nat :| 1 <= j <= MAX_ANCHOR_STEPS && FirstAfter(anchor, f, interval, from, j) &&
                    r.value == Grid(anchor, f, interval, j);
      if j < MAX_ANCHOR_STEPS {
        GridIsMonotone(anchor, f, interval, j, MAX_ANCHOR_STEPS);
        BeforeIsTransitive(from, r.value, Grid(anchor, f, interval, MAX_ANCHOR_STEPS));
      }
    }
  }

  lemma BeforeIsTransitive(a: Date, b: Date, c: Date)
    requires Before(a, b) && Before(b, c)
    ensures Before(a, c)
  {
  }

  /** From one date of the series the engine answers the next one, until the walk runs out. */
  function Following(anchor: CalendarDate, f: Frequency, interval: nat, k: nat): Result<CalendarDate, EngineError> {
    if Walks(f) && k >= MAX_ANCHOR_STEPS then Err(WalkExceeded) else Ok(Grid(anchor, f, interval, k + 1))
  }

  lemma EngineFollowsGrid(anchor: CalendarDate, f: Frequency, interval: nat, k: nat)
    requires interval > 0
    ensures NextRunDateSpec(f, interval, Grid(anchor, f, interval, k), Some(anchor), Following(anchor, f, interval, k))
  {
    var from := Grid(anchor, f, interval, k);
    if !Walks(f) {
      DayGridSteps(anchor, f, interval, k);
    } else {
      forall j: nat | 1 <= j <= k
        ensures !Before(from, Grid(anchor, f, interval, j))
      {
        if j < k {
          GridIsMonotone(anchor, f, interval, j, k);
        }
      }
      if k < MAX_ANCHOR_STEPS {
        GridIsMonotone(anchor, f, interval, k, k + 1);
        assert FirstAfter(anchor, f, interval, from, k + 1);
      }
    }
  }
}
