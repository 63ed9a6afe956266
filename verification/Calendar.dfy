/**
 * Timezone-less Gregorian calendar dates, and date arithmetic as the recurrence
 * engine uses it: day and week steps move along the calendar, month and year
 * steps clamp the day to the last day of the target month.
 */
module Calendar {
  import opened Common

  datatype Date = Date(year: int, month: int, day: int)

  predicate Leap(y: int) {
    y % 4 == 0 && (y % 100 != 0 || y % 400 == 0)
  }

  function DaysIn(y: int, m: int): (n: int)
    ensures 28 <= n <= 31
  {
    if m == 2 then (if Leap(y) then 29 else 28)
    else if m == 4 || m == 6 || m == 9 || m == 11 then 30
    else 31
  }

  predicate Valid(d: Date) {
    1 <= d.month <= 12 && 1 <= d.day <= DaysIn(d.year, d.month)
  }

  type CalendarDate = d: Date | Valid(d) witness Date(1970, 1, 1)

  predicate Before(a: Date, b: Date) {
    || a.year < b.year
    || (a.year == b.year && a.month < b.month)
    || (a.year == b.year && a.month == b.month && a.day < b.day)
  }

  // ----- days -----

  function NextDay(d: CalendarDate): CalendarDate {
    if d.day < DaysIn(d.year, d.month) then d.(day := d.day + 1)
    else if d.month < 12 then Date(d.year, d.month + 1, 1)
    else Date(d.year + 1, 1, 1)
  }

  function AddDays(d: CalendarDate, n: nat): CalendarDate {
    if n == 0 then d else NextDay(AddDays(d, n - 1))
  }

  /** Days of the year before a month starts. */
  function DaysBeforeMonth(y: int, m: int): int
    requires 1 <= m <= 12
    decreases m
  {
    if m == 1 then 0 else DaysBeforeMonth(y, m - 1) + DaysIn(y, m - 1)
  }

  /** The day count of the proleptic Gregorian calendar; 0001-01-01 is day 1. */
  function Ordinal(d: CalendarDate): int {
    var y := d.year - 1;
    365 * y + y / 4 - y / 100 + y / 400 + DaysBeforeMonth(d.year, d.month) + d.day
  }

  lemma YearLength(y: int)
    ensures DaysBeforeMonth(y, 12) + DaysIn(y, 12) == if Leap(y) then 366 else 365
  {
    assert DaysBeforeMonth(y, 3) == DaysBeforeMonth(y, 1) + 31 + DaysIn(y, 2);
    assert DaysBeforeMonth(y, 6) == DaysBeforeMonth(y, 3) + 92;
    assert DaysBeforeMonth(y, 9) == DaysBeforeMonth(y, 6) + 92;
    assert DaysBeforeMonth(y, 12) == DaysBeforeMonth(y, 9) + 91;
  }

  /** A quotient grows by one exactly on the multiples. */
  lemma QuotientStep(y: int, c: int)
    requires c > 1
    ensures y / c == (y - 1) / c + (if y % c == 0 then 1 else 0)
  {
    var q, r := (y - 1) / c, (y - 1) % c;
    assert y - 1 == q * c + r;
    if r == c - 1 {
      assert y == (q + 1) * c;
    } else {
      assert y == q * c + (r + 1);
    }
    QuotientIsUnique(y, c, if r == c - 1 then q + 1 else q, if r == c - 1 then 0 else r + 1);
  }

  lemma MultipleIsFar(d: int, c: int)
    requires c > 1
    ensures d >= 1 ==> d * c >= c
    ensures d <= -1 ==> d * c <= -c
  {
  }

  lemma QuotientIsUnique(y: int, c: int, q: int, r: int)
    requires c > 1 && y == q * c + r && 0 <= r < c
    ensures y / c == q && y % c == r
  {
    var d := y / c - q;
    assert d * c == r - y % c;
    MultipleIsFar(d, c);
  }

  lemma MultiplesNest(y: int)
    ensures y % 400 == 0 ==> y % 100 == 0
    ensures y % 100 == 0 ==> y % 4 == 0
  {
    if y % 400 == 0 {
      QuotientIsUnique(y, 100, 4 * (y / 400), 0);
    }
    if y % 100 == 0 {
      QuotientIsUnique(y, 4, 25 * (y / 100), 0);
    }
  }

  lemma LeapDays(y: int)
    ensures y / 4 - y / 100 + y / 400 ==
            (y - 1) / 4 - (y - 1) / 100 + (y - 1) / 400 + (if Leap(y) then 1 else 0)
  {
    QuotientStep(y, 4);
    QuotientStep(y, 100);
    QuotientStep(y, 400);
    MultiplesNest(y);
  }

  lemma NewYearCountsOne(y: int)
    ensures Ordinal(Date(y + 1, 1, 1)) == Ordinal(Date(y, 12, 31)) + 1
  {
    YearLength(y);
    LeapDays(y);
  }

  lemma NextDayCountsOne(d: CalendarDate)
    ensures Ordinal(NextDay(d)) == Ordinal(d) + 1
  {
    if d.day == DaysIn(d.year, d.month) && d.month == 12 {
      NewYearCountsOne(d.year);
    }
  }

  /** Adding n days moves the day count by exactly n. */
  lemma {:induction false} AddDaysCountsExactly(d: CalendarDate, n: nat)
    ensures Ordinal(AddDays(d, n)) == Ordinal(d) + n
  {
    if n > 0 {
      AddDaysCountsExactly(d, n - 1);
      NextDayCountsOne(AddDays(d, n - 1));
    }
  }

  lemma {:induction false} AddDaysComposes(d: CalendarDate, m: nat, n: nat)
    ensures AddDays(AddDays(d, m), n) == AddDays(d, m + n)
  {
    if n > 0 {
      AddDaysComposes(d, m, n - 1);
    }
  }

  lemma {:induction false} AddDaysMovesForward(d: CalendarDate, n: nat)
    requires n > 0
    ensures Before(d, AddDays(d, n))
  {
    if n > 1 {
      AddDaysMovesForward(d, n - 1);
    }
  }

  // ----- months -----

  function MonthIndex(d: Date): int {
    12 * d.year + d.month - 1
  }

  function AddMonths(d: CalendarDate, n: int): CalendarDate {
    var t := MonthIndex(d) + n;
    var y, m := t / 12, t % 12 + 1;
    Date(y, m, Min(d.day, DaysIn(y, m)))
  }

  /** The target month is exactly n months on, and the day is the anchor day clamped to it. */
  lemma AddMonthsMeaning(d: CalendarDate, n: int)
    ensures var r := AddMonths(d, n);
            MonthIndex(r) == MonthIndex(d) + n && r.day == Min(d.day, DaysIn(r.year, r.month))
  {
  }

  /**
   * SKIP=BACKWARD of section 4.1 of RFC 7529: the anchor day where the target
   * month has it, and otherwise the day whose next day begins the month after.
   */
  lemma ClampSkipsBackward(d: CalendarDate, n: int)
    ensures var r := AddMonths(d, n);
            if d.day <= DaysIn(r.year, r.month) then r.day == d.day
            else NextDay(r).day == 1 && MonthIndex(NextDay(r)) == MonthIndex(d) + n + 1
  {
    AddMonthsMeaning(d, n);
  }

  lemma EarlierMonthIsBefore(a: CalendarDate, b: CalendarDate)
    requires MonthIndex(a) < MonthIndex(b)
    ensures Before(a, b)
  {
  }

  // ----- recurrence grid -----

  datatype Frequency = Daily | Weekly | Monthly | Yearly

  /** `dayjs(d).add(n, unit)` for the unit of the frequency. */
  function Add(d: CalendarDate, f: Frequency, n: nat): CalendarDate {
    match f
    case Daily => AddDays(d, n)
    case Weekly => AddDays(d, 7 * n)
    case Monthly => AddMonths(d, n)
    case Yearly => AddMonths(d, 12 * n)
  }

  /** The k-th date of a series: k * interval units after the anchor, always from the anchor. */
  function Grid(anchor: CalendarDate, f: Frequency, interval: nat, k: nat): CalendarDate {
    Add(anchor, f, k * interval)
  }

  lemma GridStartsAtAnchor(anchor: CalendarDate, f: Frequency, interval: nat)
    ensures Grid(anchor, f, interval, 0) == anchor
  {
  }

  lemma AddMovesForward(d: CalendarDate, f: Frequency, n: nat)
    requires n > 0
    ensures Before(d, Add(d, f, n))
  {
    match f
    case Daily => AddDaysMovesForward(d, n);
    case Weekly => AddDaysMovesForward(d, 7 * n);
    case Monthly =>
      AddMonthsMeaning(d, n);
      EarlierMonthIsBefore(d, AddMonths(d, n));
    case Yearly =>
      AddMonthsMeaning(d, 12 * n);
      EarlierMonthIsBefore(d, AddMonths(d, 12 * n));
  }

  lemma AddIsMonotone(d: CalendarDate, f: Frequency, m: nat, n: nat)
    requires m < n
    ensures Before(Add(d, f, m), Add(d, f, n))
  {
    match f
    case Daily =>
      AddDaysComposes(d, m, n - m);
      AddDaysMovesForward(AddDays(d, m), n - m);
    case Weekly =>
      AddDaysComposes(d, 7 * m, 7 * (n - m));
      AddDaysMovesForward(AddDays(d, 7 * m), 7 * (n - m));
    case Monthly =>
      AddMonthsMeaning(d, m);
      AddMonthsMeaning(d, n);
      EarlierMonthIsBefore(AddMonths(d, m), AddMonths(d, n));
    case Yearly =>
      AddMonthsMeaning(d, 12 * m);
      AddMonthsMeaning(d, 12 * n);
      EarlierMonthIsBefore(AddMonths(d, 12 * m), AddMonths(d, 12 * n));
  }

  /** Clamped steps are strictly monotone in the step number: no date repeats or goes back. */
  lemma GridIsMonotone(anchor: CalendarDate, f: Frequency, interval: nat, j: nat, k: nat)
    requires interval > 0 && j < k
    ensures Before(Grid(anchor, f, interval, j), Grid(anchor, f, interval, k))
  {
    assert j * interval < k * interval by {
      assert (k - j) * interval > 0;
    }
    AddIsMonotone(anchor, f, j * interval, k * interval);
  }

  lemma GridIsInjective(anchor: CalendarDate, f: Frequency, interval: nat, j: nat, k: nat)
    requires interval > 0 && Grid(anchor, f, interval, j) == Grid(anchor, f, interval, k)
    ensures j == k
  {
    if j < k {
      GridIsMonotone(anchor, f, interval, j, k);
    } else if k < j {
      GridIsMonotone(anchor, f, interval, k, j);
    }
  }

  predicate Walks(f: Frequency) {
    f.Monthly? || f.Yearly?
  }

  /** Day and week series need no anchor: stepping from a grid date lands on the next one. */
  lemma DayGridSteps(anchor: CalendarDate, f: Frequency, interval: nat, k: nat)
    requires !Walks(f)
    ensures Add(Grid(anchor, f, interval, k), f, interval) == Grid(anchor, f, interval, k + 1)
  {
    assert (k + 1) * interval == k * interval + interval;
    if f.Daily? {
      AddDaysComposes(anchor, k * interval, interval);
    } else {
      AddDaysComposes(anchor, 7 * (k * interval), 7 * interval);
    }
  }

  /** A monthly or yearly grid date keeps the anchor's day wherever the month allows it. */
  lemma GridKeepsAnchorDay(anchor: CalendarDate, f: Frequency, interval: nat, k: nat)
    requires Walks(f)
    ensures var g := Grid(anchor, f, interval, k); var months := if f.Monthly? then 1 else 12;
            && MonthIndex(g) == MonthIndex(anchor) + months * (k * interval)
            && g.day == Min(anchor.day, DaysIn(g.year, g.month))
  {
    if f.Monthly? {
      AddMonthsMeaning(anchor, k * interval);
    } else {
      AddMonthsMeaning(anchor, 12 * (k * interval));
    }
  }

  /**
   * Why months and years walk from the anchor: a plain step from one grid date
   * lands on the next if and only if the month it leaves had the anchor day, or is
   * at least as long as the month it enters.
   */
  lemma StepWithoutAnchorExactly(anchor: CalendarDate, f: Frequency, interval: nat, k: nat)
    requires Walks(f)
    ensures var g, h := Grid(anchor, f, interval, k), Grid(anchor, f, interval, k + 1);
            Add(g, f, interval) == h <==>
            anchor.day <= DaysIn(g.year, g.month) || DaysIn(h.year, h.month) <= DaysIn(g.year, g.month)
  {
    var g, h, months := Grid(anchor, f, interval, k), Grid(anchor, f, interval, k + 1), if f.Monthly? then interval else 12 * interval;
    GridKeepsAnchorDay(anchor, f, interval, k);
    GridKeepsAnchorDay(anchor, f, interval, k + 1);
    AddMonthsMeaning(g, months);
    assert (k + 1) * interval == k * interval + interval;
    SameMonth(Add(g, f, interval), h);
  }

  lemma SameMonth(a: CalendarDate, b: CalendarDate)
    requires MonthIndex(a) == MonthIndex(b)
    ensures a.year == b.year && a.month == b.month
  {
  }
  // ----- what the steps are, in days -----

  /** Thirty days hath September. */
  lemma MonthLengths(y: int)
    ensures DaysIn(y, 4) == DaysIn(y, 6) == DaysIn(y, 9) == DaysIn(y, 11) == 30
    ensures DaysIn(y, 1) == DaysIn(y, 3) == DaysIn(y, 5) == DaysIn(y, 7) == DaysIn(y, 8) == DaysIn(y, 10) == DaysIn(y, 12) == 31
  {
  }

  /** A year is leap if and only if 400 divides it, or 4 does and 100 does not. */
  lemma FebruaryLength(y: int)
    ensures DaysIn(y, 2) == if y % 400 == 0 then 29 else if y % 100 == 0 then 28 else if y % 4 == 0 then 29 else 28
  {
    MultiplesNest(y);
  }

  /** The closed form of the day count, with years that begin in March: no month length enters it. */
  lemma OrdinalInClosedForm(d: CalendarDate)
    ensures var y := if d.month <= 2 then d.year - 1 else d.year; var m := (d.month + 9) % 12;
            Ordinal(d) == 365 * y + y / 4 - y / 100 + y / 400 + (153 * m + 2) / 5 + d.day - 306
  {
    DaysBeforeInClosedForm(d.year, d.month);
    if d.month > 2 {
      LeapDays(d.year);
    }
  }

  lemma DaysBeforeInClosedForm(y: int, m: int)
    requires 1 <= m <= 12
    ensures DaysBeforeMonth(y, m) == if m <= 2 then 31 * (m - 1) else (153 * ((m + 9) % 12) + 2) / 5 + 59 + if Leap(y) then 1 else 0
  {
    assert DaysBeforeMonth(y, 3) == 59 + if Leap(y) then 1 else 0;
    assert DaysBeforeMonth(y, 6) == DaysBeforeMonth(y, 3) + 92;
    assert DaysBeforeMonth(y, 9) == DaysBeforeMonth(y, 6) + 92;
    assert DaysBeforeMonth(y, 12) == DaysBeforeMonth(y, 9) + 91;
  }

  /** A daily grid counts days and a weekly one sevens of them, from the anchor. */
  lemma DayGridCounts(anchor: CalendarDate, interval: nat, k: nat)
    ensures Ordinal(Grid(anchor, Daily, interval, k)) == Ordinal(anchor) + interval * k
    ensures Ordinal(Grid(anchor, Weekly, interval, k)) == Ordinal(anchor) + 7 * (interval * k)
  {
    AddDaysCountsExactly(anchor, k * interval);
    AddDaysCountsExactly(anchor, 7 * (k * interval));
  }

  /** One step of n units: n days, 7n days, n months, or 12n months. */
  lemma StepMeans(d: CalendarDate, f: Frequency, n: nat)
    ensures var r := Add(d, f, n);
            match f
            case Daily => Ordinal(r) == Ordinal(d) + n
            case Weekly => Ordinal(r) == Ordinal(d) + 7 * n
            case Monthly => 12 * r.year + r.month == 12 * d.year + d.month + n && r.day == Min(d.day, DaysIn(r.year, r.month))
            case Yearly => r.year == d.year + n && r.month == d.month && r.day == Min(d.day, DaysIn(r.year, r.month))
  {
    match f
    case Daily => AddDaysCountsExactly(d, n);
    case Weekly => AddDaysCountsExactly(d, 7 * n);
    case Monthly =>
      AddMonthsMeaning(d, n);
    case Yearly =>
      AddMonthsMeaning(d, 12 * n);
  }

  /** The order of dates is the order of their day counts, so distinct dates have distinct counts. */
  lemma BeforeCountsLess(a: CalendarDate, b: CalendarDate)
    ensures Before(a, b) <==> Ordinal(a) < Ordinal(b)
  {
    if Before(a, b) {
      EarlierCountsLess(a, b);
    } else if Before(b, a) {
      EarlierCountsLess(b, a);
    }
  }

  lemma EarlierCountsLess(a: CalendarDate, b: CalendarDate)
    requires Before(a, b)
    ensures Ordinal(a) < Ordinal(b)
  {
    if MonthIndex(a) < MonthIndex(b) {
      MonthStartsLater(a, MonthIndex(b) - MonthIndex(a));
      DayOfMonth(b);
    }
  }

  function MonthStart(index: int): CalendarDate {
    Date(index / 12, index % 12 + 1, 1)
  }

  /** A date lies its day less one after the start of its month. */
  lemma DayOfMonth(d: CalendarDate)
    ensures MonthStart(MonthIndex(d)) == Date(d.year, d.month, 1)
    ensures Ordinal(d) == Ordinal(MonthStart(MonthIndex(d))) + d.day - 1
  {
    var index := MonthIndex(d);
    assert index / 12 == d.year && index % 12 == d.month - 1;
  }

  lemma NextIndex(index: int)
    ensures if index % 12 == 11 then (index + 1) / 12 == index / 12 + 1 && (index + 1) % 12 == 0
            else (index + 1) / 12 == index / 12 && (index + 1) % 12 == index % 12 + 1
  {
  }

  lemma NextMonthStarts(index: int)
    ensures Ordinal(MonthStart(index + 1)) == Ordinal(MonthStart(index)) + DaysIn(index / 12, index % 12 + 1)
  {
    var y, m := index / 12, index % 12 + 1;
    NextIndex(index);
    MonthLengthIsTheGap(y, m);
  }

  lemma MonthLengthIsTheGap(y: int, m: int)
    requires 1 <= m <= 12
    ensures Ordinal(if m == 12 then Date(y + 1, 1, 1) else Date(y, m + 1, 1)) == Ordinal(Date(y, m, 1)) + DaysIn(y, m)
  {
    if m == 12 {
      NewYearCountsOne(y);
    }
  }

  /** Everything in a month is before everything in a later one. */
  lemma {:induction false} MonthStartsLater(a: CalendarDate, n: nat)
    requires n > 0
    ensures Ordinal(a) < Ordinal(MonthStart(MonthIndex(a) + n))
    decreases n
  {
    NextMonthStarts(MonthIndex(a) + n - 1);
    if n > 1 {
      MonthStartsLater(a, n - 1);
    } else {
      DayOfMonth(a);
    }
  }
}
