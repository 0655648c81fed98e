/**
  Preventive-maintenance dates: the forecast (internal/store/forecast.go) and
  the advance that really runs when a job is completed
  (internal/store/gaps_cmms.go). Times are nanoseconds in UTC.
 */
module PMDates {
  import opened Wrappers

  const DAY: int := 24 * 3600 * 1_000_000_000
  const MAX_OCCURRENCES: nat := 400
  const DEFAULT_INTERVAL_DAYS := 30

  function Max(a: int, b: int): int { if a < b then b else a }

  // ---------------------------------------------------------------------------
  // The calendar of a fixed-date schedule
  // ---------------------------------------------------------------------------

  /** The date `k` intervals after `base`. */
  function Tick(base: int, interval: int, k: int): int {
    base + k * interval
  }

  /** `t` is on the calendar: whole intervals away from `base`. */
  ghost predicate OnCalendar(base: int, interval: int, t: int) {
    exists k: int :: t == Tick(base, interval, k)
  }

  /** The first date of the calendar after both `prev`, itself a date of it, and `done`. */
  ghost predicate FirstAhead(prev: int, interval: int, done: int, next: int) {
    && next > prev && next > done && OnCalendar(prev, interval, next)
    && forall t :: OnCalendar(prev, interval, t) && t > prev && t > done ==> next <= t
  }

  /** In closed form. */
  function Ahead(prev: int, interval: int, done: int): int
    requires interval > 0
  {
    Tick(prev, interval, Max(1, (done - prev) / interval + 1))
  }

  lemma MulMono(a: int, b: int, d: int)
    requires d > 0
    ensures a <= b <==> a * d <= b * d
    ensures a < b ==> a * d + d <= b * d
  {
    if a < b { MulAtLeast(b - a, d); }
    if b < a { MulAtLeast(a - b, d); }
  }

  lemma MulAtLeast(n: int, d: int)
    requires n >= 1 && d > 0
    ensures n * d >= d
  {}

  lemma DivBounds(n: int, d: int)
    requires d > 0
    ensures (n / d) * d <= n < (n / d) * d + d
  {}

  /** Two tests that a date `k` intervals on is the first ahead. */
  lemma FirstAheadAt(prev: int, interval: int, done: int, k: int)
    requires interval > 0 && k >= 1 && Tick(prev, interval, k) > done
    requires k > 1 ==> Tick(prev, interval, k - 1) <= done
    ensures FirstAhead(prev, interval, done, Tick(prev, interval, k))
  {
    MulMono(1, k, interval);
    forall t | OnCalendar(prev, interval, t) && t > prev && t > done ensures Tick(prev, interval, k) <= t {
      var j :| t == Tick(prev, interval, j);
      MulMono(0, j, interval);
      MulMono(j, k - 1, interval);
      MulMono(k, j, interval);
    }
  }

  lemma AheadIsFirst(prev: int, interval: int, done: int)
    requires interval > 0
    ensures FirstAhead(prev, interval, done, Ahead(prev, interval, done))
  {
    var q := (done - prev) / interval;
    var k := Max(1, q + 1);
    DivBounds(done - prev, interval);
    assert (q + 1) * interval == q * interval + interval;
    MulMono(q + 1, k, interval);
    FirstAheadAt(prev, interval, done, k);
  }

  /** The catch-up loop both programs contain: step from `prev` by whole
      intervals until past `done`. */
  method CatchUp(prev: int, interval: int, done: int) returns (next: int)
    requires interval > 0
    ensures next == Ahead(prev, interval, done)
    ensures FirstAhead(prev, interval, done, next)
  {
    next := prev + interval;
    ghost var k := 1;
    while next <= done
      invariant k >= 1 && next == Tick(prev, interval, k)
      invariant k > 1 ==> Tick(prev, interval, k - 1) <= done
      decreases done - next
    {
      assert (k + 1) * interval == k * interval + interval;
      next := next + interval;
      k := k + 1;
    }
    FirstAheadAt(prev, interval, done, k);
    AheadIsFirst(prev, interval, done);
  }

  // ---------------------------------------------------------------------------
  // The advance that really runs
  // ---------------------------------------------------------------------------

  function IntervalOf(intervalDays: int): (r: int)
    ensures r > 0
  {
    if intervalDays <= 0 then DEFAULT_INTERVAL_DAYS * DAY else intervalDays * DAY
  }

  /** nextDueAfter: the next due date of a schedule whose job is done at `done`. */
  function NextDue(prevDue: int, intervalDays: int, fixedDates: bool, done: int): int {
    if fixedDates then Ahead(prevDue, IntervalOf(intervalDays), done)
    else done + IntervalOf(intervalDays)
  }

  /** The rule: with fixed dates the first date of the calendar after the job and the date
      before it, however late the job is; and otherwise a whole interval after the job,
      be it late or early. No interval means 30 days. */
  ghost predicate CountsOn(prevDue: int, intervalDays: int, fixedDates: bool, done: int, next: int) {
    var interval := (if intervalDays <= 0 then 30 else intervalDays) * 86_400_000_000_000;
    if fixedDates then FirstAhead(prevDue, interval, done, next) else next == done + interval
  }

  lemma NextDueCountsOn(prevDue: int, intervalDays: int, fixedDates: bool, done: int)
    ensures CountsOn(prevDue, intervalDays, fixedDates, done, NextDue(prevDue, intervalDays, fixedDates, done))
  {
    AheadIsFirst(prevDue, IntervalOf(intervalDays), done);
  }

  method NextDueAfter(prevDue: int, intervalDays: int, fixedDates: bool, done: int) returns (next: int)
    ensures next == NextDue(prevDue, intervalDays, fixedDates, done)
    ensures CountsOn(prevDue, intervalDays, fixedDates, done, next)
  {
    NextDueCountsOn(prevDue, intervalDays, fixedDates, done);
    var days := intervalDays;
    if days <= 0 {
      days := DEFAULT_INTERVAL_DAYS;
    }
    if !fixedDates {
      return done + days * DAY;
    }
    next := CatchUp(prevDue, days * DAY, done);
  }

  // ---------------------------------------------------------------------------
  // The schedule row, moved by completed jobs
  // ---------------------------------------------------------------------------

  /** Due dates of one schedule over any run of completions. */
  ghost function DueAfterRun(due: int, intervalDays: int, fixedDates: bool, done: seq<int>): int
    decreases |done|
  {
    if done == [] then due
    else
      var last := |done| - 1;
      NextDue(DueAfterRun(due, intervalDays, fixedDates, done[..last]), intervalDays, fixedDates, done[last])
  }

  /** With fixed dates every due date stays on the original calendar, later than
      the one before it and than the job just done, whenever jobs are done. */
  lemma {:induction false} FixedDatesKeepTheCalendar(due: int, intervalDays: int, done: seq<int>)
    ensures OnCalendar(due, IntervalOf(intervalDays), DueAfterRun(due, intervalDays, true, done))
    ensures done != [] ==>
              FirstAhead(DueAfterRun(due, intervalDays, true, done[..|done| - 1]), IntervalOf(intervalDays),
                         done[|done| - 1], DueAfterRun(due, intervalDays, true, done))
    decreases |done|
  {
    var interval := IntervalOf(intervalDays);
    if done == [] {
      assert due == Tick(due, interval, 0);
    } else {
      FixedDatesKeepTheCalendar(due, intervalDays, done[..|done| - 1]);
      var prev := DueAfterRun(due, intervalDays, true, done[..|done| - 1]);
      AheadIsFirst(prev, interval, done[|done| - 1]);
      var i: int :| prev == Tick(due, interval, i);
      var next := DueAfterRun(due, intervalDays, true, done);
      var j: int :| next == Tick(prev, interval, j);
      assert (i + j) * interval == i * interval + j * interval;
      assert next == Tick(due, interval, i + j);
    }
  }

  /** Each due date of a run of completions follows that rule from the one before it; so
      floating dates hang on the last completion alone, by whole days from it. */
  lemma DueDatesCountOn(due: int, intervalDays: int, fixedDates: bool, done: seq<int>)
    requires done != []
    ensures var before, last := done[..|done| - 1], done[|done| - 1];
      CountsOn(DueAfterRun(due, intervalDays, fixedDates, before), intervalDays, fixedDates, last,
               DueAfterRun(due, intervalDays, fixedDates, done))
    ensures !fixedDates ==>
              DueAfterRun(due, intervalDays, fixedDates, done)
              == done[|done| - 1] + (if intervalDays <= 0 then 30 else intervalDays) * DAY
  {
    var before := DueAfterRun(due, intervalDays, fixedDates, done[..|done| - 1]);
    NextDueCountsOn(before, intervalDays, fixedDates, done[|done| - 1]);
  }

  datatype ScheduleStatus = Scheduled | Overdue | Completed

  class Schedule {
    const intervalDays: int
    const fixedDates: bool
    var nextDueAt: int
    var lastDoneAt: Option<int>
    var status: ScheduleStatus
    /** When jobs of this schedule were done, oldest first, and the first due date. */
    ghost var history: seq<int>
    ghost const firstDue: int

    ghost predicate Valid()
      reads this
    {
      && nextDueAt == DueAfterRun(firstDue, intervalDays, fixedDates, history)
      && lastDoneAt == (if history == [] then None else Some(history[|history| - 1]))
    }

    constructor (due: int, days: int, keepsDates: bool)
      ensures Valid() && history == [] && firstDue == due && intervalDays == days && fixedDates == keepsDates
    {
      intervalDays, fixedDates := days, keepsDates;
      nextDueAt, lastDoneAt, status := due, None, Scheduled;
      history, firstDue := [], due;
    }

    /** AdvancePMScheduleAfterComplete at clock time `now`. */
    method Advance(now: int)
      requires Valid()
      modifies this
      ensures Valid() && history == old(history) + [now]
      ensures lastDoneAt == Some(now) && status == Scheduled
      ensures nextDueAt == NextDue(old(nextDueAt), intervalDays, fixedDates, now)
      ensures CountsOn(old(nextDueAt), intervalDays, fixedDates, now, nextDueAt)
      ensures nextDueAt > now
      ensures fixedDates ==> OnCalendar(firstDue, IntervalOf(intervalDays), nextDueAt)
    {
      var next := NextDueAfter(nextDueAt, intervalDays, fixedDates, now);
      AheadIsFirst(nextDueAt, IntervalOf(intervalDays), now);
      nextDueAt, lastDoneAt, status := next, Some(now), Scheduled;
      history := history + [now];
      assert history[..|history| - 1] == old(history);
      FixedDatesKeepTheCalendar(firstDue, intervalDays, history);
    }
  }

  // ---------------------------------------------------------------------------
  // The forecast: the stream of due dates
  // ---------------------------------------------------------------------------

  const TWO63: real := 9_223_372_036_854_775_808.0
  const LEAST_INT64: int := -9_223_372_036_854_775_808

  /** A length in days as a 64-bit number of nanoseconds: cut off toward zero, and
      the least number there is once it no longer fits. */
  function DurationOf(days: real): (d: int)
    requires days >= 0.0
    ensures d >= 0 <==> days * DAY as real < TWO63
    ensures d >= 1 <==> 1.0 <= days * DAY as real < TWO63
    ensures d < 0 ==> d == LEAST_INT64
    ensures d >= 0 ==> d as real <= days * DAY as real < d as real + 1.0
  {
    if days * DAY as real >= TWO63 then LEAST_INT64 else (days * DAY as real).Floor
  }

  /** What one schedule is projected from. `hoursDays` is how many days one
      running-hours interval lasts at the current rate; not by hours unless positive. */
  datatype Plan = Plan(next: int, intervalDays: int, fixedDates: bool, hoursFirst: int, hoursDays: real)
  {
    predicate ByDays() { intervalDays > 0 }
    predicate ByHours() { hoursDays > 0.0 }
    predicate Active() { ByDays() || ByHours() }

    function HourStep(): int { if ByHours() then DurationOf(hoursDays) else 0 }

    /** The length of an hours interval fits in 64 bits: below some 106,752 days. */
    predicate Fits() { hoursDays * DAY as real < TWO63 }

    /** And it is not less than a nanosecond. */
    predicate Lasts() { ByHours() ==> hoursDays * DAY as real >= 1.0 }
  }

  datatype Basis = Days | Hours
  datatype Calendar = Calendar(dayDue: int, hourDue: int)
  datatype Projection = Projection(at: int, basis: Basis, overdue: bool)

  /** The next job is due at whichever comes first; a tie is due by days. */
  function BasisOf(p: Plan, c: Calendar): Basis {
    if p.ByDays() && !(p.ByHours() && c.hourDue < c.dayDue) then Days else Hours
  }

  function DueOf(p: Plan, c: Calendar): int {
    if BasisOf(p, c).Days? then c.dayDue else c.hourDue
  }

  ghost function NextCalendar(p: Plan, c: Calendar, done: int): Calendar {
    Calendar(
      if !p.ByDays() then c.dayDue
      else if p.fixedDates && BasisOf(p, c).Days? then Ahead(c.dayDue, p.intervalDays * DAY, done)
      else done + p.intervalDays * DAY,
      if p.ByHours() then done + p.HourStep() else c.hourDue)
  }

  /** The calendar in force for occurrence `k`, when an overdue first job is
      done now and every other job on its due date. */
  ghost function CalendarAt(p: Plan, now: int, k: nat): Calendar
    decreases k, 0
  {
    if k == 0 then Calendar(p.next, p.hoursFirst)
    else NextCalendar(p, CalendarAt(p, now, k - 1), DoneAt(p, now, k - 1))
  }

  ghost function DueAt(p: Plan, now: int, k: nat): int
    decreases k, 1
  {
    DueOf(p, CalendarAt(p, now, k))
  }

  ghost predicate OverdueAt(p: Plan, now: int, k: nat)
    decreases k, 2
  {
    k == 0 && DueAt(p, now, k) < now
  }

  ghost function DoneAt(p: Plan, now: int, k: nat): int
    decreases k, 3
  {
    if OverdueAt(p, now, k) then now else DueAt(p, now, k)
  }

  ghost function ProjectionAt(p: Plan, now: int, k: nat): Projection {
    Projection(DueAt(p, now, k), BasisOf(p, CalendarAt(p, now, k)), OverdueAt(p, now, k))
  }

  /** The two dates of a job at `c` and of the next, the first being done at `done`:
      both count on from there, by whole days and by the length of the hours interval,
      but for a fixed date that came first, which stays on its calendar. */
  ghost predicate Follows(p: Plan, c: Calendar, done: int, next: Calendar) {
    var daysFirst := p.hoursDays <= 0.0 || c.dayDue <= c.hourDue;
    && (p.intervalDays > 0 ==>
          if p.fixedDates && daysFirst then FirstAhead(c.dayDue, p.intervalDays * 86_400_000_000_000, done, next.dayDue)
          else next.dayDue == done + p.intervalDays * 86_400_000_000_000)
    && (p.hoursDays > 0.0 ==> next.hourDue == done + DurationOf(p.hoursDays))
  }

  /** Occurrence `k` is due on the earlier of its two dates, by days when they are the
      same; only the first can be overdue, and it is then done now. */
  ghost predicate DueOnEarlier(p: Plan, now: int, k: nat) {
    var c, q := CalendarAt(p, now, k), ProjectionAt(p, now, k);
    && q == (if p.intervalDays > 0 && (p.hoursDays <= 0.0 || c.dayDue <= c.hourDue)
             then Projection(c.dayDue, Days, k == 0 && c.dayDue < now)
             else Projection(c.hourDue, Hours, k == 0 && c.hourDue < now))
    && DueAt(p, now, k) == q.at && DoneAt(p, now, k) == (if q.overdue then now else q.at)
  }

  /** The forecast by rule: where it starts, when each job is due, and what follows it. */
  lemma ForecastExactly(p: Plan, now: int, k: nat)
    requires p.Active()
    ensures CalendarAt(p, now, 0) == Calendar(p.next, p.hoursFirst)
    ensures DueOnEarlier(p, now, k)
    ensures Follows(p, CalendarAt(p, now, k), DoneAt(p, now, k), CalendarAt(p, now, k + 1))
    ensures !p.fixedDates && p.ByDays() ==>
              CalendarAt(p, now, k + 1).dayDue == DoneAt(p, now, k) + p.intervalDays * DAY
  {
    if p.ByDays() {
      AheadIsFirst(CalendarAt(p, now, k).dayDue, p.intervalDays * DAY, DoneAt(p, now, k));
    }
  }

  /** The shorter of the intervals that apply, and the earlier of the first dates. */
  function Shorter(p: Plan, days: int, hours: int): int {
    if p.hoursDays <= 0.0 || (p.intervalDays > 0 && days <= hours) then days else hours
  }

  lemma FloatingStep(p: Plan, now: int, k: nat)
    requires p.Active() && (p.ByDays() ==> !p.fixedDates)
    ensures DueAt(p, now, 0) == Shorter(p, p.next, p.hoursFirst)
    ensures DueAt(p, now, k + 1) == DoneAt(p, now, k) + Shorter(p, p.intervalDays * DAY, p.HourStep())
  {
    ForecastExactly(p, now, 0);
    ForecastExactly(p, now, k);
    ForecastExactly(p, now, k + 1);
  }

  /** A plan that floats, in closed form: from the first job, or from now if that is
      overdue, one step after the other of the shorter interval of the two. */
  lemma {:induction false} FloatingForecast(p: Plan, now: int, k: nat)
    requires p.Active() && (p.ByDays() ==> !p.fixedDates) && k >= 1
    ensures var step := Shorter(p, p.intervalDays * DAY, p.HourStep());
      DueAt(p, now, k) == Max(Shorter(p, p.next, p.hoursFirst), now) + k * step
    decreases k
  {
    var step := Shorter(p, p.intervalDays * DAY, p.HourStep());
    FloatingStep(p, now, k - 1);
    if k > 1 {
      FloatingForecast(p, now, k - 1);
      assert DoneAt(p, now, k - 1) == DueAt(p, now, k - 1);
      assert k * step == (k - 1) * step + step;
    }
  }

  /** Each next due date is within one interval of either kind that applies of the
      job before it; and it is not before that job exactly when an hours interval
      fits in 64 bits, and after it when that also lasts. */
  lemma DueStep(p: Plan, now: int, k: nat)
    requires p.Active()
    ensures p.ByDays() ==> DueAt(p, now, k + 1) <= DoneAt(p, now, k) + p.intervalDays * DAY
    ensures p.ByHours() ==> DueAt(p, now, k + 1) <= DoneAt(p, now, k) + p.HourStep()
    ensures DoneAt(p, now, k) >= DueAt(p, now, k)
    ensures p.Fits() <==> DueAt(p, now, k + 1) >= DoneAt(p, now, k)
    ensures !p.Fits() ==> DueAt(p, now, k + 1) == DoneAt(p, now, k) + LEAST_INT64
    ensures p.Fits() && p.Lasts() <==> DueAt(p, now, k + 1) > DoneAt(p, now, k)
  {
    var c, done := CalendarAt(p, now, k), DoneAt(p, now, k);
    if p.ByDays() && p.fixedDates && BasisOf(p, c).Days? {
      AheadWithinInterval(c.dayDue, p.intervalDays * DAY, done);
    }
  }

  lemma AheadWithinInterval(prev: int, interval: int, done: int)
    requires interval > 0 && prev <= done
    ensures done < Ahead(prev, interval, done) <= done + interval
  {
    var q := (done - prev) / interval;
    DivBounds(done - prev, interval);
    MulMono(0, q + 1, interval);
    assert (q + 1) * interval == q * interval + interval;
    assert q >= 0;
  }

  lemma {:induction false} DueOrder(p: Plan, now: int, j: nat, k: nat)
    requires p.Active() && p.Fits() && j < k
    ensures DueAt(p, now, j) <= DoneAt(p, now, j) <= DueAt(p, now, k)
    ensures p.Lasts() ==> DoneAt(p, now, j) < DueAt(p, now, k)
    decreases k
  {
    DueStep(p, now, k - 1);
    if j < k - 1 {
      DueOrder(p, now, j, k - 1);
    }
  }

  /** The projected dates strictly increase, from any occurrence to any later one,
      exactly when an hours interval fits in 64 bits and lasts at least a nanosecond. */
  lemma StrictlyIncreasing(p: Plan, now: int)
    requires p.Active()
    ensures p.Fits() && p.Lasts() <==> forall j, k :: 0 <= j < k ==> DueAt(p, now, j) < DueAt(p, now, k)
  {
    if p.Fits() && p.Lasts() {
      forall j, k | 0 <= j < k ensures DueAt(p, now, j) < DueAt(p, now, k) {
        DueOrder(p, now, j, k);
      }
    } else {
      DueStep(p, now, 1);
      assert DueAt(p, now, 2) <= DoneAt(p, now, 1) == DueAt(p, now, 1);
    }
  }

  /** Service gap: whatever the mix of days, hours and fixed dates, the next job
      falls within one interval, of each kind that applies, of the later of now and
      the job before it. It falls no earlier than that exactly when an hours
      interval fits in 64 bits. */
  lemma ServiceGap(p: Plan, now: int, k: nat)
    requires p.Active()
    ensures var last := Max(DueAt(p, now, k), now);
      && (p.ByDays() ==> DueAt(p, now, k + 1) <= last + p.intervalDays * DAY)
      && (p.ByHours() ==> DueAt(p, now, k + 1) <= last + p.HourStep())
      && (p.Fits() <==> DueAt(p, now, k + 1) >= last)
  {
    DueStep(p, now, k);
    if p.Fits() && k > 0 { DueOrder(p, now, 0, k); }
  }

  /** With an interval that fits, a date is flagged overdue exactly when it is past,
      and only the first can be. */
  lemma OverdueWhenPast(p: Plan, now: int, k: nat)
    requires p.Active() && p.Fits()
    ensures OverdueAt(p, now, k) <==> DueAt(p, now, k) < now
    ensures k > 0 ==> DueAt(p, now, k) >= now
    ensures DoneAt(p, now, k) == Max(DueAt(p, now, k), now)
  {
    if k > 0 {
      DueOrder(p, now, 0, k);
    }
  }

  /** With one that does not, each date after the first is 292 years before the one
      before it, counted from now when the first is overdue. */
  lemma {:induction false} DatesFallBack(p: Plan, now: int, k: nat)
    requires p.Active() && !p.Fits() && k >= 1
    ensures DueAt(p, now, k) == Max(DueAt(p, now, 0), now) + k * LEAST_INT64
    decreases k
  {
    DueStep(p, now, k - 1);
    if k > 1 { DatesFallBack(p, now, k - 1); }
  }

  /** The first `n` dates are flagged overdue exactly when they are past, if and only
      if an hours interval fits in 64 bits, or the first of them is so far ahead
      that the last is not past: by 292 years for each one after the first. */
  lemma OverdueExactlyWhenPast(p: Plan, now: int, n: nat)
    requires p.Active()
    ensures (forall k :: 0 <= k < n ==> (OverdueAt(p, now, k) <==> DueAt(p, now, k) < now))
       <==> p.Fits() || n <= 1 || DueAt(p, now, 0) >= now - (n - 1) * LEAST_INT64
  {
    if p.Fits() {
      forall k | 0 <= k < n ensures OverdueAt(p, now, k) <==> DueAt(p, now, k) < now { OverdueWhenPast(p, now, k); }
    } else if n > 1 {
      MulMono(1, n - 1, -LEAST_INT64);
      if DueAt(p, now, 0) >= now - (n - 1) * LEAST_INT64 {
        forall k | 0 < k < n ensures DueAt(p, now, k) >= now {
          DatesFallBack(p, now, k);
          MulMono(k, n - 1, -LEAST_INT64);
        }
      } else {
        DatesFallBack(p, now, n - 1);
        assert DueAt(p, now, n - 1) < now && !OverdueAt(p, now, n - 1);
      }
    }
  }

  /** An interval of `hours` at `rate` running hours a day fits exactly when it is
      below 2^63 nanoseconds, some 106,752 days, of running. */
  lemma FitsAtRate(p: Plan, hours: real, rate: real)
    requires rate > 0.0 && p.hoursDays == hours / rate
    ensures p.Fits() <==> hours * DAY as real < TWO63 * rate
  {
    DaysAtRate(hours, rate);
  }

  /** When the first job by hours is due: the hours left, at that rate, after the
      meter was read. */
  function FirstByHours(readAt: int, left: real, rate: real): int
    requires left >= 0.0 && rate > 0.0
  {
    readAt + DurationOf(left / rate)
  }

  /** It is put before the reading itself, and so shown as overdue, exactly when
      the hours left are as much as that. */
  lemma FirstByHoursBeforeReading(readAt: int, left: real, rate: real)
    requires left >= 0.0 && rate > 0.0
    ensures FirstByHours(readAt, left, rate) < readAt <==> left * DAY as real >= TWO63 * rate
    ensures left * DAY as real < TWO63 * rate ==>
              var d := (FirstByHours(readAt, left, rate) - readAt) as real;
              d <= left / rate * DAY as real < d + 1.0
  {
    DaysAtRate(left, rate);
  }

  lemma DaysAtRate(hours: real, rate: real)
    requires rate > 0.0
    ensures hours / rate * DAY as real < TWO63 <==> hours * DAY as real < TWO63 * rate
  {
    var days := hours / rate;
    assert days * rate == hours;
    if days * DAY as real < TWO63 {
      MulLess(days * DAY as real, TWO63, rate);
    } else {
      MulAtMost(TWO63, days * DAY as real, rate);
    }
    assert days * DAY as real * rate == hours * DAY as real;
  }

  lemma MulLess(a: real, b: real, c: real)
    requires a < b && c > 0.0
    ensures a * c < b * c
  {}

  lemma MulAtMost(a: real, b: real, c: real)
    requires a <= b && c > 0.0
    ensures a * c <= b * c
  {}

  // ---------------------------------------------------------------------------
  // The forecast: what is listed
  // ---------------------------------------------------------------------------

  /** Listed: up to and including `to`, and from `from` on unless overdue. */
  ghost predicate Listed(q: Projection, from: int, to: int) {
    q.at <= to && (q.at >= from || q.overdue)
  }

  /** The listed ones among the first `n` occurrences. */
  ghost function Listing(p: Plan, now: int, from: int, to: int, n: nat): seq<Projection> {
    if n == 0 then []
    else
      var q := ProjectionAt(p, now, n - 1);
      Listing(p, now, from, to, n - 1) + (if Listed(q, from, to) then [q] else [])
  }

  lemma ListingMore(p: Plan, now: int, from: int, to: int, n: nat)
    ensures var q := ProjectionAt(p, now, n);
      Listing(p, now, from, to, n + 1)
      == (if Listed(q, from, to) then Listing(p, now, from, to, n) + [q] else Listing(p, now, from, to, n))
  {}

  /** Once an occurrence is past `to`, no later one is listed. */
  lemma {:induction false} NothingListedPast(p: Plan, now: int, from: int, to: int, i: nat, n: nat)
    requires p.Active() && p.Fits() && i <= n && DueAt(p, now, i) > to
    ensures Listing(p, now, from, to, n) == Listing(p, now, from, to, i)
    decreases n
  {
    if i < n {
      NothingListedPast(p, now, from, to, i, n - 1);
      if i < n - 1 { DueOrder(p, now, i, n - 1); }
    }
  }

  /** How many occurrences there are, from number `i` on and at most 400, before one
      is past `to`. */
  ghost function Reach(p: Plan, now: int, to: int, i: nat): (n: nat)
    requires i <= MAX_OCCURRENCES
    ensures i <= n <= MAX_OCCURRENCES
    ensures n < MAX_OCCURRENCES ==> DueAt(p, now, n) > to
    ensures forall k :: i <= k < n ==> DueAt(p, now, k) <= to
    decreases MAX_OCCURRENCES - i
  {
    if i == MAX_OCCURRENCES || DueAt(p, now, i) > to then i else Reach(p, now, to, i + 1)
  }

  /** What projectSchedule returns: the listed ones before the first occurrence that is
      past the range, or among the first 400 if none is. */
  ghost function Returned(p: Plan, now: int, from: int, to: int): seq<Projection> {
    if p.Active() then Listing(p, now, from, to, Reach(p, now, to, 0)) else []
  }

  /** Which date of the two comes first. */
  method PickDue(p: Plan, dayDue: int, hourDue: int) returns (at: int, basis: Basis)
    requires p.Active()
    ensures at == DueOf(p, Calendar(dayDue, hourDue)) && basis == BasisOf(p, Calendar(dayDue, hourDue))
  {
    at, basis := dayDue, Days;
    if p.ByDays() && p.ByHours() {
      if hourDue < dayDue {
        at, basis := hourDue, Hours;
      }
    } else if !p.ByDays() {
      at, basis := hourDue, Hours;
    }
  }

  /** Both dates counted on from the job just projected. */
  method CountOn(p: Plan, dayDue: int, hourDue: int, basis: Basis, done: int) returns (nextDay: int, nextHour: int)
    requires basis == BasisOf(p, Calendar(dayDue, hourDue))
    ensures Calendar(nextDay, nextHour) == NextCalendar(p, Calendar(dayDue, hourDue), done)
  {
    nextDay, nextHour := dayDue, hourDue;
    if p.ByDays() {
      if p.fixedDates && basis == Days {
        nextDay := CatchUp(dayDue, p.intervalDays * DAY, done);
      } else {
        nextDay := done + p.intervalDays * DAY;
      }
    }
    if p.ByHours() {
      nextHour := done + DurationOf(p.hoursDays);
    }
  }

  /** The loop stands at occurrence `i`, with both dates and the list so far. */
  ghost predicate Projected(p: Plan, now: int, from: int, to: int, i: nat, c: Calendar, out: seq<Projection>) {
    && i <= MAX_OCCURRENCES && Reach(p, now, to, 0) == Reach(p, now, to, i)
    && c == CalendarAt(p, now, i) && out == Listing(p, now, from, to, i)
  }

  lemma ProjectedNext(p: Plan, now: int, from: int, to: int, i: nat, c: Calendar, out: seq<Projection>)
    requires Projected(p, now, from, to, i, c, out) && i < MAX_OCCURRENCES && DueOf(p, c) <= to
    ensures var at, overdue := DueOf(p, c), i == 0 && DueOf(p, c) < now;
      Projected(p, now, from, to, i + 1, NextCalendar(p, c, if overdue then now else at),
                if at >= from || overdue then out + [Projection(at, BasisOf(p, c), overdue)] else out)
  {
    assert DueAt(p, now, i) == DueOf(p, c);
    ListingMore(p, now, from, to, i);
  }

  method ProjectSchedule(p: Plan, now: int, from: int, to: int) returns (out: seq<Projection>)
    ensures out == Returned(p, now, from, to)
  {
    if !p.ByDays() && !p.ByHours() {
      return [];
    }
    out := [];
    var dayDue, hourDue := p.next, p.hoursFirst;
    var i := 0;
    while i < MAX_OCCURRENCES
      invariant 0 <= i <= MAX_OCCURRENCES && Projected(p, now, from, to, i, Calendar(dayDue, hourDue), out)
    {
      ghost var c := Calendar(dayDue, hourDue);
      var at, basis := PickDue(p, dayDue, hourDue);
      if at > to {
        assert DueAt(p, now, i) == at;
        return;
      }
      ProjectedNext(p, now, from, to, i, c, out);
      var overdue := i == 0 && at < now;
      if at >= from || overdue {
        out := out + [Projection(at, basis, overdue)];
      }
      var done := if overdue then now else at;
      dayDue, hourDue := CountOn(p, dayDue, hourDue, basis, done);
      i := i + 1;
    }
  }

  /** With an hours interval that fits, the loop stops early only when nothing more
      is in range: the list is that of the first 400 occurrences. */
  lemma StoppingLosesNothing(p: Plan, now: int, from: int, to: int)
    requires p.Active() && p.Fits()
    ensures Returned(p, now, from, to) == Listing(p, now, from, to, MAX_OCCURRENCES)
  {
    var n := Reach(p, now, to, 0);
    if n < MAX_OCCURRENCES { NothingListedPast(p, now, from, to, n, MAX_OCCURRENCES); }
  }

  /** In date order; strictly, when asked. */
  ghost predicate InOrder(out: seq<Projection>, strictly: bool) {
    forall i, j :: 0 <= i < j < |out| ==> if strictly then out[i].at < out[j].at else out[i].at <= out[j].at
  }

  /** What a reader of the list can rely on when an hours interval fits: it is in
      date order, strictly when such intervals last at all, every date is in range
      or overdue, and overdue marks exactly the dates before now. */
  lemma {:induction false} ListingInOrder(p: Plan, now: int, from: int, to: int, n: nat)
    requires p.Active() && p.Fits()
    ensures var out := Listing(p, now, from, to, n);
      && InOrder(out, p.Lasts())
      && (forall q :: q in out ==> Listed(q, from, to) && (q.overdue <==> q.at < now))
      && (forall q :: q in out ==> exists k :: 0 <= k < n && q == ProjectionAt(p, now, k))
    decreases n
  {
    if n > 0 {
      ListingInOrder(p, now, from, to, n - 1);
      var before := Listing(p, now, from, to, n - 1);
      var last := ProjectionAt(p, now, n - 1);
      OverdueWhenPast(p, now, n - 1);
      forall q | q in before
        ensures q.at <= last.at && (p.Lasts() ==> q.at < last.at)
      {
        var k :| 0 <= k < n - 1 && q == ProjectionAt(p, now, k);
        DueOrder(p, now, k, n - 1);
      }
    }
  }

  lemma {:induction false} ListingGrows(p: Plan, now: int, from: int, to: int, i: nat, n: nat)
    requires i <= n
    ensures Listing(p, now, from, to, i) <= Listing(p, now, from, to, n)
    decreases n
  {
    if i < n { ListingGrows(p, now, from, to, i, n - 1); }
  }

  /** A range that shows the second job and, before it in time, the third. */
  lemma OutOfOrder(p: Plan, now: int) returns (from: int, to: int)
    requires p.Active() && !p.Fits()
    ensures !InOrder(Returned(p, now, from, to), false)
  {
    DueStep(p, now, 1);
    from, to := DueAt(p, now, 2), Max(DueAt(p, now, 0), DueAt(p, now, 1));
    var n := Reach(p, now, to, 0);
    ListingGrows(p, now, from, to, 3, n);
    BackAndForth(p, now, from, to, Returned(p, now, from, to));
  }

  lemma BackAndForth(p: Plan, now: int, from: int, to: int, out: seq<Projection>)
    requires from <= DueAt(p, now, 2) < DueAt(p, now, 1) <= to && Listing(p, now, from, to, 3) <= out
    ensures !InOrder(out, false)
  {
    var one := Listing(p, now, from, to, 1);
    var q1, q2 := ProjectionAt(p, now, 1), ProjectionAt(p, now, 2);
    ListingMore(p, now, from, to, 1);
    ListingMore(p, now, from, to, 2);
    assert one + [q1] + [q2] <= out;
    assert out[|one|] == q1 && out[|one| + 1] == q2;
  }

  /** Every list projectSchedule returns, for whatever range, is in date order if and
      only if an hours interval fits in 64 bits. */
  lemma ReturnedInOrderExactlyWhenFits(p: Plan, now: int)
    requires p.Active()
    ensures p.Fits() <==> forall from, to :: InOrder(Returned(p, now, from, to), false)
  {
    if p.Fits() {
      forall from, to ensures InOrder(Returned(p, now, from, to), false) {
        ListingInOrder(p, now, from, to, Reach(p, now, to, 0));
      }
    } else {
      var from, to := OutOfOrder(p, now);
    }
  }

  /** And nothing but the first job is ever listed in a range that does not reach
      292 years back: the jobs by days are lost as well. */
  lemma {:induction false} OverflowListsOneJob(p: Plan, now: int, from: int, to: int, n: nat)
    requires p.Active() && !p.Fits() && from > Max(DueAt(p, now, 0), now) + LEAST_INT64
    ensures |Listing(p, now, from, to, n)| <= 1
    ensures Listing(p, now, from, to, n) != [] ==> Listing(p, now, from, to, n) == [ProjectionAt(p, now, 0)]
    decreases n
  {
    if n > 1 {
      OverflowListsOneJob(p, now, from, to, n - 1);
      DatesFallBack(p, now, n - 1);
      MulMono(1, n - 1, -LEAST_INT64);
      assert DueAt(p, now, n - 1) < from;
    }
  }

  /** Nothing in range is missing from the first `n` occurrences. */
  lemma {:induction false} ListingIsComplete(p: Plan, now: int, from: int, to: int, n: nat, k: nat)
    requires k < n && Listed(ProjectionAt(p, now, k), from, to)
    ensures ProjectionAt(p, now, k) in Listing(p, now, from, to, n)
    decreases n
  {
    if k < n - 1 {
      ListingIsComplete(p, now, from, to, n - 1, k);
    }
  }

  /** Whatever the plan, exactly those of the first 400 jobs are returned that come, with
      all before them, no later than the range ends, and no earlier than it starts
      unless it is the first and overdue. */
  lemma ReturnedExactly(p: Plan, now: int, from: int, to: int, q: Projection)
    requires p.Active()
    ensures q in Returned(p, now, from, to) <==>
            exists k: nat :: k < 400 && q == ProjectionAt(p, now, k) && InRange(p, now, from, to, k)
  {
    var n := Reach(p, now, to, 0);
    if q in Listing(p, now, from, to, n) {
      var k := ListedAt(p, now, from, to, n, q);
      assert InRange(p, now, from, to, k);
    }
    if k: nat :| k < 400 && q == ProjectionAt(p, now, k) && InRange(p, now, from, to, k) {
      assert n < MAX_OCCURRENCES ==> DueAt(p, now, n) > to;
      ListingIsComplete(p, now, from, to, n, k);
    }
  }

  ghost predicate InRange(p: Plan, now: int, from: int, to: int, k: nat) {
    && (forall i: nat :: i <= k ==> DueAt(p, now, i) <= to)
    && (from <= DueAt(p, now, k) || (k == 0 && DueAt(p, now, 0) < now))
  }

  lemma {:induction false} ListedAt(p: Plan, now: int, from: int, to: int, n: nat, q: Projection) returns (k: nat)
    requires q in Listing(p, now, from, to, n)
    ensures k < n && q == ProjectionAt(p, now, k) && q.at <= to
    ensures from <= q.at || (k == 0 && q.at < now)
    decreases n
  {
    var last := ProjectionAt(p, now, n - 1);
    if q == last && q.at <= to && (from <= q.at || q.overdue) {
      k := n - 1;
    } else {
      k := ListedAt(p, now, from, to, n - 1, q);
    }
  }

  // ---------------------------------------------------------------------------
  // The cap of 400 occurrences
  // ---------------------------------------------------------------------------

  /** By days alone, each occurrence after the first is at least a day later, and
      the second is already past now. */
  lemma {:induction false} DaysApart(p: Plan, now: int, k: nat)
    requires p.ByDays() && !p.ByHours() && k >= 1
    ensures DueAt(p, now, k) > now + (k - 1) * DAY
    decreases k
  {
    if k == 1 {
      DueStep(p, now, 0);
      OverdueWhenPast(p, now, 0);
    } else {
      DaysApart(p, now, k - 1);
      var c, done := CalendarAt(p, now, k - 1), DoneAt(p, now, k - 1);
      MulAtLeast(p.intervalDays, DAY);
      AheadOneInterval(c.dayDue, p.intervalDays * DAY);
      assert BasisOf(p, c) == Days && DueAt(p, now, k - 1) == c.dayDue;
      assert !OverdueAt(p, now, k - 1) && done == c.dayDue;
    }
  }

  lemma AheadOneInterval(prev: int, interval: int)
    requires interval > 0
    ensures Ahead(prev, interval, prev) == prev + interval
  {}

  /** No schedule by days can lose a job in range to the cap exactly when the
      range ends within 399 days of now. */
  lemma CapIsHarmless(now: int, to: int)
    ensures to <= now + 399 * DAY <==>
            forall p: Plan, k: nat | p.ByDays() && !p.ByHours() && k >= MAX_OCCURRENCES :: DueAt(p, now, k) > to
  {
    if to <= now + 399 * DAY {
      forall p: Plan, k: nat | p.ByDays() && !p.ByHours() && k >= MAX_OCCURRENCES
        ensures DueAt(p, now, k) > to
      {
        DaysApart(p, now, k);
      }
    } else {
      var p := Plan(now + 1 - DAY, 1, true, 0, 0.0);
      DailyFixed(p, now, MAX_OCCURRENCES);
      assert DueAt(p, now, MAX_OCCURRENCES) <= to;
    }
  }

  /** A daily fixed schedule last due just after this time yesterday. */
  lemma {:induction false} DailyFixed(p: Plan, now: int, k: nat)
    requires p == Plan(now + 1 - DAY, 1, true, 0, 0.0)
    ensures DueAt(p, now, k) == now + 1 + (k - 1) * DAY
    decreases k
  {
    if k > 0 {
      DailyFixed(p, now, k - 1);
      AheadOneInterval(CalendarAt(p, now, k - 1).dayDue, DAY);
      assert DoneAt(p, now, 0) == now && Ahead(p.next, DAY, now) == p.next + DAY;
      assert CalendarAt(p, now, k) == NextCalendar(p, CalendarAt(p, now, k - 1), DoneAt(p, now, k - 1));
    }
  }

  // ---------------------------------------------------------------------------
  // The forecast and the advance
  // ---------------------------------------------------------------------------

  /** By days alone the forecast is the advance: each next date is the one the
      advance gives when the job before it is done on time, or now if overdue. */
  lemma ForecastIsTheAdvance(p: Plan, now: int, k: nat)
    requires p.ByDays() && !p.ByHours()
    ensures DueAt(p, now, k + 1)
         == NextDue(DueAt(p, now, k), p.intervalDays, p.fixedDates, Max(DueAt(p, now, k), now))
  {
    OverdueWhenPast(p, now, k);
  }

  /** When fixed dates hold: if no job is finished as late as the next forecast
      date, and an overdue first one not before now, the real due dates are the
      forecast ones, however late within that each job is done. */
  lemma {:induction false} FixedForecastComesTrue(p: Plan, now: int, done: seq<int>)
    requires p.ByDays() && !p.ByHours() && p.fixedDates
    requires forall j :: 0 <= j < |done| ==> done[j] < DueAt(p, now, j + 1)
    requires done != [] && OverdueAt(p, now, 0) ==> done[0] >= now
    ensures DueAfterRun(p.next, p.intervalDays, true, done) == DueAt(p, now, |done|)
    decreases |done|
  {
    if done != [] {
      var k := |done| - 1;
      var before := done[..k];
      FixedForecastComesTrue(p, now, before);
      ForecastIsTheAdvance(p, now, k);
      OverdueWhenPast(p, now, k);
      var due, interval := DueAt(p, now, k), p.intervalDays * DAY;
      SameIntervalSameAdvance(due, interval, Max(due, now), done[k]);
    }
  }

  /** Finishing later, or earlier but no later than due, leaves the next date
      as it is while that date is still ahead. */
  lemma SameIntervalSameAdvance(prev: int, interval: int, assumed: int, done: int)
    requires interval > 0 && assumed >= prev
    requires done < Ahead(prev, interval, assumed) && (assumed > prev ==> done >= assumed)
    ensures Ahead(prev, interval, done) == Ahead(prev, interval, assumed)
  {
    AheadIsFirst(prev, interval, assumed);
    AheadIsFirst(prev, interval, done);
    AheadOneInterval(prev, interval);
    var next, actual := Ahead(prev, interval, assumed), Ahead(prev, interval, done);
    assert actual <= next;
    if assumed == prev {
      AheadAtLeastOne(prev, interval, done);
    }
  }

  lemma AheadAtLeastOne(prev: int, interval: int, done: int)
    requires interval > 0
    ensures Ahead(prev, interval, done) >= prev + interval
  {
    MulMono(1, Max(1, (done - prev) / interval + 1), interval);
  }

  /** With hours as well, the date-calendar of the forecast follows the advance
      on the very same job exactly when the template floats, or the job fell due
      by days, or it is done on a date of the calendar: a fixed calendar is lost
      when running hours come first, although the advance keeps it. */
  lemma ForecastLeavesTheCalendar(p: Plan, now: int, k: nat)
    requires p.ByDays()
    ensures var c, done := CalendarAt(p, now, k), DoneAt(p, now, k);
      CalendarAt(p, now, k + 1).dayDue == NextDue(c.dayDue, p.intervalDays, p.fixedDates, done)
      <==> (p.fixedDates && BasisOf(p, c).Hours? ==>
              done >= c.dayDue && OnCalendar(c.dayDue, p.intervalDays * DAY, done))
  {
    var c, done, interval := CalendarAt(p, now, k), DoneAt(p, now, k), p.intervalDays * DAY;
    if p.fixedDates && BasisOf(p, c).Hours? {
      AheadIsFirst(c.dayDue, interval, done);
      var next := Ahead(c.dayDue, interval, done);
      if done >= c.dayDue && OnCalendar(c.dayDue, interval, done) {
        var j: int :| done == Tick(c.dayDue, interval, j);
        MulMono(0, j, interval);
        assert (j + 1) * interval == j * interval + interval;
        FirstAheadAt(c.dayDue, interval, done, j + 1);
      }
      if next == done + interval {
        var i: int :| next == Tick(c.dayDue, interval, i);
        assert (i - 1) * interval == i * interval - interval;
        assert done == Tick(c.dayDue, interval, i - 1);
        MulMono(0, i, interval);
        MulMono(1, i, interval);
      }
    }
  }
}
