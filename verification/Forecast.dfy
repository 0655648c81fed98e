/**
  The maintenance forecast of one schedule (internal/store/forecast.go) over the
  ranges it is served for: whole days, at most 400 of them. What a reader of it can
  rely on, and what is lost when a running-hours interval does not fit in 64 bits.
 */
module Forecast {
  import opened Wrappers
  import opened PMDates

  const SECOND: int := 1_000_000_000
  const MAX_DAYS := 400

  function Midnight(day: int): int { day * DAY }

  function LastSecond(day: int): int { Midnight(day + 1) - SECOND }

  /** The forecast from the day of `from` to the day of `to`. */
  ghost function Served(p: Plan, now: int, from: int, to: int): Result<seq<Projection>> {
    var first, last := Midnight(from / DAY), LastSecond(to / DAY);
    if last < first || last - first > MAX_DAYS * DAY then Err(BadInput) else Ok(Returned(p, now, first, last))
  }

  /** MaintenanceForecast, for one schedule. */
  method MaintenanceForecast(p: Plan, now: int, from: int, to: int) returns (r: Result<seq<Projection>>)
    ensures r == Served(p, now, from, to)
  {
    var first, last := Midnight(from / DAY), LastSecond(to / DAY);
    if last < first {
      return Err(BadInput);
    }
    if last - first > MAX_DAYS * DAY {
      return Err(BadInput);
    }
    var out := ProjectSchedule(p, now, first, last);
    r := Ok(out);
  }

  lemma DayBounds(t: int)
    ensures Midnight(t / DAY) <= t < Midnight(t / DAY + 1)
  {
    DivBounds(t, DAY);
  }

  lemma MidnightMono(a: int, b: int)
    ensures a <= b <==> Midnight(a) <= Midnight(b)
    ensures a < b ==> Midnight(a) + DAY <= Midnight(b)
  {
    if a < b { MulMono(a + 1, b, DAY); } else { MulMono(b, a, DAY); if b < a { MulMono(b + 1, a, DAY); } }
  }

  lemma MidnightPlus(a: int, n: int)
    ensures Midnight(a + n) == Midnight(a) + n * DAY
  {}

  /** The ranges served are those of 1 to 400 days. */
  lemma ServedDays(p: Plan, now: int, from: int, to: int)
    ensures Served(p, now, from, to).Ok? <==> from / DAY <= to / DAY < from / DAY + 400
  {
    var a, b := from / DAY, to / DAY;
    MidnightPlus(a, MAX_DAYS);
    MidnightMono(a, b + 1);
    MidnightMono(b + 1, a);
    MidnightMono(b + 1, a + MAX_DAYS);
    MidnightMono(a + MAX_DAYS, b + 1);
  }

  /** And a job is served exactly when it is among the first 400, comes with all before
      it before the last second of the last day is over, and not before the first day
      begins unless it is the first and overdue. */
  lemma ServedExactly(p: Plan, now: int, from: int, to: int, q: Projection)
    requires p.Active() && Served(p, now, from, to).Ok?
    ensures q in Served(p, now, from, to).value <==>
            exists k: nat :: k < 400 && q == ProjectionAt(p, now, k) && OnDays(p, now, from / DAY, to / DAY, k)
  {
    var first, last := Midnight(from / DAY), LastSecond(to / DAY);
    ReturnedExactly(p, now, first, last, q);
    forall k: nat ensures OnDays(p, now, from / DAY, to / DAY, k) <==> InRange(p, now, first, last, k) {}
  }

  ghost predicate OnDays(p: Plan, now: int, first: int, last: int, k: nat) {
    && (forall i: nat :: i <= k ==> DueAt(p, now, i) <= (last + 1) * DAY - 1_000_000_000)
    && (first * DAY <= DueAt(p, now, k) || (k == 0 && DueAt(p, now, 0) < now))
  }

  // ---------------------------------------------------------------------------
  // What is served
  // ---------------------------------------------------------------------------

  /** In date order, with exactly the dates before now flagged overdue. */
  ghost predicate Sound(out: seq<Projection>, now: int) {
    InOrder(out, false) && forall q :: q in out ==> (q.overdue <==> q.at < now)
  }

  /** The first job was due no later than in the last range that still shows the
      day 292 years ago. */
  ghost predicate LongPast(p: Plan, now: int) {
    DueAt(p, now, 0) <= LastSecond((now + LEAST_INT64) / DAY + MAX_DAYS - 1)
  }

  /** An occurrence in range is in the list when none before it is past the range. */
  lemma IsReturned(p: Plan, now: int, from: int, to: int, k: nat)
    requires p.Active() && k < MAX_OCCURRENCES && Listed(ProjectionAt(p, now, k), from, to)
    requires forall i :: 0 <= i <= k ==> DueAt(p, now, i) <= to
    ensures ProjectionAt(p, now, k) in Returned(p, now, from, to)
  {
    var n := Reach(p, now, to, 0);
    assert n > k;
    ListingIsComplete(p, now, from, to, n, k);
  }

  /** With an interval that does not fit, a forecast shows the first job or nothing. */
  lemma OverflowServesOneJob(p: Plan, now: int, from: int, to: int)
    requires p.Active() && !p.Fits() && !LongPast(p, now) && Served(p, now, from, to).Ok?
    ensures var out := Served(p, now, from, to).value; out == [] || out == [ProjectionAt(p, now, 0)]
  {
    var first, last := Midnight(from / DAY), LastSecond(to / DAY);
    var n := Reach(p, now, last, 0);
    if n > 0 {
      RangeIsRecent(p, now, from, to);
      OverflowListsOneJob(p, now, first, last, n);
    }
  }

  lemma RangeIsRecent(p: Plan, now: int, from: int, to: int)
    requires !LongPast(p, now) && Served(p, now, from, to).Ok? && DueAt(p, now, 0) <= LastSecond(to / DAY)
    ensures Midnight(from / DAY) > Max(DueAt(p, now, 0), now) + LEAST_INT64
  {
    var a, b, back := from / DAY, to / DAY, (now + LEAST_INT64) / DAY;
    ServedDays(p, now, from, to);
    MidnightMono(b + 1, back + MAX_DAYS);
    DayBounds(now + LEAST_INT64);
    MidnightMono(back + 1, a);
    MidnightPlus(a, MAX_DAYS);
    MidnightMono(b + 1, a + MAX_DAYS);
  }

  /** A range that shows the second job: its day and the next, or, when its date is
      292 years back, as long a range from there as is served. */
  lemma SecondIsServed(p: Plan, now: int) returns (from: int, to: int)
    requires p.Active() && (p.Fits() || LongPast(p, now))
    ensures Served(p, now, from, to).Ok? && ProjectionAt(p, now, 1) in Served(p, now, from, to).value
  {
    from := DueAt(p, now, 1);
    var a := from / DAY;
    var b := a + (if p.Fits() then 1 else MAX_DAYS - 1);
    to := Midnight(b);
    assert to / DAY == b;
    ServedDays(p, now, from, to);
    DayBounds(from);
    MidnightMono(a + 2, b + 1);
    MidnightPlus(a + 1, 1);
    FirstIsInTime(p, now, b);
    IsReturned(p, now, Midnight(a), LastSecond(b), 1);
  }

  lemma FirstIsInTime(p: Plan, now: int, b: int)
    requires p.Active() && (p.Fits() || LongPast(p, now))
    requires b == DueAt(p, now, 1) / DAY + (if p.Fits() then 1 else MAX_DAYS - 1)
    requires DueAt(p, now, 1) <= LastSecond(b)
    ensures DueAt(p, now, 0) <= LastSecond(b)
  {
    DueStep(p, now, 0);
    if !p.Fits() {
      LongPastIsPast(p, now);
      assert DueAt(p, now, 1) == now + LEAST_INT64;
    }
  }

  lemma LongPastIsPast(p: Plan, now: int)
    requires LongPast(p, now)
    ensures DueAt(p, now, 0) < now
  {
    var back := (now + LEAST_INT64) / DAY;
    DayBounds(now + LEAST_INT64);
    MidnightPlus(back, MAX_DAYS);
  }

  /** A served forecast shows some job after the first. */
  ghost predicate ShowsAnother(p: Plan, now: int, from: int, to: int) {
    Served(p, now, from, to).Ok? && exists k: nat :: k > 0 && ProjectionAt(p, now, k) in Served(p, now, from, to).value
  }

  /** Some forecast shows a job after the first if and only if an hours interval fits
      in 64 bits, or the first job is nearly 292 years overdue. */
  lemma AnotherJobIsShownExactly(p: Plan, now: int)
    requires p.Active()
    ensures (exists from, to :: ShowsAnother(p, now, from, to)) <==> p.Fits() || LongPast(p, now)
  {
    if p.Fits() || LongPast(p, now) {
      var from, to := SecondIsServed(p, now);
      assert ShowsAnother(p, now, from, to);
    } else {
      forall from, to ensures !ShowsAnother(p, now, from, to) {
        if Served(p, now, from, to).Ok? {
          OverflowServesOneJob(p, now, from, to);
          forall k: nat | k > 0 ensures ProjectionAt(p, now, k) != ProjectionAt(p, now, 0) {
            DatesFallBack(p, now, k);
            MulMono(1, k, -LEAST_INT64);
          }
        }
      }
    }
  }

  /** Every forecast is in date order with exactly the past dates flagged, whether or
      not an hours interval fits, unless it does not and the first job is nearly
      292 years overdue. */
  lemma ForecastsAreSoundExactly(p: Plan, now: int)
    requires p.Active()
    ensures (forall from, to :: Served(p, now, from, to).Ok? ==> Sound(Served(p, now, from, to).value, now))
       <==> p.Fits() || !LongPast(p, now)
  {
    if p.Fits() || !LongPast(p, now) {
      forall from, to | Served(p, now, from, to).Ok? ensures Sound(Served(p, now, from, to).value, now) {
        var first, last := Midnight(from / DAY), LastSecond(to / DAY);
        if p.Fits() {
          ListingInOrder(p, now, first, last, Reach(p, now, last, 0));
        } else {
          OverflowServesOneJob(p, now, from, to);
        }
      }
    } else {
      var from, to := SecondIsServed(p, now);
      DatesFallBack(p, now, 1);
      LongPastIsPast(p, now);
      var q := ProjectionAt(p, now, 1);
      assert q.at < now && !q.overdue;
      assert !Sound(Served(p, now, from, to).value, now);
    }
  }

  /** A first job is that long overdue when the hours left do not fit: every forecast
      then shows it, dated 292 years before the meter was read. */
  lemma PhantomJobIsServed(p: Plan, now: int, readAt: int, left: real, rate: real, from: int, to: int)
    requires left >= 0.0 && rate > 0.0 && left * DAY as real >= TWO63 * rate && readAt <= now
    requires p.ByHours() && p.hoursFirst == FirstByHours(readAt, left, rate) && (p.ByDays() ==> p.next > p.hoursFirst)
    requires Served(p, now, from, to).Ok? && p.hoursFirst <= LastSecond(to / DAY)
    ensures Projection(readAt + LEAST_INT64, Hours, true) in Served(p, now, from, to).value
  {
    FirstByHoursBeforeReading(readAt, left, rate);
    IsReturned(p, now, Midnight(from / DAY), LastSecond(to / DAY), 0);
  }

  // ---------------------------------------------------------------------------
  // What is lost
  // ---------------------------------------------------------------------------

  /** The schedule by its days alone. */
  function DaysAlone(p: Plan): Plan { p.(hoursDays := 0.0) }

  /** A plan by days whose hours interval does not fit loses every job that its days
      alone would show, but for the first. */
  lemma JobsByDaysAreLost(p: Plan, now: int, from: int, to: int, q: Projection)
    requires p.ByDays() && !p.Fits() && !LongPast(p, now) && Served(p, now, from, to).Ok?
    requires q in Served(DaysAlone(p), now, from, to).value
    ensures q in Served(p, now, from, to).value <==> q == ProjectionAt(p, now, 0)
  {
    OverflowServesOneJob(p, now, from, to);
    if q == ProjectionAt(p, now, 0) {
      var first, last := Midnight(from / DAY), LastSecond(to / DAY);
      ListingInOrder(DaysAlone(p), now, first, last, Reach(DaysAlone(p), now, last, 0));
      IsReturned(p, now, first, last, 0);
    }
  }

  lemma {:induction false} DaysOnTime(p: Plan, now: int, k: nat)
    requires p.ByDays() && !p.ByHours() && p.next >= now
    ensures DueAt(p, now, k) == p.next + k * (p.intervalDays * DAY) >= now && BasisOf(p, CalendarAt(p, now, k)) == Days
    decreases k
  {
    var d := p.intervalDays * DAY;
    if k > 0 {
      DaysOnTime(p, now, k - 1);
      MulMono(0, k, d);
      assert k * d == (k - 1) * d + d;
      assert DoneAt(p, now, k - 1) == DueAt(p, now, k - 1);
      AheadOneInterval(DueAt(p, now, k - 1), d);
    }
  }

  /** An ordinary input that does not fit: every 500 running hours, on a machine that
      ran a tenth of an hour in 30 days. Its days alone show a job tomorrow and one
      each month, 13 more within the 400 days; with the hours only the first is left. */
  lemma IdleMachineForecast(now: int, k: nat)
    requires 1 <= k <= 13
    ensures var p, to := Plan(now + DAY, 30, true, now + 5 * DAY, 500.0 / (0.1 / 30.0)), now + (MAX_DAYS - 1) * DAY;
      && Served(p, now, now, to) == Ok([Projection(now + DAY, Days, false)])
      && Served(DaysAlone(p), now, now, to).Ok?
      && Projection(now + DAY + k * 30 * DAY, Days, false) in Served(DaysAlone(p), now, now, to).value
  {
    var p, to := Plan(now + DAY, 30, true, now + 5 * DAY, 500.0 / (0.1 / 30.0)), now + (MAX_DAYS - 1) * DAY;
    assert p.hoursDays == 150_000.0;
    IdleServesOne(p, now, to);
    MonthlyJob(DaysAlone(p), now, to, k);
  }

  lemma IdleServesOne(p: Plan, now: int, to: int)
    requires p == Plan(now + DAY, 30, true, now + 5 * DAY, 150_000.0) && to == now + (MAX_DAYS - 1) * DAY
    ensures Served(p, now, now, to) == Ok([Projection(now + DAY, Days, false)])
  {
    YearAhead(p, now, to);
    IsReturned(p, now, Midnight(now / DAY), LastSecond(to / DAY), 0);
    OverflowServesOneJob(p, now, now, to);
  }

  /** 400 days from today on are served, and show what is due within 399 days. */
  lemma YearAhead(p: Plan, now: int, to: int)
    requires to == now + (MAX_DAYS - 1) * DAY
    ensures Served(p, now, now, to).Ok? && Midnight(now / DAY) <= now && LastSecond(to / DAY) > to - SECOND
    ensures DueAt(p, now, 0) >= now ==> !LongPast(p, now)
  {
    assert to / DAY == now / DAY + (MAX_DAYS - 1);
    ServedDays(p, now, now, to);
    DayBounds(now);
    DayBounds(to);
    if LongPast(p, now) { LongPastIsPast(p, now); }
  }

  lemma MonthlyDate(p: Plan, now: int, k: nat)
    requires p.next == now + DAY && p.intervalDays == 30 && !p.ByHours() && k <= 13
    ensures ProjectionAt(p, now, k) == Projection(now + DAY + k * 30 * DAY, Days, false)
    ensures now < DueAt(p, now, k) <= now + 391 * DAY
  {
    DaysOnTime(p, now, k);
    Months(k);
  }

  lemma Months(k: nat)
    requires k <= 13
    ensures k * (30 * DAY) == k * 30 * DAY && 0 <= k * 30 * DAY <= 390 * DAY
  {
    MulMono(k * 30, 390, DAY);
    MulMono(0, k * 30, DAY);
  }

  lemma MonthlyJob(p: Plan, now: int, to: int, k: nat)
    requires p.next == now + DAY && p.intervalDays == 30 && !p.ByHours() && 1 <= k <= 13
    requires to == now + (MAX_DAYS - 1) * DAY
    ensures Served(p, now, now, to).Ok?
    ensures Projection(now + DAY + k * 30 * DAY, Days, false) in Served(p, now, now, to).value
  {
    YearAhead(p, now, to);
    var first, last := Midnight(now / DAY), LastSecond(to / DAY);
    forall i: nat | i <= k ensures DueAt(p, now, i) <= last { MonthlyDate(p, now, i); }
    MonthlyDate(p, now, k);
    IsReturned(p, now, first, last, k);
  }
}
