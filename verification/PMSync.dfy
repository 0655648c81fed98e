/**
  The preventive-maintenance sync (internal/jobs/preventive_maintenance.go)
  under its advisory lock (internal/store/advisory_lock.go): first any number
  of runs interleaved with each other and with the floor, then one run's program.
 */
module PMSync {
  import opened Wrappers

  /** A work order raised for a preventive schedule. It is live until completed,
      cancelled or deleted. */
  datatype Order = Order(schedule: nat, live: bool)

  ghost predicate AtMostOneLive(orders: seq<Order>) {
    forall a, b :: 0 <= a < b < |orders| && orders[a].live && orders[b].live ==>
      orders[a].schedule != orders[b].schedule
  }

  /** HasOpenWorkOrderForPMSchedule. */
  predicate HasOpen(orders: seq<Order>, schedule: nat) {
    exists k :: 0 <= k < |orders| && orders[k].schedule == schedule && orders[k].live
  }

  // ---------------------------------------------------------------------------
  // Concurrent runs
  // ---------------------------------------------------------------------------

  /** A run of the sync: not started, with schedules still to look at (those of
      the date loop, then those of the meter loop), or about to insert an order
      for a schedule it found without one. */
  datatype Runner = Idle | Looking(todo: seq<nat>) | Raising(schedule: nat, todo: seq<nat>)

  /** `adrift` are inserts under way that no lock guards: those of runs that died
      before they were answered, for the lock went with its connection and the insert
      travels on another one, those that a run gave up waiting for, and those of
      others who raise orders for schedules. */
  datatype World = World(holder: Option<nat>, runners: seq<Runner>, orders: seq<Order>, adrift: seq<nat>)

  datatype Step =
    /** pg_try_advisory_lock, then the schedules the run will consider. */
    | TryLock(r: nat, todo: seq<nat>)
    /** The open-order check of the next schedule; `ok` is false on a query error. */
    | Check(r: nat, ok: bool)
    /** The insert; `ok` is false when it fails. */
    | Insert(r: nat, ok: bool)
    /** The insert is not answered in time: the run goes on, and it may land later. */
    | GiveUp(r: nat)
    /** The run ends, normally or with an error. */
    | Unlock(r: nat)
    /** Its process dies, at any point. */
    | Die(r: nat)
    /** Someone setting the jobs of a shutdown, without the lock, finds no order for
        a schedule and is about to raise one. */
    | Elsewhere(schedule: nat)
    /** An insert that is adrift takes effect. */
    | Land(i: nat)
    /** Someone completes, cancels or deletes an order, or reopens it. */
    | Finish(order: nat)
    | Reopen(order: nat)

  function Start(n: nat): World {
    World(None, seq(n, _ => Idle), [], [])
  }

  /** A run is over, and its lock free. */
  function Freed(w: World, r: nat): World
    requires r < |w.runners|
  {
    w.(runners := w.runners[r := Idle], holder := if w.holder == Some(r) then None else w.holder)
  }

  /** One step. Without `locking` every run may start. */
  function Next(w: World, step: Step, locking: bool): World {
    match step
    case TryLock(r, todo) =>
      if r >= |w.runners| || !w.runners[r].Idle? || (locking && w.holder.Some?) then w
      else w.(holder := if locking then Some(r) else w.holder, runners := w.runners[r := Looking(todo)])
    case Check(r, ok) =>
      if r >= |w.runners| || !w.runners[r].Looking? || w.runners[r].todo == [] then w
      else
        var sch, rest := w.runners[r].todo[0], w.runners[r].todo[1..];
        w.(runners := w.runners[r := if !ok || HasOpen(w.orders, sch) then Looking(rest) else Raising(sch, rest)])
    case Insert(r, ok) =>
      if r >= |w.runners| || !w.runners[r].Raising? then w
      else w.(runners := w.runners[r := Looking(w.runners[r].todo)],
              orders := if ok then w.orders + [Order(w.runners[r].schedule, true)] else w.orders)
    case GiveUp(r) =>
      if r >= |w.runners| || !w.runners[r].Raising? then w
      else w.(runners := w.runners[r := Looking(w.runners[r].todo)], adrift := w.adrift + [w.runners[r].schedule])
    case Unlock(r) =>
      if r >= |w.runners| || w.runners[r].Raising? then w else Freed(w, r)
    case Die(r) =>
      if r >= |w.runners| then w
      else Freed(w, r).(adrift := if w.runners[r].Raising? then w.adrift + [w.runners[r].schedule] else w.adrift)
    case Elsewhere(sch) =>
      if HasOpen(w.orders, sch) then w else w.(adrift := w.adrift + [sch])
    case Land(i) =>
      if i >= |w.adrift| then w
      else w.(adrift := w.adrift[..i] + w.adrift[i + 1..], orders := w.orders + [Order(w.adrift[i], true)])
    case Finish(k) =>
      if k >= |w.orders| then w else w.(orders := w.orders[k := w.orders[k].(live := false)])
    case Reopen(k) =>
      if k >= |w.orders| then w else w.(orders := w.orders[k := w.orders[k].(live := true)])
  }

  function Run(w: World, steps: seq<Step>, locking: bool): World
    decreases |steps|
  {
    if steps == [] then w else Next(Run(w, steps[..|steps| - 1], locking), steps[|steps| - 1], locking)
  }

  /** A run in progress holds the lock, and what it is about to raise is missing. */
  ghost predicate Inv(w: World) {
    && AtMostOneLive(w.orders)
    && (forall r :: 0 <= r < |w.runners| ==> w.runners[r].Idle? || w.holder == Some(r))
    && (forall r :: 0 <= r < |w.runners| && w.runners[r].Raising? ==> !HasOpen(w.orders, w.runners[r].schedule))
  }

  lemma FinishKeepsInv(w: World, k: nat)
    requires Inv(w) && k < |w.orders|
    ensures Inv(Next(w, Finish(k), true))
  {
    var o := w.orders[k := w.orders[k].(live := false)];
    forall sch | HasOpen(o, sch) ensures HasOpen(w.orders, sch) {
      var j :| 0 <= j < |o| && o[j].schedule == sch && o[j].live;
      assert w.orders[j].schedule == sch && w.orders[j].live;
    }
  }

  lemma OneMoreLive(orders: seq<Order>, schedule: nat)
    requires AtMostOneLive(orders)
    ensures AtMostOneLive(orders + [Order(schedule, true)]) <==> !HasOpen(orders, schedule)
    ensures forall sch :: HasOpen(orders + [Order(schedule, true)], sch) ==> sch == schedule || HasOpen(orders, sch)
  {
    var more := orders + [Order(schedule, true)];
    if HasOpen(orders, schedule) {
      var k :| 0 <= k < |orders| && orders[k].schedule == schedule && orders[k].live;
      assert more[k] == orders[k] && more[|orders|] == Order(schedule, true);
    }
    forall sch | HasOpen(more, sch) && sch != schedule ensures HasOpen(orders, sch) {
      var k :| 0 <= k < |more| && more[k].schedule == sch && more[k].live;
      assert orders[k] == more[k];
    }
  }

  /** The schedule has no live order, and no run is about to raise one. */
  ghost predicate Bare(w: World, schedule: nat) {
    && !HasOpen(w.orders, schedule)
    && forall r :: 0 <= r < |w.runners| && w.runners[r].Raising? ==> w.runners[r].schedule != schedule
  }

  /** An insert that lands, or an order reopened, in time. */
  ghost predicate Timely(w: World, step: Step) {
    match step
    case Land(i) => i < |w.adrift| ==> Bare(w, w.adrift[i])
    case Reopen(k) => k < |w.orders| && !w.orders[k].live ==> Bare(w, w.orders[k].schedule)
    case _ => true
  }

  lemma OneLiveAgain(orders: seq<Order>, k: nat)
    requires AtMostOneLive(orders) && k < |orders| && !orders[k].live
    ensures var again := orders[k := orders[k].(live := true)];
      && (AtMostOneLive(again) <==> !HasOpen(orders, orders[k].schedule))
      && forall sch :: HasOpen(again, sch) ==> sch == orders[k].schedule || HasOpen(orders, sch)
  {
    var again := orders[k := orders[k].(live := true)];
    if HasOpen(orders, orders[k].schedule) {
      var j :| 0 <= j < |orders| && orders[j].schedule == orders[k].schedule && orders[j].live;
      assert again[j] == orders[j] && again[k].live && j != k;
    }
    forall sch | HasOpen(again, sch) && sch != orders[k].schedule ensures HasOpen(orders, sch) {
      var j :| 0 <= j < |again| && again[j].schedule == sch && again[j].live;
      assert orders[j] == again[j];
    }
  }

  /** A finished order reopened is a second live one exactly when there is one already. */
  lemma ReopenedExactly(w: World, k: nat)
    requires AtMostOneLive(w.orders) && k < |w.orders| && !w.orders[k].live
    ensures AtMostOneLive(Next(w, Reopen(k), true).orders) <==> !HasOpen(w.orders, w.orders[k].schedule)
  {
    OneLiveAgain(w.orders, k);
  }

  /** A late insert makes a second live order exactly when one is there already. */
  lemma LateInsertExactly(w: World, i: nat)
    requires AtMostOneLive(w.orders) && i < |w.adrift|
    ensures AtMostOneLive(Next(w, Land(i), true).orders) <==> !HasOpen(w.orders, w.adrift[i])
  {
    OneMoreLive(w.orders, w.adrift[i]);
  }

  lemma StepKeepsInv(w: World, step: Step)
    requires Inv(w) && Timely(w, step)
    ensures Inv(Next(w, step, true))
  {
    match step
    case Finish(k) => if k < |w.orders| { FinishKeepsInv(w, k); }
    case Insert(r, ok) => if r < |w.runners| && w.runners[r].Raising? { OneMoreLive(w.orders, w.runners[r].schedule); }
    case Land(i) => if i < |w.adrift| { OneMoreLive(w.orders, w.adrift[i]); }
    case Reopen(k) => if k < |w.orders| && !w.orders[k].live { OneLiveAgain(w.orders, k); }
    case Elsewhere(_) =>
    case GiveUp(_) =>
    case TryLock(_, _) =>
    case Check(_, _) =>
    case Unlock(_) =>
    case Die(_) =>
  }

  ghost predicate AllTimely(w: World, steps: seq<Step>)
    decreases |steps|
  {
    || steps == []
    || (AllTimely(w, steps[..|steps| - 1]) && Timely(Run(w, steps[..|steps| - 1], true), steps[|steps| - 1]))
  }

  /** However many runs start, stop and die while orders are raised, finished, deleted
      and reopened around them, no schedule ever has two live work orders, as long
      as nothing unguarded by the lock, an insert or a reopened order, lands beside
      a live order or a run about to raise one. */
  lemma {:induction false} NeverTwoLiveOrders(n: nat, steps: seq<Step>)
    requires AllTimely(Start(n), steps)
    ensures Inv(Run(Start(n), steps, true)) && AtMostOneLive(Run(Start(n), steps, true).orders)
    decreases |steps|
  {
    if steps != [] {
      NeverTwoLiveOrders(n, steps[..|steps| - 1]);
      StepKeepsInv(Run(Start(n), steps[..|steps| - 1], true), steps[|steps| - 1]);
    }
  }

  lemma RunOne(w: World, steps: seq<Step>, step: Step, locking: bool)
    ensures Run(w, steps + [step], locking) == Next(Run(w, steps, locking), step, locking)
  {
    assert (steps + [step])[..|steps|] == steps;
  }

  lemma Continue(w: World, steps: seq<Step>, step: Step, next: World, locking: bool) returns (more: seq<Step>)
    requires Next(Run(w, steps, locking), step, locking) == next
    ensures Run(w, more, locking) == next && more == steps + [step]
  {
    more := steps + [step];
    RunOne(w, steps, step, locking);
  }

  /** The check of a schedule without orders. */
  lemma FindsNone(w: World, r: nat, schedule: nat, locking: bool)
    requires r < |w.runners| && w.runners[r] == Looking([schedule]) && w.orders == []
    ensures Next(w, Check(r, true), locking) == w.(runners := w.runners[r := Raising(schedule, [])])
  {
    assert [schedule][1..] == [];
  }

  /** Only a run in progress holds the lock, and a run in progress holds it. */
  lemma {:induction false} LockIsOfTheRun(n: nat, steps: seq<Step>)
    ensures var w := Run(Start(n), steps, true);
      && |w.runners| == n
      && (forall r :: 0 <= r < n ==> (w.runners[r] != Idle <==> w.holder == Some(r)))
      && (w.holder.Some? ==> w.holder.value < n)
    decreases |steps|
  {
    if steps != [] {
      LockIsOfTheRun(n, steps[..|steps| - 1]);
    }
  }

  /** Whatever happened, the lock never stays behind: if a run is in the way it ends or
      dies, and the next one raises the order that a schedule lacks. */
  lemma EveryScheduleCanBeServed(n: nat, steps: seq<Step>, schedule: nat) returns (more: seq<Step>)
    requires n > 0
    ensures steps <= more && |more| <= |steps| + 4
    ensures exists k :: 0 <= k < |Run(Start(n), more, true).orders|
                        && Run(Start(n), more, true).orders[k] == Order(schedule, true)
  {
    LockIsOfTheRun(n, steps);
    var w := Run(Start(n), steps, true);
    more := if w.holder.Some? then steps + [Die(w.holder.value)] else steps;
    if w.holder.Some? { RunOne(Start(n), steps, Die(w.holder.value), true); }
    LockIsOfTheRun(n, more);
    var free := Run(Start(n), more, true);
    var looking := free.(holder := Some(0), runners := free.runners[0 := Looking([schedule])]);
    more := Continue(Start(n), more, TryLock(0, [schedule]), looking, true);
    more := Continue(Start(n), more, Check(0, true), Next(looking, Check(0, true), true), true);
    if HasOpen(free.orders, schedule) {
      var k :| 0 <= k < |free.orders| && free.orders[k].schedule == schedule && free.orders[k].live;
      assert Run(Start(n), more, true).orders[k] == Order(schedule, true);
    } else {
      var raising := Next(looking, Check(0, true), true);
      more := Continue(Start(n), more, Insert(0, true), Next(raising, Insert(0, true), true), true);
      assert Run(Start(n), more, true).orders[|free.orders|] == Order(schedule, true);
    }
  }

  /** An insert is adrift, a run finds no order and raises one, and then the insert
      lands, lock or no lock. */
  lemma LandsLate(w0: World, before: seq<Step>, schedule: nat) returns (steps: seq<Step>)
    requires Run(w0, before, true) == World(None, [Idle], [], [schedule])
    ensures !AtMostOneLive(Run(w0, steps, true).orders)
  {
    var o, raising, done := Order(schedule, true), Raising(schedule, []), Looking([]);
    var w := World(Some(0), [Looking([schedule])], [], [schedule]);
    steps := Continue(w0, before, TryLock(0, [schedule]), w, true);
    FindsNone(w, 0, schedule, true);
    steps := Continue(w0, steps, Check(0, true), w.(runners := [raising]), true);
    steps := Continue(w0, steps, Insert(0, true), World(Some(0), [done], [o], [schedule]), true);
    steps := Continue(w0, steps, Land(0), World(Some(0), [done], [o, o], []), true);
    assert [o, o][0].live && [o, o][1].live;
  }

  /** The condition is needed: a run can die with its insert under way. */
  lemma DeadRunsInsertLandsLate(schedule: nat) returns (steps: seq<Step>)
    ensures !AtMostOneLive(Run(Start(1), steps, true).orders)
  {
    var w0, w := Start(1), World(Some(0), [Looking([schedule])], [], []);
    assert w0 == World(None, [Idle], [], []);
    steps := Continue(w0, [], TryLock(0, [schedule]), w, true);
    FindsNone(w, 0, schedule, true);
    steps := Continue(w0, steps, Check(0, true), w.(runners := [Raising(schedule, [])]), true);
    steps := Continue(w0, steps, Die(0), World(None, [Idle], [], [schedule]), true);
    steps := LandsLate(w0, steps, schedule);
  }

  /** And the jobs of a shutdown can be set beside a run: both raise the order. */
  lemma JobsBesideARun(schedule: nat) returns (steps: seq<Step>)
    ensures !AtMostOneLive(Run(Start(1), steps, true).orders)
  {
    assert Start(1) == World(None, [Idle], [], []);
    steps := Continue(Start(1), [], Elsewhere(schedule), World(None, [Idle], [], [schedule]), true);
    steps := LandsLate(Start(1), steps, schedule);
  }

  /** The lock is what prevents it: without it two runs check before either inserts. */
  lemma TwoLiveOrdersWithoutTheLock(schedule: nat) returns (steps: seq<Step>)
    ensures !AtMostOneLive(Run(Start(2), steps, false).orders)
  {
    var w0, o := Start(2), Order(schedule, true);
    var looking, raising, done := Looking([schedule]), Raising(schedule, []), Looking([]);
    var w2 := World(None, [looking, looking], [], []);
    var w3 := w2.(runners := [raising, looking]);
    assert w0 == World(None, [Idle, Idle], [], []);
    steps := Continue(w0, [], TryLock(0, [schedule]), World(None, [looking, Idle], [], []), false);
    steps := Continue(w0, steps, TryLock(1, [schedule]), w2, false);
    FindsNone(w2, 0, schedule, false);
    steps := Continue(w0, steps, Check(0, true), w3, false);
    FindsNone(w3, 1, schedule, false);
    steps := Continue(w0, steps, Check(1, true), w3.(runners := [raising, raising]), false);
    steps := Continue(w0, steps, Insert(0, true), World(None, [done, raising], [o], []), false);
    steps := Continue(w0, steps, Insert(1, true), World(None, [done, done], [o, o], []), false);
    assert [o, o][0].live && [o, o][1].live;
  }

  // ---------------------------------------------------------------------------
  // One run
  // ---------------------------------------------------------------------------

  const DAY: int := 24 * 3600 * 1_000_000_000

  datatype Status = Scheduled | Overdue | Completed

  /** How far a schedule is through its running-hours interval, if it has one. */
  datatype Meter = NoMeter | NoReading | Fine | DueSoon | DueNow

  datatype Schedule = Schedule(nextDueAt: int, status: Status, meter: Meter)

  /** SyncPMScheduleStatuses. */
  function Flagged(s: Schedule, now: int): Schedule {
    if s.status == Scheduled && s.nextDueAt < now then s.(status := Overdue) else s
  }

  predicate DueByDate(s: Schedule, now: int) {
    s.nextDueAt <= now + DAY || s.status == Overdue
  }

  predicate DueByMeter(s: Schedule) {
    s.meter == DueNow || s.meter == DueSoon
  }

  predicate RunOut(s: Schedule) {
    s.meter == DueNow && s.status == Scheduled
  }

  /** Due by either loop. */
  predicate Wanted(s: Schedule, now: int) {
    DueByDate(s, now) || DueByMeter(s)
  }

  function RaiseIf(wanted: bool, orders: seq<Order>, k: nat): seq<Order> {
    if wanted && !HasOpen(orders, k) then orders + [Order(k, true)] else orders
  }

  /** The orders once the date loop has looked at the first `k` schedules.
      Raising an order for a schedule in `fails` goes wrong in this run. */
  function DateOrders(schs: seq<Schedule>, orders: seq<Order>, now: int, fails: set<nat>, k: nat): seq<Order>
    requires k <= |schs|
  {
    if k == 0 then orders
    else RaiseIf(DueByDate(schs[k - 1], now) && k - 1 !in fails, DateOrders(schs, orders, now, fails, k - 1), k - 1)
  }

  function MeterOrders(schs: seq<Schedule>, orders: seq<Order>, fails: set<nat>, k: nat): seq<Order>
    requires k <= |schs|
  {
    if k == 0 then orders
    else RaiseIf(DueByMeter(schs[k - 1]) && k - 1 !in fails, MeterOrders(schs, orders, fails, k - 1), k - 1)
  }

  function FlagAll(schs: seq<Schedule>, now: int): (r: seq<Schedule>)
    ensures |r| == |schs|
  {
    seq(|schs|, k requires 0 <= k < |schs| => Flagged(schs[k], now))
  }

  /** The schedules after a run: past their date, or out of running hours. */
  function Settled(schs: seq<Schedule>, now: int): (r: seq<Schedule>)
    ensures |r| == |schs|
  {
    seq(|schs|, k requires 0 <= k < |schs| =>
      if RunOut(Flagged(schs[k], now)) then schs[k].(status := Overdue) else Flagged(schs[k], now))
  }

  /** A schedule after runs at these times: overdue if it was, or if it was scheduled and,
      at one of them, past its date or out of running hours; and otherwise as it was. */
  ghost predicate OverdueOnly(was: Schedule, s: Schedule, times: seq<int>) {
    && (s.status == Overdue <==>
          || was.status == Overdue
          || (was.status == Scheduled && exists t :: t in times && (was.nextDueAt < t || was.meter == DueNow)))
    && (s.status == Overdue || s.status == was.status)
    && s.nextDueAt == was.nextDueAt && s.meter == was.meter
  }

  function SettledOver(schs: seq<Schedule>, times: seq<int>): (r: seq<Schedule>)
    ensures |r| == |schs|
  {
    if times == [] then schs else Settled(SettledOver(schs, times[..|times| - 1]), times[|times| - 1])
  }

  lemma OverdueAgain(was: Schedule, mid: Schedule, s: Schedule, before: seq<int>, now: int)
    requires OverdueOnly(was, mid, before) && s == Settled([mid], now)[0]
    ensures OverdueOnly(was, s, before + [now])
  {
    forall t ensures t in before + [now] <==> t in before || t == now {}
    assert now in before + [now];
  }

  /** Runs leave exactly those schedules overdue, and no other changed in any way. */
  lemma {:induction false} OverdueExactly(schs: seq<Schedule>, times: seq<int>)
    ensures forall k :: 0 <= k < |schs| ==> OverdueOnly(schs[k], SettledOver(schs, times)[k], times)
    decreases |times|
  {
    if times != [] {
      var before, now := times[..|times| - 1], times[|times| - 1];
      OverdueExactly(schs, before);
      assert times == before + [now];
      forall k | 0 <= k < |schs| ensures OverdueOnly(schs[k], SettledOver(schs, times)[k], times) {
        OverdueAgain(schs[k], SettledOver(schs, before)[k], SettledOver(schs, times)[k], before, now);
      }
    }
  }

  /** The orders after a run. */
  function SyncedOrders(schs: seq<Schedule>, orders: seq<Order>, now: int, fails: set<nat>): seq<Order> {
    var f := FlagAll(schs, now);
    MeterOrders(f, DateOrders(f, orders, now, fails, |f|), fails, |f|)
  }

  /** How many schedules differ. */
  ghost function Changed(a: seq<Schedule>, b: seq<Schedule>): nat
    requires |a| == |b|
  {
    if a == [] then 0 else (if a[0] != b[0] then 1 else 0) + Changed(a[1..], b[1..])
  }

  lemma {:induction false} NothingChanged(a: seq<Schedule>)
    ensures Changed(a, a) == 0
    decreases |a|
  {
    if a != [] { NothingChanged(a[1..]); }
  }

  lemma {:induction false} ChangeOne(a: seq<Schedule>, b: seq<Schedule>, i: nat, s: Schedule)
    requires |a| == |b| && i < |a| && a[i] == b[i] != s
    ensures Changed(a, b[i := s]) == Changed(a, b) + 1
    decreases |a|
  {
    if i == 0 {
      assert b[i := s][1..] == b[1..];
    } else {
      assert b[i := s][1..] == b[1..][i - 1 := s];
      ChangeOne(a[1..], b[1..], i - 1, s);
    }
  }

  /** The store as one run sees it: schedules in listing order. */
  class Store {
    var schedules: seq<Schedule>
    var orders: seq<Order>

    constructor (schs: seq<Schedule>, wos: seq<Order>)
      ensures schedules == schs && orders == wos
    {
      schedules, orders := schs, wos;
    }

    method SyncStatuses(now: int) returns (overdue: nat)
      modifies this`schedules
      ensures schedules == FlagAll(old(schedules), now)
      ensures overdue == Changed(old(schedules), schedules)
    {
      overdue := 0;
      ghost var was := schedules;
      var i := 0;
      NothingChanged(was);
      while i < |schedules|
        invariant 0 <= i <= |schedules| == |was|
        invariant forall k :: 0 <= k < i ==> schedules[k] == Flagged(was[k], now)
        invariant forall k :: i <= k < |was| ==> schedules[k] == was[k]
        invariant overdue == Changed(was, schedules)
      {
        if schedules[i].status == Scheduled && schedules[i].nextDueAt < now {
          ChangeOne(was, schedules, i, schedules[i].(status := Overdue));
          schedules := schedules[i := schedules[i].(status := Overdue)];
          overdue := overdue + 1;
        }
        i := i + 1;
      }
    }

    /** The date loop. */
    method RaiseByDate(snapshot: seq<Schedule>, now: int, fails: set<nat>) returns (created: nat)
      modifies this`orders
      ensures orders == DateOrders(snapshot, old(orders), now, fails, |snapshot|)
      ensures |orders| == |old(orders)| + created
    {
      created := 0;
      var i := 0;
      while i < |snapshot|
        invariant 0 <= i <= |snapshot|
        invariant orders == DateOrders(snapshot, old(orders), now, fails, i)
        invariant |orders| == |old(orders)| + created
      {
        var k := i;
        i := i + 1;
        if snapshot[k].nextDueAt > now + DAY && snapshot[k].status != Overdue {
          continue;
        }
        if k in fails || HasOpen(orders, k) {
          continue;
        }
        orders := orders + [Order(k, true)];
        created := created + 1;
      }
    }

    /** The meter loop, on the same snapshot of the schedules. */
    method RaiseByMeter(snapshot: seq<Schedule>, ghost first: seq<Schedule>, now: int, fails: set<nat>)
      returns (created: nat, overdue: nat)
      requires schedules == snapshot == FlagAll(first, now)
      modifies this
      ensures schedules == Settled(first, now)
      ensures Changed(first, schedules) == Changed(first, snapshot) + overdue
      ensures orders == MeterOrders(snapshot, old(orders), fails, |snapshot|)
      ensures |orders| == |old(orders)| + created
    {
      created, overdue := 0, 0;
      var i := 0;
      while i < |snapshot|
        invariant 0 <= i <= |snapshot| == |schedules| == |first|
        invariant forall k :: 0 <= k < i ==> schedules[k] == Settled(first, now)[k]
        invariant forall k :: i <= k < |snapshot| ==> schedules[k] == snapshot[k]
        invariant Changed(first, schedules) == Changed(first, snapshot) + overdue
        invariant orders == MeterOrders(snapshot, old(orders), fails, i)
        invariant |orders| == |old(orders)| + created
      {
        var k := i;
        i := i + 1;
        if snapshot[k].meter != DueNow && snapshot[k].meter != DueSoon {
          continue;
        }
        if snapshot[k].meter == DueNow && snapshot[k].status == Scheduled {
          ChangeOne(first, schedules, k, schedules[k].(status := Overdue));
          schedules := schedules[k := schedules[k].(status := Overdue)];
          overdue := overdue + 1;
        }
        if k in fails || HasOpen(orders, k) {
          continue;
        }
        orders := orders + [Order(k, true)];
        created := created + 1;
      }
    }

    /** syncPreventiveMaintenance. */
    method Sync(now: int, fails: set<nat>) returns (created: nat, overdue: nat)
      modifies this
      ensures schedules == Settled(old(schedules), now)
      ensures forall k :: 0 <= k < |schedules| ==> OverdueOnly(old(schedules)[k], schedules[k], [now])
      ensures orders == SyncedOrders(old(schedules), old(orders), now, fails)
      ensures |orders| == |old(orders)| + created
      ensures overdue == Changed(old(schedules), schedules)
    {
      overdue := SyncStatuses(now);
      var snapshot := schedules;
      created := RaiseByDate(snapshot, now, fails);
      var more, flagged := RaiseByMeter(snapshot, old(schedules), now, fails);
      created, overdue := created + more, overdue + flagged;
      OverdueExactly(old(schedules), [now]);
      assert [now][..0] == [] && SettledOver(old(schedules), [now]) == schedules;
    }
  }

  // ---------------------------------------------------------------------------
  // What one run achieves
  // ---------------------------------------------------------------------------

  /** `after` is `before` and one new live order for some of the schedules that
      `wanted` one and had none. */
  ghost predicate RaisedOnly(before: seq<Order>, after: seq<Order>, wanted: nat -> bool) {
    && before <= after
    && (forall j :: |before| <= j < |after| ==>
          after[j].live && wanted(after[j].schedule) && !HasOpen(before, after[j].schedule))
    && (forall i, j :: |before| <= i < j < |after| ==> after[i].schedule != after[j].schedule)
  }

  lemma HasOpenGrows(a: seq<Order>, b: seq<Order>, n: nat)
    requires a <= b && HasOpen(a, n)
    ensures HasOpen(b, n)
  {
    var j :| 0 <= j < |a| && a[j].schedule == n && a[j].live;
    assert b[j] == a[j];
  }

  lemma RaiseStep(before: seq<Order>, mid: seq<Order>, goal: nat -> bool, now: bool, k: nat)
    requires RaisedOnly(before, mid, goal) && (now ==> goal(k))
    ensures var after := RaiseIf(now, mid, k);
      RaisedOnly(before, after, goal) && mid <= after && (now ==> HasOpen(after, k))
  {
    var after := RaiseIf(now, mid, k);
    if now && !HasOpen(mid, k) {
      assert after[|mid|] == Order(k, true);
      forall j | 0 <= j < |before| && before[j].schedule == k ensures !before[j].live {
        assert mid[j] == before[j];
      }
      forall j | |before| <= j < |mid| ensures mid[j].schedule != k {
        assert mid[j].live;
      }
    }
  }

  /** What a run should raise for, unless raising fails: every schedule due within
      24 hours, overdue, or with its running hours used up or nearly so. */
  ghost function Goal(schs: seq<Schedule>, now: int, fails: set<nat>): nat -> bool {
    (k: nat) =>
      && k < |schs| && k !in fails
      && (|| schs[k].nextDueAt - now <= 86_400_000_000_000
          || schs[k].status == Overdue || schs[k].meter in {DueSoon, DueNow})
  }

  lemma {:induction false} DateLoop(schs: seq<Schedule>, orders: seq<Order>, now: int, fails: set<nat>, k: nat)
    requires k <= |schs|
    ensures var after := DateOrders(schs, orders, now, fails, k);
      && RaisedOnly(orders, after, Goal(schs, now, fails))
      && (forall n: nat :: n < k && DueByDate(schs[n], now) && n !in fails ==> HasOpen(after, n))
    decreases k
  {
    if k > 0 {
      DateLoop(schs, orders, now, fails, k - 1);
      var mid, after := DateOrders(schs, orders, now, fails, k - 1), DateOrders(schs, orders, now, fails, k);
      RaiseStep(orders, mid, Goal(schs, now, fails), DueByDate(schs[k - 1], now) && k - 1 !in fails, k - 1);
      forall n: nat | n < k - 1 && HasOpen(mid, n) ensures HasOpen(after, n) { HasOpenGrows(mid, after, n); }
    }
  }

  lemma {:induction false} MeterLoop(schs: seq<Schedule>, before: seq<Order>, orders: seq<Order>, now: int,
                                     fails: set<nat>, k: nat)
    requires k <= |schs| && RaisedOnly(before, orders, Goal(schs, now, fails))
    ensures var after := MeterOrders(schs, orders, fails, k);
      && RaisedOnly(before, after, Goal(schs, now, fails)) && orders <= after
      && (forall n: nat :: n < k && DueByMeter(schs[n]) && n !in fails ==> HasOpen(after, n))
    decreases k
  {
    if k > 0 {
      MeterLoop(schs, before, orders, now, fails, k - 1);
      var mid, after := MeterOrders(schs, orders, fails, k - 1), MeterOrders(schs, orders, fails, k);
      RaiseStep(before, mid, Goal(schs, now, fails), DueByMeter(schs[k - 1]) && k - 1 !in fails, k - 1);
      forall n: nat | n < k - 1 && HasOpen(mid, n) ensures HasOpen(after, n) { HasOpenGrows(mid, after, n); }
    }
  }

  /** A run raises exactly the missing orders: every schedule due within a day,
      overdue or due by running hours ends with a live order, and an order is
      raised only for such a schedule, only if it had none, and only once. */
  lemma SyncRaisesExactlyTheMissing(schs: seq<Schedule>, orders: seq<Order>, now: int, fails: set<nat>)
    ensures var after := SyncedOrders(schs, orders, now, fails);
      && RaisedOnly(orders, after, Goal(schs, now, fails))
      && (forall k: nat :: Goal(schs, now, fails)(k) ==> exists j :: 0 <= j < |after| && after[j] == Order(k, true))
      && (AtMostOneLive(orders) ==> AtMostOneLive(after))
  {
    var f := FlagAll(schs, now);
    var mid, after := DateOrders(f, orders, now, fails, |f|), SyncedOrders(schs, orders, now, fails);
    DateLoop(f, orders, now, fails, |f|);
    MeterLoop(f, orders, mid, now, fails, |f|);
    assert forall k: nat :: Goal(f, now, fails)(k) <==> Goal(schs, now, fails)(k);
    forall k: nat | Goal(schs, now, fails)(k) ensures exists j :: 0 <= j < |after| && after[j] == Order(k, true) {
      if DueByDate(f[k], now) { HasOpenGrows(mid, after, k); }
      var j :| 0 <= j < |after| && after[j].schedule == k && after[j].live;
      assert after[j] == Order(k, true);
    }
    if AtMostOneLive(orders) {
      forall a, b | 0 <= a < b < |after| && after[a].live && after[b].live
        ensures after[a].schedule != after[b].schedule
      {
        if a < |orders| <= b {
          assert orders[a] == after[a] && !HasOpen(orders, after[b].schedule);
        }
      }
    }
  }

  lemma {:induction false} NothingToRaise(schs: seq<Schedule>, orders: seq<Order>, now: int, fails: set<nat>, k: nat)
    requires k <= |schs|
    requires forall n: nat :: n < |schs| && Wanted(schs[n], now) ==> HasOpen(orders, n)
    ensures DateOrders(schs, orders, now, fails, k) == orders && MeterOrders(schs, orders, fails, k) == orders
    decreases k
  {
    if k > 0 {
      NothingToRaise(schs, orders, now, fails, k - 1);
    }
  }

  /** Fixed point: after a run without errors, another run on the same state at
      the same time changes no schedule and raises no order. */
  lemma SecondRunDoesNothing(schs: seq<Schedule>, orders: seq<Order>, now: int, fails: set<nat>)
    ensures var schs', orders' := Settled(schs, now), SyncedOrders(schs, orders, now, {});
      Settled(schs', now) == schs' && SyncedOrders(schs', orders', now, fails) == orders'
  {
    var schs', orders' := Settled(schs, now), SyncedOrders(schs, orders, now, {});
    SyncRaisesExactlyTheMissing(schs, orders, now, {});
    var f := FlagAll(schs', now);
    assert f == schs';
    forall n: nat | n < |f| && Wanted(f[n], now) ensures HasOpen(orders', n) {
      assert Goal(schs, now, {})(n);
      var j :| 0 <= j < |orders'| && orders'[j] == Order(n, true);
    }
    NothingToRaise(f, orders', now, fails, |f|);
  }

  /** The same, run as the program runs it. */
  method SyncTwice(st: Store, now: int) returns (created: nat, overdue: nat)
    modifies st
    ensures created == 0 && overdue == 0
    ensures st.orders == SyncedOrders(old(st.schedules), old(st.orders), now, {})
  {
    ghost var schs, orders := st.schedules, st.orders;
    created, overdue := st.Sync(now, {});
    SecondRunDoesNothing(schs, orders, now, {});
    ghost var settled := st.schedules;
    created, overdue := st.Sync(now, {});
    NothingChanged(settled);
  }

  // ---------------------------------------------------------------------------
  // One run is a run of the concurrent machine
  // ---------------------------------------------------------------------------

  function Process(orders: seq<Order>, todo: seq<nat>): seq<Order>
    decreases |todo|
  {
    if todo == [] then orders else Process(RaiseIf(true, orders, todo[0]), todo[1..])
  }

  lemma {:induction false} ProcessAppend(orders: seq<Order>, a: seq<nat>, b: seq<nat>)
    ensures Process(orders, a + b) == Process(Process(orders, a), b)
    decreases |a|
  {
    if a == [] {
      assert a + b == b;
    } else {
      ProcessAppend(RaiseIf(true, orders, a[0]), a[1..], b);
      assert (a + b)[1..] == a[1..] + b;
    }
  }

  /** The schedules the date loop, and then the meter loop, checks. */
  function DateTodo(schs: seq<Schedule>, now: int, fails: set<nat>, k: nat): seq<nat>
    requires k <= |schs|
  {
    if k == 0 then []
    else DateTodo(schs, now, fails, k - 1) + (if DueByDate(schs[k - 1], now) && k - 1 !in fails then [k - 1] else [])
  }

  function MeterTodo(schs: seq<Schedule>, fails: set<nat>, k: nat): seq<nat>
    requires k <= |schs|
  {
    if k == 0 then []
    else MeterTodo(schs, fails, k - 1) + (if DueByMeter(schs[k - 1]) && k - 1 !in fails then [k - 1] else [])
  }

  lemma {:induction false} DateTodoRaises(schs: seq<Schedule>, orders: seq<Order>, now: int, fails: set<nat>, k: nat)
    requires k <= |schs|
    ensures Process(orders, DateTodo(schs, now, fails, k)) == DateOrders(schs, orders, now, fails, k)
    decreases k
  {
    if k > 0 {
      DateTodoRaises(schs, orders, now, fails, k - 1);
      ProcessAppend(orders, DateTodo(schs, now, fails, k - 1), [k - 1]);
      assert DateTodo(schs, now, fails, k - 1) + [] == DateTodo(schs, now, fails, k - 1);
    }
  }

  lemma {:induction false} MeterTodoRaises(schs: seq<Schedule>, orders: seq<Order>, fails: set<nat>, k: nat)
    requires k <= |schs|
    ensures Process(orders, MeterTodo(schs, fails, k)) == MeterOrders(schs, orders, fails, k)
    decreases k
  {
    if k > 0 {
      MeterTodoRaises(schs, orders, fails, k - 1);
      ProcessAppend(orders, MeterTodo(schs, fails, k - 1), [k - 1]);
      assert MeterTodo(schs, fails, k - 1) + [] == MeterTodo(schs, fails, k - 1);
    }
  }

  /** One schedule checked and, if it has no live order, raised for. */
  lemma CheckThenInsert(w: World, todo: seq<nat>)
    requires w.runners == [Looking(todo)] && todo != []
    ensures Next(Next(w, Check(0, true), true), Insert(0, true), true)
         == World(w.holder, [Looking(todo[1..])], RaiseIf(true, w.orders, todo[0]), w.adrift)
  {}

  lemma RunTwo(start: World, steps: seq<Step>, a: Step, b: Step) returns (more: seq<Step>)
    ensures Run(start, more, true) == Next(Next(Run(start, steps, true), a, true), b, true)
  {
    more := steps + [a] + [b];
    RunOne(start, steps, a, true);
    RunOne(start, steps + [a], b, true);
  }

  lemma {:induction false} RunTodo(start: World, steps: seq<Step>, todo: seq<nat>) returns (more: seq<Step>)
    requires Run(start, steps, true).runners == [Looking(todo)]
    ensures var w := Run(start, steps, true);
      Run(start, more, true) == World(w.holder, [Looking([])], Process(w.orders, todo), w.adrift)
    decreases |todo|
  {
    more := steps;
    if todo != [] {
      CheckThenInsert(Run(start, steps, true), todo);
      var next := RunTwo(start, steps, Check(0, true), Insert(0, true));
      more := RunTodo(start, next, todo[1..]);
    }
  }

  /** What the program does to the orders is a run of the machine in which one
      runner takes the lock, checks and inserts through both loops, and unlocks. */
  lemma SyncIsARun(schs: seq<Schedule>, orders: seq<Order>, now: int, fails: set<nat>)
    ensures exists steps :: Run(World(None, [Idle], orders, []), steps, true)
                            == World(None, [Idle], SyncedOrders(schs, orders, now, fails), [])
  {
    var f, start := FlagAll(schs, now), World(None, [Idle], orders, []);
    var a, b := DateTodo(f, now, fails, |f|), MeterTodo(f, fails, |f|);
    DateTodoRaises(f, orders, now, fails, |f|);
    MeterTodoRaises(f, DateOrders(f, orders, now, fails, |f|), fails, |f|);
    ProcessAppend(orders, a, b);
    RunOne(start, [], TryLock(0, a + b), true);
    var steps := RunTodo(start, [] + [TryLock(0, a + b)], a + b);
    RunOne(start, steps, Unlock(0), true);
    assert Run(start, steps + [Unlock(0)], true).runners == [Idle];
  }
}
