/**
  When a stop began and ended, over every run: by the clock of the step that started
  it and of the last one that ended it, whether by hand (internal/store/cmms.go) or
  with its shutdown (internal/store/shutdown.go); and what the bus heard of it.
 */
module DowntimeTimes {
  import opened Wrappers
  import opened Text
  import opened Downtime
  import opened ShutdownModel
  import opened ShutdownRuns
  import opened ShutdownHeaders
  import opened ShutdownSafety

  // ---------------------------------------------------------------------------
  // What starts and ends a record
  // ---------------------------------------------------------------------------

  ghost predicate InPhase(s: State, code: string, phase: Phase) {
    exists i :: 0 <= i < |s.headers| && s.headers[i].code == code && s.headers[i].phase == phase
  }

  /** A scheduled record starts by its own start, or with its planned shutdown. */
  ghost predicate Starts(s: State, op: Op, k: nat) {
    && k < |s.stops| && s.stops[k].state == Scheduled
    && (|| (op.StartStop? && op.id == k)
        || (op.StartShutdown? && s.stops[k].shutdown == Some(op.code) && InPhase(s, op.code, Planned)))
  }

  /** An open record ends by its own end, which a closed one can have again, or with
      its shutdown in progress. */
  ghost predicate Ends(s: State, op: Op, k: nat) {
    && k < |s.stops|
    && (|| (op.EndStop? && op.id == k && s.stops[k].state in {Open, Closed})
        || (op.FinishShutdown? && s.stops[k].state == Open && s.stops[k].shutdown == Some(op.code)
            && InPhase(s, op.code, InProgress)))
  }

  // ---------------------------------------------------------------------------
  // One step
  // ---------------------------------------------------------------------------

  /** What one step does to the times and the events of a record. */
  ghost predicate Timed(s: State, op: Op, k: nat, d: Stop, t: Stop) {
    var heard := if s.bus then 1 else 0;
    if Starts(s, op, k) then t == d.(state := Open, startedAt := op.now, startedEvents := d.startedEvents + heard)
    else if Ends(s, op, k) then t == d.(state := Closed, endedAt := Some(op.now), endedEvents := d.endedEvents + heard)
    else Kept(d, t)
  }

  ghost predicate Kept(d: Stop, t: Stop) {
    && t.endedAt == d.endedAt && t.startedEvents == d.startedEvents && t.endedEvents == d.endedEvents
    && (if Begun(d) then t == d || t == d.(state := StopState.Deleted) else !Begun(t))
    && (d.state == StopState.Deleted ==> t == d)
  }

  lemma PhaseFound(s: State, code: string, phase: Phase)
    requires CodesUnique(s.headers)
    ensures InPhase(s, code, phase)
       <==> FindHeader(s.headers, code).Some? && s.headers[FindHeader(s.headers, code).value].phase == phase
  {
    if i :| 0 <= i < |s.headers| && s.headers[i].code == code && s.headers[i].phase == phase {
      assert code in Codes(s.headers);
      var j := FindHeader(s.headers, code).value;
      assert s.headers[j].code == s.headers[i].code;
    }
  }

  lemma BeginTimes(s: State, code: string, now: int, k: nat)
    requires CodesUnique(s.headers) && k < |s.stops|
    ensures Timed(s, StartShutdown(code, now), k, s.stops[k], Begin(s, code, now).state.stops[k])
  {
    PhaseFound(s, code, Planned);
  }

  lemma ConcludeTimes(s: State, code: string, now: int, k: nat)
    requires CodesUnique(s.headers) && k < |s.stops|
    ensures Timed(s, FinishShutdown(code, now), k, s.stops[k], Conclude(s, code, now).state.stops[k])
  {
    PhaseFound(s, code, InProgress);
  }

  lemma AmendTimes(s: State, code: string, p: Patch, k: nat)
    requires k < |s.stops|
    ensures var t := Amend(s, code, p).state; k < |t.stops| && Kept(s.stops[k], t.stops[k])
  {
    if Amend(s, code, p).error.None? {
      var i, h := AmendIsAmended(s, code, p);
      AmendedIsCarried(s, i, h);
    }
  }

  lemma CallOffTimes(s: State, code: string, k: nat)
    requires k < |s.stops|
    ensures Kept(s.stops[k], CallOff(s, code).state.stops[k])
  {}

  lemma PlanTimes(s: State, q: Request, now: int, stamp: string, k: nat)
    requires k < |s.stops|
    ensures var t := Plan(s, q, now, stamp).state; k < |t.stops| && t.stops[k] == s.stops[k]
  {}

  lemma ShutdownTimes(s: State, op: Op, k: nat)
    requires CodesUnique(s.headers) && WritesHeaders(op) && k < |s.stops|
    ensures k < |Apply(s, op).stops| && Timed(s, op, k, s.stops[k], Apply(s, op).stops[k])
  {
    match op
    case PlanShutdown(q, now, stamp) => PlanTimes(s, q, now, stamp, k);
    case AmendShutdown(code, p) => AmendTimes(s, code, p, k);
    case SetShutdownJobs(code, j) => JobsWriteOrders(s, code, j);
    case StartShutdown(code, now) => BeginTimes(s, code, now, k);
    case FinishShutdown(code, now) => ConcludeTimes(s, code, now, k);
    case CancelShutdown(code) => CallOffTimes(s, code, k);
    case DeletePlant(_, _) =>
  }

  lemma StartTimes(s: State, id: nat, now: int, k: nat)
    requires k < |s.stops|
    ensures Timed(s, StartStop(id, now), k, s.stops[k], Apply(s, StartStop(id, now)).stops[k])
  {}

  lemma EndTimes(s: State, id: nat, now: int, k: nat)
    requires k < |s.stops|
    ensures Timed(s, EndStop(id, now), k, s.stops[k], Apply(s, EndStop(id, now)).stops[k])
  {}

  lemma HandTimes(s: State, op: Op, k: nat)
    requires WritesStops(op) && k < |s.stops|
    ensures k < |Apply(s, op).stops| && Timed(s, op, k, s.stops[k], Apply(s, op).stops[k])
  {
    if op.StartStop? {
      StartTimes(s, op.id, op.now, k);
    } else if op.EndStop? {
      EndTimes(s, op.id, op.now, k);
    } else {
      assert Kept(s.stops[k], Apply(s, op).stops[k]);
    }
  }

  /** Every operation: a record it starts begins at its clock, one it ends ends at its
      clock, the bus hears of either once, and no other record's times change. */
  lemma StepTimes(s: State, op: Op, k: nat)
    requires CodesUnique(s.headers) && k < |s.stops|
    ensures k < |Apply(s, op).stops| && Timed(s, op, k, s.stops[k], Apply(s, op).stops[k])
  {
    if WritesHeaders(op) {
      ShutdownTimes(s, op, k);
    } else if WritesStops(op) {
      HandTimes(s, op, k);
    } else {
      OthersLeaveStops(s, op);
    }
  }

  /** A record just written that has begun is as it was sent: open, from the start and
      to the end that were given, or none for a fault; and nothing has ended it. */
  ghost predicate AsSent(op: Op, t: Stop, bus: bool) {
    && t.endedEvents == 0 && t.startedEvents == (if Begun(t) && bus then 1 else 0)
    && (if !Begun(t) then t.state == Scheduled && t.endedAt == None && SentScheduled(op)
        else
          && t.state == Open && !SentScheduled(op)
          && (|| (op.RecordStop? && t.startedAt == op.n.startedAt && t.endedAt == op.n.endedAt)
              || (op.ReportFault? && t.startedAt == ZERO_TIME && t.endedAt == None)))
  }

  /** The record was sent as scheduled, or planned with a shutdown. */
  predicate SentScheduled(op: Op) {
    if op.RecordStop? then op.n.state == Some(Scheduled) else !op.ReportFault?
  }

  lemma AmendSends(s: State, code: string, p: Patch, k: nat)
    requires |s.stops| <= k < |Amend(s, code, p).state.stops|
    ensures AsSent(AmendShutdown(code, p), Amend(s, code, p).state.stops[k], s.bus)
  {
    var i, h := AmendIsAmended(s, code, p);
    AmendedIsCarried(s, i, h);
  }

  lemma NewRecordIsAsSent(s: State, op: Op, k: nat)
    requires |s.stops| <= k < |Apply(s, op).stops|
    ensures AsSent(op, Apply(s, op).stops[k], s.bus)
  {
    match op
    case AmendShutdown(code, p) => AmendSends(s, code, p, k);
    case SetShutdownJobs(code, j) => JobsWriteOrders(s, code, j);
    case _ => OthersSend(s, op, k);
  }

  lemma OthersSend(s: State, op: Op, k: nat)
    requires |s.stops| <= k < |Apply(s, op).stops| && !op.AmendShutdown? && !op.SetShutdownJobs?
    ensures AsSent(op, Apply(s, op).stops[k], s.bus)
  {}

  /** A fault is reported on a machine there is, with a title of 1 to 200 characters; it
      opens a stop, from the zero time, and takes the machine down. */
  lemma FaultsExactly(s: State, tag: string, title: string)
    ensures var t, m := Apply(s, ReportFault(tag, title)), Trim(tag);
      if m == "" || m !in s.assets || Trim(title) == "" || |Trim(title)| > 200 then t == s
      else
        t == s.(stops := s.stops + [Stop(m, Open, ZERO_TIME, None, None, None, None, if s.bus then 1 else 0, 0)],
                assets := s.assets[m := s.assets[m].(status := Down)])
  {}

  // ---------------------------------------------------------------------------
  // Every run
  // ---------------------------------------------------------------------------

  /** The clock of the step that started record `k`, or the start it was sent with. */
  ghost function StartOf(s: State, ops: seq<Op>, k: nat): Option<int>
    decreases |ops|
  {
    if ops == [] then None
    else
      var front, op := Run(s, ops[..|ops| - 1]), ops[|ops| - 1];
      if Starts(front, op, k) then Some(op.now)
      else if k >= |front.stops| && op.RecordStop? then Some(op.n.startedAt)
      else if k >= |front.stops| && op.ReportFault? then Some(ZERO_TIME)
      else StartOf(s, ops[..|ops| - 1], k)
  }

  /** The clock of the last step that ended record `k`, or the end it was sent with. */
  ghost function EndOf(s: State, ops: seq<Op>, k: nat): Option<int>
    decreases |ops|
  {
    if ops == [] then None
    else
      var front, op := Run(s, ops[..|ops| - 1]), ops[|ops| - 1];
      if Ends(front, op, k) then Some(op.now)
      else if k >= |front.stops| then (if op.RecordStop? && !SentScheduled(op) then op.n.endedAt else None)
      else EndOf(s, ops[..|ops| - 1], k)
  }

  /** How many steps ended record `k`. */
  ghost function TimesEnded(s: State, ops: seq<Op>, k: nat): nat
    decreases |ops|
  {
    if ops == [] then 0
    else
      TimesEnded(s, ops[..|ops| - 1], k)
      + (if Ends(Run(s, ops[..|ops| - 1]), ops[|ops| - 1], k) then 1 else 0)
  }

  /** What the run says of record `k`: when it began, when it ended, whether it is over. */
  ghost predicate Told(s: State, ops: seq<Op>, k: nat, d: Stop) {
    && d.endedEvents == (if Run(s, ops).bus then TimesEnded(s, ops, k) else 0)
    && (Begun(d) ==> Some(d.startedAt) == StartOf(s, ops, k))
    && (d.state != StopState.Deleted ==>
          d.endedAt == EndOf(s, ops, k) && (d.state == Closed <==> TimesEnded(s, ops, k) > 0))
  }

  lemma {:induction false} NotThereNotEnded(s: State, ops: seq<Op>, k: nat)
    requires Fresh(s) && k >= |Run(s, ops).stops|
    ensures TimesEnded(s, ops, k) == 0
    decreases |ops|
  {
    if ops != [] {
      var front := ops[..|ops| - 1];
      RunKeepsHeaders(s, front);
      if k < |Run(s, front).stops| { StepTimes(Run(s, front), ops[|ops| - 1], k); }
      NotThereNotEnded(s, front, k);
    }
  }

  lemma BusStays(s: State, op: Op)
    ensures Apply(s, op).bus == s.bus
  {
    if op.SetShutdownJobs? { JobsWriteOrders(s, op.code, op.j); }
  }

  /** Over every run: a stop that began started at the clock of the step that started
      it, or at the start it was sent with; it ended at the clock of the last step that
      ended it; it is closed exactly when some step did; and the bus heard of each. */
  lemma {:induction false} TimesAreThoseOfTheSteps(s: State, ops: seq<Op>, k: nat)
    requires Fresh(s) && k < |Run(s, ops).stops|
    ensures Told(s, ops, k, Run(s, ops).stops[k])
    decreases |ops|
  {
    var front, op := ops[..|ops| - 1], ops[|ops| - 1];
    var before := Run(s, front);
    RunKeepsHeaders(s, front);
    BusStays(before, op);
    if k < |before.stops| {
      StepTimes(before, op, k);
      TimesAreThoseOfTheSteps(s, front, k);
    } else {
      NewRecordIsAsSent(before, op, k);
      NotThereNotEnded(s, front, k);
    }
  }

  /** The last step of the run that ended record `k`. */
  ghost function LastEnder(s: State, ops: seq<Op>, k: nat): (n: Option<nat>)
    ensures n.Some? ==> n.value < |ops|
    decreases |ops|
  {
    if ops == [] then None
    else if Ends(Run(s, ops[..|ops| - 1]), ops[|ops| - 1], k) then Some(|ops| - 1)
    else LastEnder(s, ops[..|ops| - 1], k)
  }

  /** A record that is closed was ended by a step of the run, by hand or with its
      shutdown, and it ended at the clock of the last of those that did it. */
  lemma {:induction false} ClosedWasEnded(s: State, ops: seq<Op>, k: nat)
    requires Fresh(s) && k < |Run(s, ops).stops| && Run(s, ops).stops[k].state == Closed
    ensures LastEnder(s, ops, k).Some?
    ensures var n := LastEnder(s, ops, k).value;
      (ops[n].EndStop? || ops[n].FinishShutdown?) && Run(s, ops).stops[k].endedAt == Some(ops[n].now)
    decreases |ops|
  {
    var front, op := ops[..|ops| - 1], ops[|ops| - 1];
    var before := Run(s, front);
    RunKeepsHeaders(s, front);
    if k >= |before.stops| {
      NewRecordIsAsSent(before, op, k);
    } else {
      StepTimes(before, op, k);
      if !Ends(before, op, k) { ClosedWasEnded(s, front, k); }
    }
  }
}
