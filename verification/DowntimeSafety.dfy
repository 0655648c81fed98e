/**
  The life of downtime records over every run whatever of the operations that
  touch them: their own (internal/store/cmms.go), the fault reports that open
  them (internal/store/maintenance_phase2.go), the shutdowns that plan, move,
  start and end them (internal/store/shutdown.go), and their deletion
  (internal/store/register_delete.go). Then the machines of a shutdown.
 */
module DowntimeSafety {
  import opened Wrappers
  import opened Text
  import opened Downtime
  import opened ShutdownModel
  import opened ShutdownRuns
  import opened ShutdownHeaders
  import opened ShutdownSafety

  ghost predicate AllConsistent(stops: seq<Stop>, bus: bool) {
    forall k :: 0 <= k < |stops| ==> Consistent(stops[k], bus)
  }

  /** Records are added at the end and otherwise only progress. */
  ghost predicate AllProgress(a: seq<Stop>, b: seq<Stop>) {
    |a| <= |b| && forall k :: 0 <= k < |a| ==> Progress(a[k], b[k])
  }

  /** What any number of steps of progress can do to a record. */
  ghost predicate Later(a: Stop, b: Stop) {
    && b.asset == a.asset && b.shutdown == a.shutdown
    && (a.state == StopState.Deleted ==> b == a)
    && (a.state == StopState.Cancelled ==> b == a || b == a.(state := StopState.Deleted))
    && (a.state == Open ==> b.state == Open || b.state == Closed || b.state == StopState.Deleted)
    && (a.state == Closed ==> b.state == Closed || b.state == StopState.Deleted)
    && (a.state != Scheduled ==>
          b.startedAt == a.startedAt && b.plannedStart == a.plannedStart && b.plannedEnd == a.plannedEnd)
    && b.startedEvents >= a.startedEvents && b.endedEvents >= a.endedEvents
  }

  ghost predicate AllLater(a: seq<Stop>, b: seq<Stop>) {
    |a| <= |b| && forall k :: 0 <= k < |a| ==> Later(a[k], b[k])
  }

  // ---------------------------------------------------------------------------
  // One operation
  // ---------------------------------------------------------------------------

  /** An operation on the records: each progresses, and stays consistent. */
  ghost predicate Good(s: State, t: State) {
    AllProgress(s.stops, t.stops) && AllConsistent(t.stops, t.bus)
  }

  lemma AddedProgresses(s: State, t: State, kept: seq<Stop>, added: seq<Stop>)
    requires t.stops == kept + added && t.bus == s.bus && |kept| == |s.stops|
    requires forall k :: 0 <= k < |kept| ==> Progress(s.stops[k], kept[k]) && Consistent(kept[k], s.bus)
    requires forall k :: 0 <= k < |added| ==> Consistent(added[k], s.bus)
    ensures Good(s, t)
  {}

  lemma AmendedProgresses(s: State, i: nat, h: Header)
    requires AllConsistent(s.stops, s.bus) && i < |s.headers|
    ensures Good(s, Amended(s, i, h))
  {
    var kept, added := Carried(s.headers[i], h, s.stops), PlanStops(h, Minus(h.machines, s.headers[i].machines));
    forall k | 0 <= k < |s.stops| ensures Progress(s.stops[k], kept[k]) && Consistent(kept[k], s.bus) {
      assert Consistent(s.stops[k], s.bus);
    }
    AmendedIsCarried(s, i, h);
    AddedProgresses(s, Amended(s, i, h), kept, added);
  }

  lemma AmendProgresses(s: State, code: string, p: Patch)
    requires AllConsistent(s.stops, s.bus)
    ensures Good(s, Amend(s, code, p).state)
  {
    var t := Amend(s, code, p).state;
    if Amend(s, code, p).error.None? {
      var i, h := AmendIsAmended(s, code, p);
      AmendedProgresses(s, i, h);
    } else {
      UntouchedProgress(s, t);
    }
  }

  lemma PlanProgresses(s: State, q: Request, now: int, stamp: string)
    requires AllConsistent(s.stops, s.bus)
    ensures Good(s, Plan(s, q, now, stamp).state)
  {
    var o := Plan(s, q, now, stamp);
    if o.error.None? {
      var h := o.state.headers[|s.headers|];
      AddedProgresses(s, o.state, s.stops, PlanStops(h, h.machines));
    }
  }

  /** The stops of a shutdown change together, each by a step of its own life. */
  lemma EachProgresses(s: State, t: State)
    requires AllConsistent(s.stops, s.bus) && t.bus == s.bus && |t.stops| == |s.stops|
    requires forall k :: 0 <= k < |s.stops| ==>
      var a, b := s.stops[k], t.stops[k];
      || b == a
      || (exists now :: Start(a, now, s.bus) == Ok(b))
      || (exists now :: End(a, now, s.bus) == Ok(b))
      || Cancel(a) == Ok(b)
    ensures Good(s, t)
  {
    forall k | 0 <= k < |s.stops| ensures Progress(s.stops[k], t.stops[k]) && Consistent(t.stops[k], s.bus) {
      assert Consistent(s.stops[k], s.bus);
    }
  }

  lemma OneProgresses(s: State, t: State, id: nat, b: Stop)
    requires AllConsistent(s.stops, s.bus) && id < |s.stops| && t.stops == s.stops[id := b] && t.bus == s.bus
    requires Progress(s.stops[id], b) && Consistent(b, s.bus)
    ensures Good(s, t)
  {}

  lemma RecordProgresses(s: State, n: NewStop)
    requires AllConsistent(s.stops, s.bus)
    ensures Good(s, Recorded(s, n))
  {
    var d := Create(n, s.bus);
    if d.Ok? { AddedProgresses(s, Recorded(s, n), s.stops, [d.value]); }
  }

  lemma StartStopProgresses(s: State, id: nat, now: int)
    requires AllConsistent(s.stops, s.bus) && id < |s.stops|
    ensures Good(s, Apply(s, StartStop(id, now)))
  {
    var t := Apply(s, StartStop(id, now));
    OneProgresses(s, t, id, t.stops[id]);
  }

  lemma EndStopProgresses(s: State, id: nat, now: int)
    requires AllConsistent(s.stops, s.bus) && id < |s.stops|
    ensures Good(s, Apply(s, EndStop(id, now)))
  {
    var t := Apply(s, EndStop(id, now));
    OneProgresses(s, t, id, t.stops[id]);
  }

  lemma DropStopProgresses(s: State, id: nat)
    requires AllConsistent(s.stops, s.bus) && id < |s.stops|
    ensures Good(s, Apply(s, DropStop(id)))
  {
    var t := Apply(s, DropStop(id));
    OneProgresses(s, t, id, t.stops[id]);
  }

  lemma DeleteStopProgresses(s: State, id: nat)
    requires AllConsistent(s.stops, s.bus) && id < |s.stops|
    ensures Good(s, Apply(s, DeleteStop(id)))
  {
    var t := Apply(s, DeleteStop(id));
    OneProgresses(s, t, id, t.stops[id]);
  }

  lemma UntouchedProgress(s: State, t: State)
    requires AllConsistent(s.stops, s.bus) && t.stops == s.stops && t.bus == s.bus
    ensures Good(s, t)
  {}

  lemma ShutdownOpProgresses(s: State, op: Op)
    requires AllConsistent(s.stops, s.bus) && WritesHeaders(op)
    ensures Good(s, Apply(s, op))
  {
    match op
    case PlanShutdown(q, now, stamp) => PlanProgresses(s, q, now, stamp);
    case AmendShutdown(code, p) => AmendProgresses(s, code, p);
    case SetShutdownJobs(code, j) => JobsWriteOrders(s, code, j); UntouchedProgress(s, Apply(s, op));
    case StartShutdown(code, now) => EachProgresses(s, Begin(s, code, now).state);
    case FinishShutdown(code, now) => EachProgresses(s, Conclude(s, code, now).state);
    case CancelShutdown(code) => EachProgresses(s, CallOff(s, code).state);
    case DeletePlant(_, _) => UntouchedProgress(s, Apply(s, op));
  }

  lemma StopOpProgresses(s: State, op: Op)
    requires AllConsistent(s.stops, s.bus) && WritesStops(op)
    ensures Good(s, Apply(s, op))
  {
    match op
    case RecordStop(n) => RecordProgresses(s, n);
    case ReportFault(tag, _) => RecordProgresses(s, FaultStop(Trim(tag))); UntouchedProgress(s, s);
    case StartStop(id, now) => if id < |s.stops| { StartStopProgresses(s, id, now); }
    case EndStop(id, now) => if id < |s.stops| { EndStopProgresses(s, id, now); }
    case DropStop(id) => if id < |s.stops| { DropStopProgresses(s, id); }
    case DeleteStop(id) => if id < |s.stops| { DeleteStopProgresses(s, id); }
  }

  /** Every operation, on any tables: each record moves only from scheduled to open
      or dropped, from open to closed, from closed to closed, and from anything to
      deleted, and stays consistent. */
  lemma OpProgresses(s: State, op: Op)
    requires AllConsistent(s.stops, s.bus)
    ensures Good(s, Apply(s, op))
  {
    if WritesHeaders(op) {
      ShutdownOpProgresses(s, op);
    } else if WritesStops(op) {
      StopOpProgresses(s, op);
    } else {
      OthersLeaveStops(s, op);
      UntouchedProgress(s, Apply(s, op));
    }
  }

  // ---------------------------------------------------------------------------
  // Every run
  // ---------------------------------------------------------------------------

  lemma LaterThenProgress(a: seq<Stop>, b: seq<Stop>, c: seq<Stop>)
    requires AllLater(a, b) && AllProgress(b, c)
    ensures AllLater(a, c)
  {
    forall k | 0 <= k < |a| ensures Later(a[k], c[k]) {
      assert Later(a[k], b[k]) && Progress(b[k], c[k]);
    }
  }

  /** Over every run: one that began keeps its start and its plan and is never
      scheduled again; a dropped one never changes; a closed one stays closed, until
      it is deleted. And each still says what its state means, the bus having heard
      of its start exactly once if, and only if, it began. */
  lemma {:induction false} RunKeepsRecords(s: State, ops: seq<Op>)
    requires AllConsistent(s.stops, s.bus)
    ensures var t := Run(s, ops); AllLater(s.stops, t.stops) && AllConsistent(t.stops, t.bus)
    decreases |ops|
  {
    if ops != [] {
      var before := Run(s, ops[..|ops| - 1]);
      RunKeepsRecords(s, ops[..|ops| - 1]);
      OpProgresses(before, ops[|ops| - 1]);
      LaterThenProgress(s.stops, before.stops, Run(s, ops).stops);
    }
  }

  predicate Exists(stops: seq<Stop>, k: nat) {
    k < |stops| && stops[k].state != StopState.Deleted
  }

  lemma AmendDeletesNothing(s: State, code: string, p: Patch, k: nat)
    requires k < |Amend(s, code, p).state.stops| && (k < |s.stops| ==> Exists(s.stops, k))
    ensures Exists(Amend(s, code, p).state.stops, k)
  {
    if Amend(s, code, p).error.None? {
      var i, h := AmendIsAmended(s, code, p);
      AmendedIsCarried(s, i, h);
    }
  }

  lemma PhaseOpDeletesNothing(s: State, op: Op, k: nat)
    requires op.StartShutdown? || op.FinishShutdown? || op.CancelShutdown?
    ensures |Apply(s, op).stops| == |s.stops| && (Exists(s.stops, k) ==> Exists(Apply(s, op).stops, k))
  {}

  lemma PlanDeletesNothing(s: State, q: Request, now: int, stamp: string, k: nat)
    requires k < |Plan(s, q, now, stamp).state.stops| && (k < |s.stops| ==> Exists(s.stops, k))
    ensures Exists(Plan(s, q, now, stamp).state.stops, k)
  {}

  lemma ShutdownOpDeletesNothing(s: State, op: Op, k: nat)
    requires WritesHeaders(op) && k < |Apply(s, op).stops| && (k < |s.stops| ==> Exists(s.stops, k))
    ensures Exists(Apply(s, op).stops, k)
  {
    match op
    case PlanShutdown(q, now, stamp) => PlanDeletesNothing(s, q, now, stamp, k);
    case AmendShutdown(code, p) => AmendDeletesNothing(s, code, p, k);
    case SetShutdownJobs(code, j) => JobsWriteOrders(s, code, j);
    case DeletePlant(_, _) =>
    case _ => PhaseOpDeletesNothing(s, op, k);
  }

  lemma StopOpDeletesItsOwn(s: State, op: Op, k: nat)
    requires WritesStops(op) && k < |Apply(s, op).stops| && (k < |s.stops| ==> Exists(s.stops, k))
    ensures Exists(Apply(s, op).stops, k) || op == DeleteStop(k)
  {}

  lemma OpDeletesItsOwn(s: State, op: Op, k: nat)
    requires k < |Apply(s, op).stops| && (k < |s.stops| ==> Exists(s.stops, k))
    ensures Exists(Apply(s, op).stops, k) || op == DeleteStop(k)
  {
    if WritesHeaders(op) {
      ShutdownOpDeletesNothing(s, op, k);
    } else if WritesStops(op) {
      StopOpDeletesItsOwn(s, op, k);
    } else {
      OthersLeaveStops(s, op);
    }
  }

  /** A record leaves only by its own deletion. */
  lemma {:induction false} GoneByItsOwnDeletion(s: State, ops: seq<Op>, k: nat) returns (n: nat)
    requires k < |s.stops| ==> Exists(s.stops, k)
    requires k < |Run(s, ops).stops| && !Exists(Run(s, ops).stops, k)
    ensures n < |ops| && ops[n] == DeleteStop(k)
    decreases |ops|
  {
    var front := ops[..|ops| - 1];
    var before := Run(s, front);
    if k < |before.stops| && !Exists(before.stops, k) {
      n := GoneByItsOwnDeletion(s, front, k);
    } else {
      n := |ops| - 1;
      OpDeletesItsOwn(before, ops[n], k);
    }
  }

  /** A machine of a shutdown that was not called off has exactly one stop that
      stands, or the stop that counts was deleted in the run. */
  lemma OneStopUnlessDeleted(s0: State, ops: seq<Op>, i: nat, m: string) returns (k: nat, n: nat)
    requires Fresh(s0) && RunWithin(s0, ops, OwnStops) && i < |Run(s0, ops).headers|
    requires var h := Run(s0, ops).headers[i]; h.phase != CalledOff && m in h.machines
    ensures var s, h := Run(s0, ops), Run(s0, ops).headers[i];
      && StopThatCounts(s.stops, h.code, m, k)
      && (Standing(s.stops[k], h.code) || (n < |ops| && ops[n] == DeleteStop(k)))
  {
    var s := Run(s0, ops);
    ReachableStops(s);
    var h := s.headers[i];
    assert StopsFollow(h, s.stops);
    k := MachineHasItsStop(h, s.stops, m);
    n := 0;
    if !Standing(s.stops[k], h.code) { n := GoneByItsOwnDeletion(s0, ops, k); }
  }

  // ---------------------------------------------------------------------------
  // Stops that start at the zero time
  // ---------------------------------------------------------------------------

  /** The request an operation records a stop from, if it does. */
  function Writes(op: Op): Option<NewStop> {
    match op
    case RecordStop(n) => Some(n)
    case ReportFault(tag, _) => Some(FaultStop(Trim(tag)))
    case _ => None
  }

  /** A request for an open stop that gives no start. */
  predicate OpenWithoutStart(n: NewStop) {
    n.state in {None, Some(Open)} && n.startedAt == ZERO_TIME
  }

  /** The operation wrote record `k`, from such a request. */
  ghost predicate WrittenWithoutStart(s: State, op: Op, k: nat) {
    |s.stops| <= k < |Apply(s, op).stops| && Writes(op).Some? && OpenWithoutStart(Writes(op).value)
  }

  /** No clock of these runs reads the zero time, the start of the year 1. */
  predicate ClockRuns(op: Op) {
    (op.StartStop? || op.StartShutdown?) ==> op.now != ZERO_TIME
  }

  ghost predicate ZeroStart(stops: seq<Stop>, k: nat) {
    k < |stops| && Begun(stops[k]) && stops[k].startedAt == ZERO_TIME
  }

  lemma BeginStarts(s: State, code: string, now: int, k: nat)
    requires k < |s.stops| && now != ZERO_TIME && Begun(Begin(s, code, now).state.stops[k])
    ensures ZeroStart(Begin(s, code, now).state.stops, k) <==> ZeroStart(s.stops, k)
  {}

  lemma ConcludeStarts(s: State, code: string, now: int, k: nat)
    requires k < |s.stops| && Begun(Conclude(s, code, now).state.stops[k])
    ensures ZeroStart(Conclude(s, code, now).state.stops, k) <==> ZeroStart(s.stops, k)
  {}

  lemma AmendStarts(s: State, code: string, p: Patch, k: nat)
    requires k < |Amend(s, code, p).state.stops| && Begun(Amend(s, code, p).state.stops[k])
    ensures k < |s.stops|
    ensures ZeroStart(Amend(s, code, p).state.stops, k) <==> ZeroStart(s.stops, k)
  {
    if Amend(s, code, p).error.None? {
      var i, h := AmendIsAmended(s, code, p);
      AmendedIsCarried(s, i, h);
    }
  }

  lemma PlanStarts(s: State, q: Request, now: int, stamp: string, k: nat)
    requires k < |Plan(s, q, now, stamp).state.stops| && Begun(Plan(s, q, now, stamp).state.stops[k])
    ensures k < |s.stops| && (ZeroStart(Plan(s, q, now, stamp).state.stops, k) <==> ZeroStart(s.stops, k))
  {}

  lemma CallOffStarts(s: State, code: string, k: nat)
    requires k < |CallOff(s, code).state.stops| && Begun(CallOff(s, code).state.stops[k])
    ensures k < |s.stops| && (ZeroStart(CallOff(s, code).state.stops, k) <==> ZeroStart(s.stops, k))
  {}

  lemma ShutdownOpStarts(s: State, op: Op, k: nat)
    requires ClockRuns(op) && WritesHeaders(op) && k < |Apply(s, op).stops| && Begun(Apply(s, op).stops[k])
    ensures k < |s.stops| && (ZeroStart(Apply(s, op).stops, k) <==> ZeroStart(s.stops, k))
  {
    match op
    case PlanShutdown(q, now, stamp) => PlanStarts(s, q, now, stamp, k);
    case AmendShutdown(code, p) => AmendStarts(s, code, p, k);
    case SetShutdownJobs(code, j) => JobsWriteOrders(s, code, j);
    case StartShutdown(code, now) => BeginStarts(s, code, now, k);
    case FinishShutdown(code, now) => ConcludeStarts(s, code, now, k);
    case CancelShutdown(code) => CallOffStarts(s, code, k);
    case DeletePlant(_, _) =>
  }

  lemma RecordingStarts(s: State, op: Op, k: nat)
    requires (op.RecordStop? || op.ReportFault?) && k < |Apply(s, op).stops| && Begun(Apply(s, op).stops[k])
    ensures ZeroStart(Apply(s, op).stops, k) <==> ZeroStart(s.stops, k) || WrittenWithoutStart(s, op, k)
  {}

  lemma MovingStarts(s: State, op: Op, k: nat)
    requires ClockRuns(op) && WritesStops(op) && !op.RecordStop? && !op.ReportFault?
    requires k < |Apply(s, op).stops| && Begun(Apply(s, op).stops[k])
    ensures ZeroStart(Apply(s, op).stops, k) <==> ZeroStart(s.stops, k) || WrittenWithoutStart(s, op, k)
  {}

  /** A begun record starts at the zero time exactly when it did before, or was just
      written open without a start. */
  lemma OpStarts(s: State, op: Op, k: nat)
    requires ClockRuns(op) && k < |Apply(s, op).stops| && Begun(Apply(s, op).stops[k])
    ensures ZeroStart(Apply(s, op).stops, k) <==> ZeroStart(s.stops, k) || WrittenWithoutStart(s, op, k)
  {
    if WritesHeaders(op) {
      ShutdownOpStarts(s, op, k);
    } else if op.RecordStop? || op.ReportFault? {
      RecordingStarts(s, op, k);
    } else if WritesStops(op) {
      MovingStarts(s, op, k);
    } else {
      OthersLeaveStops(s, op);
    }
  }

  /** Some step of the run wrote record `k` open without a start. */
  ghost predicate EverWrittenWithoutStart(s: State, ops: seq<Op>, k: nat)
    decreases |ops|
  {
    && ops != []
    && (|| EverWrittenWithoutStart(s, ops[..|ops| - 1], k)
        || WrittenWithoutStart(Run(s, ops[..|ops| - 1]), ops[|ops| - 1], k))
  }

  lemma BegunExisted(a: Stop, b: Stop)
    requires Progress(a, b) && Begun(b)
    ensures a.state != StopState.Deleted
  {}

  /** Over every run, a record that began starts at the zero time if and only if it
      was written open without a start: the value sent is never absent, so the
      default of the column, the time of writing, never applies, and no later
      operation puts it right. */
  lemma {:induction false} ZeroStartsExactly(s: State, ops: seq<Op>, k: nat)
    requires Fresh(s) && forall n :: 0 <= n < |ops| ==> ClockRuns(ops[n])
    requires k < |Run(s, ops).stops| && Begun(Run(s, ops).stops[k])
    ensures ZeroStart(Run(s, ops).stops, k) <==> EverWrittenWithoutStart(s, ops, k)
    decreases |ops|
  {
    var front, op := ops[..|ops| - 1], ops[|ops| - 1];
    var before := Run(s, front);
    OpStarts(before, op, k);
    if k < |before.stops| && Begun(before.stops[k]) {
      ZeroStartsExactly(s, front, k);
    } else {
      RunKeepsRecords(s, front);
      OpProgresses(before, op);
      if k < |before.stops| { BegunExisted(before.stops[k], Run(s, ops).stops[k]); }
      NotBegunNotWritten(s, front, k);
    }
  }

  /** A record written open without a start has begun, or is gone. */
  lemma {:induction false} NotBegunNotWritten(s: State, ops: seq<Op>, k: nat)
    requires Fresh(s) && (k < |Run(s, ops).stops| ==> !Begun(Run(s, ops).stops[k]) && Exists(Run(s, ops).stops, k))
    ensures !EverWrittenWithoutStart(s, ops, k)
    decreases |ops|
  {
    if ops != [] {
      var front := ops[..|ops| - 1];
      var before := Run(s, front);
      RunKeepsRecords(s, front);
      OpProgresses(before, ops[|ops| - 1]);
      if k < |before.stops| { assert Progress(before.stops[k], Run(s, ops).stops[k]); }
      NotBegunNotWritten(s, front, k);
      NotJustWritten(before, ops[|ops| - 1], k);
    }
  }

  lemma NotJustWritten(s: State, op: Op, k: nat)
    requires k < |Apply(s, op).stops| ==> !Begun(Apply(s, op).stops[k])
    ensures !WrittenWithoutStart(s, op, k)
  {}

  /** Every stop that a fault report opens is one of them, for as long as it is on record. */
  lemma FaultStopsStartAtZero(s: State, tag: string, title: string, ops: seq<Op>)
    requires AllConsistent(s.stops, s.bus) && FaultOk(s, tag, title)
    ensures var k, t := |s.stops|, Run(Apply(s, ReportFault(tag, title)), ops);
      && k < |t.stops| && t.stops[k].asset == Trim(tag) && t.stops[k].startedAt == ZERO_TIME
      && (Begun(t.stops[k]) || t.stops[k].state == StopState.Deleted)
  {
    var first := Apply(s, ReportFault(tag, title));
    OpProgresses(s, ReportFault(tag, title));
    assert Begun(first.stops[|s.stops|]) && first.stops[|s.stops|].startedAt == ZERO_TIME;
    RunKeepsRecords(first, ops);
    assert Later(first.stops[|s.stops|], Run(first, ops).stops[|s.stops|]);
  }

  // ---------------------------------------------------------------------------
  // Machines during a shutdown
  // ---------------------------------------------------------------------------

  /** The stops with the tag and state, among the first `n`, on a machine. */
  ghost predicate Touched(stops: seq<Stop>, code: string, state: StopState, n: nat, tag: string)
    requires n <= |stops|
  {
    exists i :: 0 <= i < n && Tagged(stops[i], code) && stops[i].state == state && stops[i].asset == tag
  }

  /** Exactly the machines of those stops get the status; nothing else about them changes. */
  lemma {:induction false} StatusesAreSet(assets: map<string, Asset>, stops: seq<Stop>, code: string, state: StopState,
                                          status: AssetStatus, n: nat, tag: string)
    requires n <= |stops| && tag in assets
    ensures var after := SetStatuses(assets, stops, code, state, status, n);
      && after.Keys == assets.Keys
      && after[tag] == (if Touched(stops, code, state, n, tag) then assets[tag].(status := status) else assets[tag])
    decreases n
  {
    if n > 0 {
      StatusesAreSet(assets, stops, code, state, status, n - 1, tag);
      var d := stops[n - 1];
      if Tagged(d, code) && d.state == state && d.asset == tag {
        assert Touched(stops, code, state, n, tag);
      } else if Touched(stops, code, state, n - 1, tag) {
        assert Touched(stops, code, state, n, tag);
      } else {
        assert !Touched(stops, code, state, n, tag);
      }
    }
  }

  /** The machine has a standing stop of the shutdown. */
  ghost predicate Stands(stops: seq<Stop>, code: string, tag: string) {
    exists i :: 0 <= i < |stops| && Standing(stops[i], code) && stops[i].asset == tag
  }

  /** Starting a shutdown takes down exactly the registered machines of its standing
      stops: all its machines, but for those whose stop was deleted. */
  lemma StartTakesMachinesDown(s: State, code: string, now: int, tag: string)
    requires Reachable(s, OwnStops) && Begin(s, code, now).error.None? && tag in s.assets
    ensures var h, after := s.headers[FindHeader(s.headers, code).value], Begin(s, code, now).state.assets;
      && (Stands(s.stops, code, tag) ==> tag in h.machines)
      && tag in after
      && after[tag] == (if Stands(s.stops, code, tag) then s.assets[tag].(status := Down) else s.assets[tag])
  {
    ReachableStops(s);
    StatusesAreSet(s.assets, s.stops, code, Scheduled, Down, |s.stops|, tag);
    StandingAre(s, FindHeader(s.headers, code).value, Scheduled, tag);
  }

  /** Finishing it sets exactly those idle, whatever other stops they have. */
  lemma FinishSetsMachinesIdle(s: State, code: string, now: int, tag: string)
    requires Reachable(s, OwnStops) && Conclude(s, code, now).error.None? && tag in s.assets
    ensures var h, after := s.headers[FindHeader(s.headers, code).value], Conclude(s, code, now).state.assets;
      && (Stands(s.stops, code, tag) ==> tag in h.machines)
      && tag in after
      && after[tag] == (if Stands(s.stops, code, tag) then s.assets[tag].(status := Idle) else s.assets[tag])
  {
    ReachableStops(s);
    StatusesAreSet(s.assets, s.stops, code, Open, Idle, |s.stops|, tag);
    StandingAre(s, FindHeader(s.headers, code).value, Open, tag);
  }

  lemma StandingAre(s: State, i: nat, state: StopState, tag: string)
    requires StopsInv(s) && i < |s.headers|
    requires
      || (s.headers[i].phase == Planned && state == Scheduled)
      || (s.headers[i].phase == InProgress && state == Open)
    ensures Touched(s.stops, s.headers[i].code, state, |s.stops|, tag) <==> Stands(s.stops, s.headers[i].code, tag)
    ensures Stands(s.stops, s.headers[i].code, tag) ==> tag in s.headers[i].machines
  {
    var h := s.headers[i];
    assert StopsFollow(h, s.stops);
    if Stands(s.stops, h.code, tag) {
      var k :| 0 <= k < |s.stops| && Standing(s.stops[k], h.code) && s.stops[k].asset == tag;
      assert StandsRight(h, s.stops, k);
    }
  }
}
