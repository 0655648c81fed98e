/**
  Runs of the shutdown operations (internal/store/shutdown.go), interleaved with
  every other operation on the tables they live in: downtime records and work
  orders written, moved on and deleted, machines, schedules and factories edited
  and deleted.
 */
module ShutdownRuns {
  import opened Wrappers
  import opened Text
  import opened Downtime
  import opened ShutdownModel

  datatype Op =
    | PlanShutdown(q: Request, now: int, stamp: string)
    | AmendShutdown(code: string, p: Patch)
    | SetShutdownJobs(code: string, j: Jobs)
    | StartShutdown(code: string, now: int)
    | FinishShutdown(code: string, now: int)
    | CancelShutdown(code: string)
    /** Downtime records written, started, dropped, ended and deleted on their own. */
    | RecordStop(n: NewStop)
    | ReportFault(tag: string, title: string)
    | StartStop(id: nat, now: int)
    | DropStop(id: nat)
    | EndStop(id: nat, now: int)
    | DeleteStop(id: nat)
    /** Work orders raised, moved on and deleted. */
    | RaiseOrder(num: string, asset: string, schedule: Option<nat>)
    | MoveOrder(k: nat, status: OrderStatus)
    | DeleteOrder(num: string, held: bool)
    /** Machines, schedules and factories. */
    | EditAsset(tag: string, record: Asset)
    | DeleteAsset(tag: string, held: bool)
    | SetSchedule(id: nat, machine: string)
    | DeleteSchedule(id: nat)
    | AddPlant(code: string)
    | DeletePlant(code: string, held: bool)

  function WithStop(s: State, id: nat, d: Result<Stop>): State
    requires id < |s.stops|
  {
    if d.Err? then s else s.(stops := s.stops[id := d.value])
  }

  /** A stop is recorded, and takes its machine down if it has not ended. */
  function Recorded(s: State, n: NewStop): State {
    var d := Create(n, s.bus);
    if d.Err? then s
    else
      var down := d.value.state == Open && n.endedAt == None;
      s.(stops := s.stops + [d.value], assets := if down then SetStatus(s.assets, n.asset, Down) else s.assets)
  }

  /** The stop a fault report opens on a machine that stands still: no state, no times. */
  function FaultStop(tag: string): NewStop {
    NewStop(tag, None, ZERO_TIME, None, None, None, None)
  }

  predicate FaultOk(s: State, tag: string, title: string) {
    Trim(tag) in s.assets && Trim(tag) != "" && 0 < |Trim(title)| <= MAX_TITLE
  }

  ghost function Apply(s: State, op: Op): State {
    match op
    case PlanShutdown(q, now, stamp) => Plan(s, q, now, stamp).state
    case AmendShutdown(code, p) => Amend(s, code, p).state
    case SetShutdownJobs(code, j) => SetJobs(s, code, j).state
    case StartShutdown(code, now) => Begin(s, code, now).state
    case FinishShutdown(code, now) => Conclude(s, code, now).state
    case CancelShutdown(code) => CallOff(s, code).state
    case RecordStop(n) => Recorded(s, n)
    case ReportFault(tag, title) => if FaultOk(s, tag, title) then Recorded(s, FaultStop(Trim(tag))) else s
    case StartStop(id, now) =>
      if id >= |s.stops| || Start(s.stops[id], now, s.bus).Err? then s
      else WithStop(s, id, Start(s.stops[id], now, s.bus)).(assets := SetStatus(s.assets, s.stops[id].asset, Down))
    case DropStop(id) => if id >= |s.stops| then s else WithStop(s, id, Cancel(s.stops[id]))
    case EndStop(id, now) =>
      if id >= |s.stops| || End(s.stops[id], now, s.bus).Err? then s
      else WithStop(s, id, End(s.stops[id], now, s.bus)).(assets := SetStatus(s.assets, s.stops[id].asset, Idle))
    case DeleteStop(id) => if id >= |s.stops| then s else WithStop(s, id, Delete(s.stops[id]))
    case RaiseOrder(num, asset, schedule) =>
      if FindOrder(s.orders, num).Some? then s
      else s.(orders := s.orders + [WorkOrder(num, asset, Live("open"), schedule, None, None)])
    case MoveOrder(k, status) =>
      if k >= |s.orders| || s.orders[k].status == Removed || status == Removed then s
      else s.(orders := s.orders[k := s.orders[k].(status := status)])
    case DeleteOrder(num, held) => DropOrder(s, num, held).state
    case EditAsset(tag, record) => s.(assets := s.assets[tag := record])
    case DeleteAsset(tag, held) => DropAsset(s, tag, held).state
    case SetSchedule(id, machine) => s.(schedules := s.schedules[id := machine])
    case DeleteSchedule(id) => s.(schedules := s.schedules - {id})
    case AddPlant(code) => s.(plants := s.plants + {code})
    case DeletePlant(code, held) => DropPlant(s, code, held).state
  }

  // ---------------------------------------------------------------------------
  // What a run is allowed to do
  // ---------------------------------------------------------------------------

  /** A stop that stands: a record, not dropped. */
  predicate Standing(d: Stop, code: string) {
    Tagged(d, code) && d.state != StopState.Cancelled && d.state != StopState.Deleted
  }

  /** What the phase of a shutdown says about each of its stops that stands. */
  predicate StopMatches(h: Header, d: Stop) {
    match h.phase
    case Planned =>
      && d.state == Scheduled && d.plannedStart == Some(h.startsAt) && d.plannedEnd == Some(h.endsAt)
      && d.startedAt == h.startsAt
    case InProgress => d.state == Open
    case Completed => d.state == Closed
    case CalledOff => false
  }

  predicate StopOf(d: Stop, code: string, machine: string) {
    Tagged(d, code) && d.asset == machine
  }

  /** A stop written under the code of a shutdown fits it: as its phase says, on one
      of its machines, and the only one that stands there. */
  ghost predicate Fits(h: Header, stops: seq<Stop>, d: Stop) {
    && d.asset in h.machines && StopMatches(h, d)
    && forall k :: 0 <= k < |stops| && Standing(stops[k], h.code) ==> stops[k].asset != d.asset
  }

  /** It fits every shutdown whose code it carries. */
  ghost predicate FitsIts(s: State, d: Stop) {
    forall i :: 0 <= i < |s.headers| && Tagged(d, s.headers[i].code) ==> Fits(s.headers[i], s.stops, d)
  }

  /** A stop that can be moved by hand: no shutdown has its code, or it is over. */
  predicate Loose(s: State, d: Stop) {
    d.shutdown.None? || d.shutdown.value !in Codes(s.headers) || d.state == Closed
  }

  /** The operation moves stop `id` by hand. */
  predicate MovesByHand(s: State, op: Op, id: nat) {
    && id < |s.stops|
    && match op
       case StartStop(k, now) => k == id && Start(s.stops[id], now, s.bus).Ok?
       case DropStop(k) => k == id && Cancel(s.stops[id]).Ok?
       case EndStop(k, now) => k == id && End(s.stops[id], now, s.bus).Ok?
       case _ => false
  }

  /** No standing stop carries the code. */
  ghost predicate Unused(stops: seq<Stop>, code: string) {
    forall i :: 0 <= i < |stops| ==> !Standing(stops[i], code)
  }

  /** The code of the shutdown that was planned last. */
  function LastCode(headers: seq<Header>): string
    requires headers != []
  {
    headers[|headers| - 1].code
  }

  /** The shutdown takes the order: it was not called off and has its machine. */
  predicate Takes(h: Header, o: WorkOrder) {
    o.shutdown == Some(h.code) && h.phase != CalledOff && o.asset in h.machines
  }

  /** The order is in no shutdown, or in one that takes it. */
  ghost predicate Placed(o: WorkOrder, headers: seq<Header>) {
    o.shutdown.Some? ==> exists i :: 0 <= i < |headers| && Takes(headers[i], o)
  }

  /** A factory has a shutdown with a live job. */
  ghost predicate HasLiveJob(s: State, plant: string) {
    exists k, i :: 0 <= k < |s.orders| && 0 <= i < |s.headers| && IsLive(s.orders[k])
      && s.orders[k].shutdown == Some(s.headers[i].code) && s.headers[i].plant == plant
  }

  /** Everything; or runs in which no stop of a shutdown that is not over is started,
      dropped or ended by hand, though anyone may delete it, none is written under
      its code that does not fit, and a new shutdown gets a code that no standing
      stop carries; or runs in which a finished order is reopened
      only if its shutdown still takes it, and no factory is deleted under live jobs. */
  datatype Scope = Anything | OwnStops | LiveJobs

  ghost predicate InScope(s: State, op: Op, c: Scope) {
    match c
    case Anything => true
    case OwnStops => OwnStopsOnly(s, op)
    case LiveJobs => LiveJobsKept(s, op)
  }

  ghost predicate OwnStopsOnly(s: State, op: Op) {
    match op
    case PlanShutdown(q, now, stamp) =>
      var o := Plan(s, q, now, stamp);
      o.error.None? ==> o.state.headers != [] && Unused(s.stops, LastCode(o.state.headers))
    case RecordStop(n) => Create(n, s.bus).Ok? ==> FitsIts(s, Create(n, s.bus).value)
    case StartStop(id, _) => MovesByHand(s, op, id) ==> Loose(s, s.stops[id])
    case DropStop(id) => MovesByHand(s, op, id) ==> Loose(s, s.stops[id])
    case EndStop(id, _) => MovesByHand(s, op, id) ==> Loose(s, s.stops[id])
    case _ => true
  }

  ghost predicate LiveJobsKept(s: State, op: Op) {
    match op
    case MoveOrder(k, status) =>
      k < |s.orders| && s.orders[k].status in {Finished, Abandoned} && status.Live? ==> Placed(s.orders[k], s.headers)
    case DeletePlant(code, held) => DropPlant(s, code, held).error.None? ==> !HasLiveJob(s, Trim(code))
    case _ => true
  }

  ghost function Run(s: State, ops: seq<Op>): State
    decreases |ops|
  {
    if ops == [] then s else Apply(Run(s, ops[..|ops| - 1]), ops[|ops| - 1])
  }

  ghost predicate RunWithin(s: State, ops: seq<Op>, c: Scope)
    decreases |ops|
  {
    ops == [] || (RunWithin(s, ops[..|ops| - 1], c) && InScope(Run(s, ops[..|ops| - 1]), ops[|ops| - 1], c))
  }

  /** Tables before anything happened: machines, factories and schedules only. */
  ghost predicate Fresh(s: State) {
    s.headers == [] && s.stops == [] && s.orders == []
  }

  ghost predicate Reachable(s: State, c: Scope) {
    exists s0: State, ops: seq<Op> :: Fresh(s0) && RunWithin(s0, ops, c) && s == Run(s0, ops)
  }

  lemma FreshIsReachable(s: State, c: Scope)
    requires Fresh(s)
    ensures Reachable(s, c)
  {
    assert Run(s, []) == s && RunWithin(s, [], c);
  }

  lemma ReachOneMore(s: State, op: Op, c: Scope)
    requires Reachable(s, c) && InScope(s, op, c)
    ensures Reachable(Apply(s, op), c)
  {
    var s0: State, ops: seq<Op> :| Fresh(s0) && RunWithin(s0, ops, c) && s == Run(s0, ops);
    assert (ops + [op])[..|ops|] == ops;
    assert Run(s0, ops + [op]) == Apply(s, op);
  }
}
