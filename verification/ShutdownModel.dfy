/**
  Shutdowns (internal/store/shutdown.go) as changes of the tables they live in:
  headers, downtime stops and work orders. Each operation is given in bulk, as
  one change of whole tables; the row-by-row programs are in ShutdownStore.
 */
module ShutdownModel {
  import opened Wrappers
  import opened Text
  import opened Downtime

  const DAY: int := 24 * 3600 * 1_000_000_000
  const MAX_SHUTDOWN_DAYS := 60
  const MAX_TITLE := 200

  datatype Phase = Planned | InProgress | Completed | CalledOff

  datatype Header = Header(code: string, plant: string, title: string, startsAt: int, endsAt: int,
                           phase: Phase, machines: seq<string>, startedAt: Option<int>, finishedAt: Option<int>)

  /** `Removed` marks the place of an order that was deleted. */
  datatype OrderStatus = Live(step: string) | Finished | Abandoned | Removed

  /** `schedule` is the preventive schedule it was raised for; `plannedDay` the
      day it is planned for, as a day number. */
  datatype WorkOrder = WorkOrder(num: string, asset: string, status: OrderStatus, schedule: Option<nat>,
                                 shutdown: Option<string>, plannedDay: Option<int>)

  datatype AssetStatus = Running | Idle | Down | Retired
  datatype Asset = Asset(plant: string, status: AssetStatus)

  /** The tables. `schedules` holds the machine of each preventive schedule. */
  datatype State = State(headers: seq<Header>, stops: seq<Stop>, orders: seq<WorkOrder>,
                         assets: map<string, Asset>, plants: set<string>, schedules: map<nat, string>, bus: bool)

  datatype Request = Request(plant: string, title: string, startsAt: int, endsAt: int, machines: seq<string>)

  datatype Patch =
    Patch(title: Option<string>, startsAt: Option<int>, endsAt: Option<int>, machines: Option<seq<string>>)

  datatype Jobs = Jobs(add: seq<string>, schedules: seq<nat>, remove: seq<string>)

  // ---------------------------------------------------------------------------
  // Headers and codes
  // ---------------------------------------------------------------------------

  function Codes(headers: seq<Header>): set<string> {
    set i | 0 <= i < |headers| :: headers[i].code
  }

  /** getShutdown: the header with a code. */
  function FindHeader(headers: seq<Header>, code: string): (r: Option<nat>)
    ensures r.Some? ==> r.value < |headers| && headers[r.value].code == code
    ensures r.None? <==> code !in Codes(headers)
  {
    if headers == [] then None
    else if headers[|headers| - 1].code == code then Some(|headers| - 1)
    else FindHeader(headers[..|headers| - 1], code)
  }

  function BaseCode(plant: string, stamp: string): string {
    "SD-" + Upper(plant) + "-" + stamp
  }

  /** The codes nextShutdownCode tries: the base, then base-2, base-3, … */
  function CodeAt(base: string, i: nat): string {
    if i <= 1 then base else base + "-" + Decimal(i)
  }

  lemma CodesDiffer(base: string, i: nat, j: nat)
    requires 1 <= i < j
    ensures CodeAt(base, i) != CodeAt(base, j)
  {
    DecimalRoundTrip(i);
    DecimalRoundTrip(j);
    if i > 1 {
      assert CodeAt(base, i)[|base| + 1..] == Decimal(i);
      assert CodeAt(base, j)[|base| + 1..] == Decimal(j);
    }
  }

  /** The number of the first free code from `i` on. Every code tried is one of
      finitely many in use, so the search ends. */
  function FreeFrom(used: set<string>, base: string, i: nat): nat
    decreases |used|
  {
    if CodeAt(base, i) !in used then i else FreeFrom(used - {CodeAt(base, i)}, base, i + 1)
  }

  /** The code found is free, and every one before it is taken. */
  lemma {:induction false} FreeFromIsFirst(used: set<string>, base: string, i: nat)
    requires i >= 1
    ensures var k := FreeFrom(used, base, i);
      && k >= i && CodeAt(base, k) !in used
      && forall j :: i <= j < k ==> CodeAt(base, j) in used
    decreases |used|
  {
    if CodeAt(base, i) in used {
      FreeFromIsFirst(used - {CodeAt(base, i)}, base, i + 1);
      CodesDiffer(base, i, FreeFrom(used, base, i));
    }
  }

  // ---------------------------------------------------------------------------
  // Checks
  // ---------------------------------------------------------------------------

  /** checkWindow. */
  predicate WindowOk(start: int, end: int) {
    start != ZERO_TIME && end != ZERO_TIME && start < end && end - start <= MAX_SHUTDOWN_DAYS * DAY
  }

  predicate Active(h: Header) {
    h.phase == Planned || h.phase == InProgress
  }

  /** Half-open windows that share an instant. */
  predicate Overlap(a0: int, a1: int, b0: int, b1: int) {
    a0 < b1 && b0 < a1
  }

  function SeenTags(tags: seq<string>): set<string> {
    set t | t in tags :: Upper(Trim(t))
  }

  lemma SeenMore(tags: seq<string>, n: nat)
    requires n < |tags|
    ensures SeenTags(tags[..n + 1]) == SeenTags(tags[..n]) + {Upper(Trim(tags[n]))}
  {
    assert tags[..n + 1] == tags[..n] + [tags[n]];
  }

  /** The machines named by the first `n` tags: blanks and repeats skipped, and
      an unknown, foreign or retired machine refused. */
  function Resolve(assets: map<string, Asset>, plant: string, tags: seq<string>, n: nat): (r: Result<seq<string>>)
    requires n <= |tags|
  {
    if n == 0 then Ok([])
    else
      var before := Resolve(assets, plant, tags, n - 1);
      if before.Err? then before
      else
        var tag := Trim(tags[n - 1]);
        if tag == "" || Upper(tag) in SeenTags(tags[..n - 1]) then before
        else if tag !in assets || assets[tag].plant != plant || assets[tag].status == Retired then Err(BadInput)
        else Ok(before.value + [tag])
  }

  /** Another shutdown of the plant, not called off or over, has one of the machines in that window. */
  ghost predicate Clash(headers: seq<Header>, plant: string, machines: seq<string>, start: int, end: int,
                        self: string) {
    exists i, m :: 0 <= i < |headers| && 0 <= m < |machines|
                   && ClashAt(headers[i], plant, machines[m], start, end, self)
  }

  predicate ClashAt(o: Header, plant: string, machine: string, start: int, end: int, self: string) {
    && o.plant == plant && o.code != self && Active(o)
    && Overlap(o.startsAt, o.endsAt, start, end) && machine in o.machines
  }

  /** checkMachines. */
  ghost function CheckMachines(s: State, plant: string, tags: seq<string>, start: int, end: int, self: string)
    : Result<seq<string>> {
    if tags == [] then Err(BadInput)
    else
      var r := Resolve(s.assets, plant, tags, |tags|);
      if r.Ok? && Clash(s.headers, plant, r.value, start, end, self) then Err(Conflict) else r
  }

  // ---------------------------------------------------------------------------
  // Stops in bulk
  // ---------------------------------------------------------------------------

  /** Some machines, or all of them. */
  datatype Machines = All | Only(tags: seq<string>) {
    predicate Has(tag: string) { All? || tag in tags }
  }

  predicate Tagged(d: Stop, code: string) {
    d.shutdown == Some(code)
  }

  function PlannedStop(h: Header, machine: string): Stop {
    Stop(machine, Scheduled, h.startsAt, None, Some(h.startsAt), Some(h.endsAt), Some(h.code), 0, 0)
  }

  function PlanStops(h: Header, machines: seq<string>): (r: seq<Stop>)
    ensures |r| == |machines|
  {
    seq(|machines|, i requires 0 <= i < |machines| => PlannedStop(h, machines[i]))
  }

  function MoveStops(stops: seq<Stop>, code: string, start: int, end: int): (r: seq<Stop>)
    ensures |r| == |stops|
  {
    seq(|stops|, i requires 0 <= i < |stops| => if Tagged(stops[i], code) then Move(stops[i], start, end) else stops[i])
  }

  /** The planned stops of a shutdown on the given machines are dropped. */
  function DropStops(stops: seq<Stop>, code: string, on: Machines): (r: seq<Stop>)
    ensures |r| == |stops|
  {
    seq(|stops|, i requires 0 <= i < |stops| =>
      if Tagged(stops[i], code) && stops[i].state == Scheduled && on.Has(stops[i].asset)
      then stops[i].(state := StopState.Cancelled) else stops[i])
  }

  function StartStops(stops: seq<Stop>, code: string, now: int, bus: bool): (r: seq<Stop>)
    ensures |r| == |stops|
  {
    seq(|stops|, i requires 0 <= i < |stops| =>
      if Tagged(stops[i], code) && stops[i].state == Scheduled then Start(stops[i], now, bus).value else stops[i])
  }

  function EndStops(stops: seq<Stop>, code: string, now: int, bus: bool): (r: seq<Stop>)
    ensures |r| == |stops|
  {
    seq(|stops|, i requires 0 <= i < |stops| =>
      if Tagged(stops[i], code) && stops[i].state == Open then End(stops[i], now, bus).value else stops[i])
  }

  /** A registered machine gets a status; an unknown tag changes nothing. */
  function SetStatus(assets: map<string, Asset>, tag: string, status: AssetStatus): map<string, Asset> {
    if tag in assets then assets[tag := assets[tag].(status := status)] else assets
  }

  /** The machines of those of the first `n` stops with the tag and state get a status. */
  function SetStatuses(assets: map<string, Asset>, stops: seq<Stop>, code: string, state: StopState,
                       status: AssetStatus, n: nat): map<string, Asset>
    requires n <= |stops|
  {
    if n == 0 then assets
    else
      var a := SetStatuses(assets, stops, code, state, status, n - 1);
      if Tagged(stops[n - 1], code) && stops[n - 1].state == state then SetStatus(a, stops[n - 1].asset, status) else a
  }

  // ---------------------------------------------------------------------------
  // Work orders
  // ---------------------------------------------------------------------------

  predicate IsLive(o: WorkOrder) {
    o.status.Live?
  }

  /** GetWorkOrder: the order with a number. */
  function FindOrder(orders: seq<WorkOrder>, num: string): (r: Option<nat>)
    ensures r.Some? ==> r.value < |orders| && orders[r.value].num == num && orders[r.value].status != Removed
    ensures r.None? ==> forall i :: 0 <= i < |orders| && orders[i].status != Removed ==> orders[i].num != num
  {
    if orders == [] then None
    else
      var o := orders[|orders| - 1];
      if o.num == num && o.status != Removed then Some(|orders| - 1) else FindOrder(orders[..|orders| - 1], num)
  }

  /** The live orders of a shutdown on the given machines are taken out of it. */
  function Release(orders: seq<WorkOrder>, code: string, on: Machines): (r: seq<WorkOrder>)
    ensures |r| == |orders|
  {
    seq(|orders|, i requires 0 <= i < |orders| =>
      if orders[i].shutdown == Some(code) && IsLive(orders[i]) && on.Has(orders[i].asset)
      then orders[i].(shutdown := None) else orders[i])
  }

  const NUM_PREFIX := "WO-"
  const FIRST_NUM: nat := 2280

  /** The number in `WO-<digits>`; any other text counts as 0. */
  function NumOf(num: string): nat {
    if |num| > 3 && num[..3] == NUM_PREFIX && (forall i :: 3 <= i < |num| ==> IsDigit(num[i])) then ValueOf(num[3..])
    else 0
  }

  function MaxNum(orders: seq<WorkOrder>): (r: nat)
    ensures forall i :: 0 <= i < |orders| && orders[i].status != Removed ==> NumOf(orders[i].num) <= r
  {
    if orders == [] then 0
    else
      var before, last := MaxNum(orders[..|orders| - 1]), orders[|orders| - 1];
      if last.status != Removed && before < NumOf(last.num) then NumOf(last.num) else before
  }

  predicate HasRows(orders: seq<WorkOrder>) {
    exists i :: 0 <= i < |orders| && orders[i].status != Removed
  }

  /** NextWorkOrderNum. */
  function NextNum(orders: seq<WorkOrder>): string {
    NUM_PREFIX + Decimal((if HasRows(orders) then MaxNum(orders) else FIRST_NUM) + 1)
  }

  /** No order there is has that number; one that was deleted may have had it. */
  lemma NextNumIsFresh(orders: seq<WorkOrder>)
    ensures forall i :: 0 <= i < |orders| && orders[i].status != Removed ==> orders[i].num != NextNum(orders)
  {
    var n := (if HasRows(orders) then MaxNum(orders) else FIRST_NUM) + 1;
    DecimalRoundTrip(n);
    assert NextNum(orders)[3..] == Decimal(n) && NextNum(orders)[..3] == NUM_PREFIX;
    assert NumOf(NextNum(orders)) == n;
  }

  /** The newest live order raised for a schedule. */
  function OpenOrderFor(orders: seq<WorkOrder>, schedule: nat): (r: Option<nat>)
    ensures r.Some? ==> r.value < |orders| && IsLive(orders[r.value]) && orders[r.value].schedule == Some(schedule)
    ensures r.None? ==> forall i :: 0 <= i < |orders| && IsLive(orders[i]) ==> orders[i].schedule != Some(schedule)
  {
    if orders == [] then None
    else if IsLive(orders[|orders| - 1]) && orders[|orders| - 1].schedule == Some(schedule) then Some(|orders| - 1)
    else OpenOrderFor(orders[..|orders| - 1], schedule)
  }

  // ---------------------------------------------------------------------------
  // The operations
  // ---------------------------------------------------------------------------

  /** A new state and, when the operation stopped, why. */
  datatype Outcome = Outcome(state: State, error: Option<Error>)

  function Refuse(s: State, e: Error): Outcome { Outcome(s, Some(e)) }
  function Done(s: State): Outcome { Outcome(s, None) }

  /** CreateShutdown; `stamp` is the start day as written in codes. */
  ghost function Plan(s: State, q: Request, now: int, stamp: string): Outcome {
    var plant, title := Trim(q.plant), Trim(q.title);
    if plant == "" || plant !in s.plants || title == "" || |title| > MAX_TITLE then Refuse(s, BadInput)
    else if !WindowOk(q.startsAt, q.endsAt) || q.endsAt < now then Refuse(s, BadInput)
    else
      var machines := CheckMachines(s, plant, q.machines, q.startsAt, q.endsAt, "");
      if machines.Err? then Refuse(s, machines.error)
      else
        var base := BaseCode(plant, stamp);
        var code := CodeAt(base, FreeFrom(Codes(s.headers), base, 1));
        var h := Header(code, plant, title, q.startsAt, q.endsAt, Planned, machines.value, None, None);
        Done(s.(headers := s.headers + [h], stops := s.stops + PlanStops(h, machines.value)))
  }

  /** The elements of `a` that are not in `b`. */
  function Minus(a: seq<string>, b: seq<string>): (r: seq<string>)
    ensures forall x :: x in r <==> x in a && x !in b
  {
    if a == [] then []
    else Minus(a[..|a| - 1], b) + (if a[|a| - 1] in b then [] else [a[|a| - 1]])
  }

  function Patched(h: Header, p: Patch): Header {
    h.(title := if p.title.Some? then Trim(p.title.value) else h.title,
       startsAt := if p.startsAt.Some? then p.startsAt.value else h.startsAt,
       endsAt := if p.endsAt.Some? then p.endsAt.value else h.endsAt)
  }

  predicate TitleOk(p: Patch) {
    p.title.Some? ==> Trim(p.title.value) != "" && |Trim(p.title.value)| <= MAX_TITLE
  }

  /** The tables after header `i` becomes `h`: its planned stops move if its
      window did, stops of removed machines are dropped, added machines get a
      stop, and live jobs of removed machines leave the shutdown. */
  ghost function Amended(s: State, i: nat, h: Header): State
    requires i < |s.headers|
  {
    var was := s.headers[i];
    var added, removed := Minus(h.machines, was.machines), Minus(was.machines, h.machines);
    var moved := if h.startsAt != was.startsAt || h.endsAt != was.endsAt
                 then MoveStops(s.stops, h.code, h.startsAt, h.endsAt) else s.stops;
    s.(headers := s.headers[i := h],
       stops := DropStops(moved, h.code, Only(removed)) + PlanStops(h, added),
       orders := Release(s.orders, h.code, Only(removed)))
  }

  /** UpdateShutdown. */
  ghost function Amend(s: State, code: string, p: Patch): Outcome {
    var i := FindHeader(s.headers, code);
    if i.None? then Refuse(s, NotFound)
    else
      var was := s.headers[i.value];
      if was.phase != Planned then Refuse(s, Conflict)
      else if !TitleOk(p) then Refuse(s, BadInput)
      else
        var h := Patched(was, p);
        if !WindowOk(h.startsAt, h.endsAt) then Refuse(s, BadInput)
        else
          var tags := if p.machines.Some? then p.machines.value else was.machines;
          var machines := CheckMachines(s, h.plant, tags, h.startsAt, h.endsAt, code);
          if machines.Err? then Refuse(s, machines.error)
          else Done(Amended(s, i.value, h.(machines := machines.value)))
  }

  /** StartShutdown. */
  function Begin(s: State, code: string, now: int): Outcome {
    var i := FindHeader(s.headers, code);
    if i.None? then Refuse(s, NotFound)
    else if s.headers[i.value].phase != Planned then Refuse(s, Conflict)
    else Done(s.(headers := s.headers[i.value := s.headers[i.value].(phase := InProgress, startedAt := Some(now))],
                 stops := StartStops(s.stops, code, now, s.bus),
                 assets := SetStatuses(s.assets, s.stops, code, Scheduled, Down, |s.stops|)))
  }

  /** FinishShutdown. */
  function Conclude(s: State, code: string, now: int): Outcome {
    var i := FindHeader(s.headers, code);
    if i.None? then Refuse(s, NotFound)
    else if s.headers[i.value].phase != InProgress then Refuse(s, Conflict)
    else Done(s.(headers := s.headers[i.value := s.headers[i.value].(phase := Completed, finishedAt := Some(now))],
                 stops := EndStops(s.stops, code, now, s.bus),
                 assets := SetStatuses(s.assets, s.stops, code, Open, Idle, |s.stops|)))
  }

  /** CancelShutdown. */
  ghost function CallOff(s: State, code: string): Outcome {
    var i := FindHeader(s.headers, code);
    if i.None? then Refuse(s, NotFound)
    else if s.headers[i.value].phase != Planned then Refuse(s, Conflict)
    else Done(s.(headers := s.headers[i.value := s.headers[i.value].(phase := CalledOff)],
                 stops := DropStops(s.stops, code, All),
                 orders := Release(s.orders, code, All)))
  }

  function DayOf(t: int): int { t / DAY }

  /** Putting one order into a shutdown. */
  function Join(s: State, h: Header, num: string): Outcome {
    var k := FindOrder(s.orders, num);
    if k.None? then Refuse(s, BadInput)
    else
      var o := s.orders[k.value];
      if o.asset !in h.machines || !IsLive(o) then Refuse(s, BadInput)
      else if o.shutdown.Some? && o.shutdown.value != "" && o.shutdown.value != h.code then Refuse(s, Conflict)
      else
        var day := DayOf(h.startsAt);
        var planned := if o.plannedDay.None? || o.plannedDay.value < day then Some(day) else o.plannedDay;
        Done(s.(orders := s.orders[k.value := o.(shutdown := Some(h.code), plannedDay := planned)]))
  }

  /** The orders to add, one after the other, until one is refused. */
  function JoinAll(s: State, h: Header, nums: seq<string>): Outcome
    decreases |nums|
  {
    if nums == [] then Done(s)
    else
      var o := Join(s, h, Trim(nums[0]));
      if o.error.Some? then o else JoinAll(o.state, h, nums[1..])
  }

  /** A schedule's next job: the one already raised, or one raised now. */
  function Bring(s: State, h: Header, schedule: nat): Outcome {
    if schedule !in s.schedules || s.schedules[schedule] !in h.machines then Refuse(s, BadInput)
    else
      var k := OpenOrderFor(s.orders, schedule);
      if k.Some? then Join(s, h, s.orders[k.value].num)
      else
        var o := WorkOrder(NextNum(s.orders), s.schedules[schedule], Live("open"), Some(schedule), None, None);
        Join(s.(orders := s.orders + [o]), h, o.num)
  }

  function BringAll(s: State, h: Header, schedules: seq<nat>): Outcome
    decreases |schedules|
  {
    if schedules == [] then Done(s)
    else
      var o := Bring(s, h, schedules[0]);
      if o.error.Some? then o else BringAll(o.state, h, schedules[1..])
  }

  function Leave(s: State, h: Header, num: string): Outcome {
    var k := FindOrder(s.orders, num);
    if k.None? then Refuse(s, NotFound)
    else if s.orders[k.value].shutdown != Some(h.code) then Done(s)
    else Done(s.(orders := s.orders[k.value := s.orders[k.value].(shutdown := None)]))
  }

  function LeaveAll(s: State, h: Header, nums: seq<string>): Outcome
    decreases |nums|
  {
    if nums == [] then Done(s)
    else
      var o := Leave(s, h, Trim(nums[0]));
      if o.error.Some? then o else LeaveAll(o.state, h, nums[1..])
  }

  /** SetShutdownJobs: what was done before a refusal stays done. */
  function SetJobs(s: State, code: string, j: Jobs): Outcome {
    var i := FindHeader(s.headers, code);
    if i.None? then Refuse(s, NotFound)
    else
      var h := s.headers[i.value];
      if !Active(h) then Refuse(s, Conflict)
      else
        var a := JoinAll(s, h, j.add);
        if a.error.Some? then a
        else
          var b := BringAll(a.state, h, j.schedules);
          if b.error.Some? then b else LeaveAll(b.state, h, j.remove)
  }

  // ---------------------------------------------------------------------------
  // Deletions (internal/store/register_delete.go, internal/store/plants.go)
  // ---------------------------------------------------------------------------

  /** The shutdowns of every other factory: they live in the row of theirs. */
  function HeadersWithout(headers: seq<Header>, plant: string): seq<Header> {
    if headers == [] then []
    else
      var last := headers[|headers| - 1];
      HeadersWithout(headers[..|headers| - 1], plant) + (if last.plant == plant then [] else [last])
  }

  /** Machines stand on shop floors, so a factory with a machine has one. */
  predicate HasMachines(assets: map<string, Asset>, plant: string) {
    exists tag :: tag in assets && assets[tag].plant == plant
  }

  /** DeletePlant; `held` when an empty shop floor or other history is in the way. */
  function DropPlant(s: State, name: string, held: bool): Outcome {
    var plant := Trim(name);
    if plant == "" then Refuse(s, BadInput)
    else if HasMachines(s.assets, plant) then Refuse(s, Conflict)
    else if plant !in s.plants then Refuse(s, NotFound)
    else if held then Refuse(s, Conflict)
    else Done(s.(headers := HeadersWithout(s.headers, plant), plants := s.plants - {plant}))
  }

  /** DeleteWorkOrder; `held` when a schedule block refers to it. */
  function DropOrder(s: State, name: string, held: bool): Outcome {
    var num := Trim(name);
    var k := FindOrder(s.orders, num);
    if num == "" then Refuse(s, BadInput)
    else if k.None? then Refuse(s, NotFound)
    else if held then Refuse(s, Conflict)
    else Done(s.(orders := s.orders[k.value := s.orders[k.value].(status := Removed)]))
  }

  /** Some record of a stop or an order names the machine. */
  predicate HasHistory(s: State, tag: string) {
    || (exists i :: 0 <= i < |s.stops| && s.stops[i].state != Deleted && s.stops[i].asset == tag)
    || (exists i :: 0 <= i < |s.orders| && s.orders[i].status != Removed && s.orders[i].asset == tag)
  }

  /** DeleteAsset; `held` when other history is in the way. */
  function DropAsset(s: State, name: string, held: bool): Outcome {
    var tag := Trim(name);
    if tag == "" then Refuse(s, BadInput)
    else if tag !in s.assets then Refuse(s, NotFound)
    else if held || HasHistory(s, tag) then Refuse(s, Conflict)
    else Done(s.(assets := s.assets - {tag}))
  }
}
