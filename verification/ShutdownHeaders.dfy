/**
  The headers of shutdowns (internal/store/shutdown.go) over every run whatever:
  which machines they list, that no machine is in two of them at once, and that no
  code is used twice.
 */
module ShutdownHeaders {
  import opened Wrappers
  import opened Text
  import opened Downtime
  import opened ShutdownModel
  import opened ShutdownRuns

  ghost predicate Distinct(a: seq<string>) {
    forall i, j :: 0 <= i < j < |a| ==> a[i] != a[j]
  }

  ghost predicate HeaderOk(h: Header) {
    h.code != "" && WindowOk(h.startsAt, h.endsAt) && Distinct(h.machines)
  }

  ghost predicate CodesUnique(headers: seq<Header>) {
    forall i, j :: 0 <= i < j < |headers| ==> headers[i].code != headers[j].code
  }

  /** Two shutdowns of a plant, neither called off nor over, whose windows
      overlap share no machine. */
  ghost predicate Apart(a: Header, b: Header) {
    a.plant == b.plant && Active(a) && Active(b) && Overlap(a.startsAt, a.endsAt, b.startsAt, b.endsAt)
    ==> forall m :: m in a.machines ==> m !in b.machines
  }

  ghost predicate NoDoubleBooking(headers: seq<Header>) {
    forall i, j :: 0 <= i < |headers| && 0 <= j < |headers| && i != j ==> Apart(headers[i], headers[j])
  }

  ghost predicate HeadersInv(headers: seq<Header>) {
    && CodesUnique(headers) && NoDoubleBooking(headers)
    && forall i :: 0 <= i < |headers| ==> HeaderOk(headers[i])
  }

  lemma SameCode(headers: seq<Header>, i: nat, j: nat)
    requires CodesUnique(headers) && i < |headers| && j < |headers| && headers[i].code == headers[j].code
    ensures i == j
  {}

  // ---------------------------------------------------------------------------
  // What checkMachines guarantees
  // ---------------------------------------------------------------------------

  /** The machines resolved are registered at the plant, not retired, and each named once. */
  lemma {:induction false} ResolvedMachines(assets: map<string, Asset>, plant: string, tags: seq<string>, n: nat)
    requires n <= |tags| && Resolve(assets, plant, tags, n).Ok?
    ensures var out := Resolve(assets, plant, tags, n).value;
      && Distinct(out)
      && (forall m :: m in out ==> m in assets && assets[m].plant == plant && assets[m].status != Retired)
      && (forall m :: m in out ==> Upper(m) in SeenTags(tags[..n]))
    decreases n
  {
    if n > 0 {
      ResolvedMachines(assets, plant, tags, n - 1);
      SeenMore(tags, n - 1);
    }
  }

  ghost predicate Named(out: seq<string>, tag: string) {
    exists m :: m in out && Upper(m) == Upper(tag)
  }

  lemma NamedStays(before: seq<string>, out: seq<string>, tag: string)
    requires before <= out && Named(before, tag)
    ensures Named(out, tag)
  {
    var m :| m in before && Upper(m) == Upper(tag);
    assert m in out;
  }

  /** Every tag that is not blank names one of them, up to case. */
  lemma {:induction false} EveryTagIsNamed(assets: map<string, Asset>, plant: string, tags: seq<string>, n: nat, i: nat)
    requires i < n <= |tags| && Resolve(assets, plant, tags, n).Ok? && Trim(tags[i]) != ""
    ensures Named(Resolve(assets, plant, tags, n).value, Trim(tags[i]))
    decreases n
  {
    var before, out := Resolve(assets, plant, tags, n - 1).value, Resolve(assets, plant, tags, n).value;
    var tag := Trim(tags[n - 1]);
    if i < n - 1 {
      EveryTagIsNamed(assets, plant, tags, n - 1, i);
      NamedStays(before, out, Trim(tags[i]));
    } else if Upper(tag) in SeenTags(tags[..n - 1]) {
      var t :| t in tags[..n - 1] && Upper(Trim(t)) == Upper(tag);
      var k :| 0 <= k < n - 1 && tags[k] == t;
      UpperLength(tag);
      UpperLength(Trim(t));
      EveryTagIsNamed(assets, plant, tags, n - 1, k);
      NamedStays(before, out, Trim(tags[k]));
    } else {
      assert tag in out;
    }
  }

  lemma UpperLength(s: string)
    ensures |Upper(s)| == |s|
  {}

  lemma {:induction false} BlankTagsAddNothing(assets: map<string, Asset>, plant: string, tags: seq<string>, n: nat)
    requires n <= |tags| && Resolve(assets, plant, tags, n).Ok? && forall i :: 0 <= i < n ==> Trim(tags[i]) == ""
    ensures Resolve(assets, plant, tags, n).value == []
    decreases n
  {
    if n > 0 { BlankTagsAddNothing(assets, plant, tags, n - 1); }
  }

  /** The check finds no machine at all exactly when every tag is blank, although it
      means to refuse a shutdown of none. */
  lemma {:induction false} NoMachineExactlyWhenBlank(assets: map<string, Asset>, plant: string, tags: seq<string>,
                                                     n: nat)
    requires n <= |tags| && Resolve(assets, plant, tags, n).Ok?
    ensures Resolve(assets, plant, tags, n).value == [] <==> forall i :: 0 <= i < n ==> Trim(tags[i]) == ""
  {
    if forall i :: 0 <= i < n ==> Trim(tags[i]) == "" {
      BlankTagsAddNothing(assets, plant, tags, n);
    } else {
      var i :| 0 <= i < n && Trim(tags[i]) != "";
      EveryTagIsNamed(assets, plant, tags, n, i);
    }
  }

  // ---------------------------------------------------------------------------
  // One operation
  // ---------------------------------------------------------------------------

  lemma OneHeaderApart(headers: seq<Header>, i: nat, h: Header)
    requires NoDoubleBooking(headers) && i < |headers|
    requires forall j :: 0 <= j < |headers| && j != i ==> Apart(h, headers[j])
    ensures NoDoubleBooking(headers[i := h])
  {
    var after := headers[i := h];
    forall a, b | 0 <= a < |after| && 0 <= b < |after| && a != b ensures Apart(after[a], after[b]) {
      assert Apart(headers[a], headers[b]);
      if b == i { assert Apart(h, headers[a]); }
    }
  }

  lemma ApartWithout(a: Header, a': Header, b: Header)
    requires Apart(a, b) && a'.plant == a.plant && a'.startsAt == a.startsAt && a'.endsAt == a.endsAt
    requires a'.machines == a.machines && (Active(a') ==> Active(a))
    ensures Apart(a', b)
  {}

  /** No clash found keeps a shutdown apart from every other header. */
  lemma NoClashMeansApart(headers: seq<Header>, h: Header, self: string, j: nat)
    requires j < |headers| && headers[j].code != self
    requires !Clash(headers, h.plant, h.machines, h.startsAt, h.endsAt, self)
    ensures Apart(h, headers[j])
  {
    var o := headers[j];
    if h.plant == o.plant && Active(o) && Overlap(h.startsAt, h.endsAt, o.startsAt, o.endsAt) {
      forall m | m in h.machines ensures m !in headers[j].machines {
        var k :| 0 <= k < |h.machines| && h.machines[k] == m;
        assert !ClashAt(headers[j], h.plant, h.machines[k], h.startsAt, h.endsAt, self);
      }
    }
  }

  lemma NewHeaderApart(headers: seq<Header>, h: Header)
    requires NoDoubleBooking(headers) && (forall i :: 0 <= i < |headers| ==> headers[i].code != "")
    requires !Clash(headers, h.plant, h.machines, h.startsAt, h.endsAt, "")
    ensures NoDoubleBooking(headers + [h])
  {
    var after, n := headers + [h], |headers|;
    forall i, j | 0 <= i < |after| && 0 <= j < |after| && i != j ensures Apart(after[i], after[j]) {
      if i == n { NoClashMeansApart(headers, h, "", j); }
      else if j == n { NoClashMeansApart(headers, h, "", i); }
      else { assert Apart(headers[i], headers[j]); }
    }
  }

  lemma PlanKeepsHeaders(s: State, q: Request, now: int, stamp: string)
    requires HeadersInv(s.headers)
    ensures HeadersInv(Plan(s, q, now, stamp).state.headers)
  {
    var o := Plan(s, q, now, stamp);
    if o.error.None? {
      var h, base := o.state.headers[|s.headers|], BaseCode(Trim(q.plant), stamp);
      FreeFromIsFirst(Codes(s.headers), base, 1);
      assert h.code[0] == 'S';
      ResolvedMachines(s.assets, h.plant, q.machines, |q.machines|);
      forall i | 0 <= i < |s.headers| ensures s.headers[i].code != h.code {
        assert s.headers[i].code in Codes(s.headers);
      }
      NewHeaderApart(s.headers, h);
    }
  }

  /** One header is replaced by one that is apart from the others. */
  lemma ReplacedHeader(headers: seq<Header>, i: nat, h: Header)
    requires HeadersInv(headers) && i < |headers| && h.code == headers[i].code && HeaderOk(h)
    requires forall j :: 0 <= j < |headers| && j != i ==> Apart(h, headers[j])
    ensures HeadersInv(headers[i := h])
  {
    OneHeaderApart(headers, i, h);
  }

  lemma AmendKeepsHeaders(s: State, code: string, p: Patch)
    requires HeadersInv(s.headers)
    ensures HeadersInv(Amend(s, code, p).state.headers)
  {
    var o := Amend(s, code, p);
    if o.error.None? {
      var i := FindHeader(s.headers, code).value;
      var was, h := s.headers[i], o.state.headers[i];
      var tags := if p.machines.Some? then p.machines.value else was.machines;
      ResolvedMachines(s.assets, was.plant, tags, |tags|);
      forall j | 0 <= j < |s.headers| && j != i ensures Apart(h, s.headers[j]) {
        NoClashMeansApart(s.headers, h, code, j);
      }
      ReplacedHeader(s.headers, i, h);
    }
  }

  /** A phase changes, and never back to active. */
  lemma PhaseKeepsHeaders(headers: seq<Header>, i: nat, h: Header)
    requires HeadersInv(headers) && i < |headers|
    requires h.code == headers[i].code && h.plant == headers[i].plant && h.machines == headers[i].machines
    requires h.startsAt == headers[i].startsAt && h.endsAt == headers[i].endsAt && (Active(h) ==> Active(headers[i]))
    ensures HeadersInv(headers[i := h])
  {
    assert HeaderOk(headers[i]);
    forall j | 0 <= j < |headers| && j != i ensures Apart(h, headers[j]) {
      ApartWithout(headers[i], h, headers[j]);
    }
    ReplacedHeader(headers, i, h);
  }

  lemma BeginKeepsHeaders(s: State, code: string, now: int)
    requires HeadersInv(s.headers)
    ensures HeadersInv(Begin(s, code, now).state.headers)
  {
    var o := Begin(s, code, now);
    if o.error.None? {
      var i := FindHeader(s.headers, code).value;
      PhaseKeepsHeaders(s.headers, i, o.state.headers[i]);
    }
  }

  lemma ConcludeKeepsHeaders(s: State, code: string, now: int)
    requires HeadersInv(s.headers)
    ensures HeadersInv(Conclude(s, code, now).state.headers)
  {
    var o := Conclude(s, code, now);
    if o.error.None? {
      var i := FindHeader(s.headers, code).value;
      PhaseKeepsHeaders(s.headers, i, o.state.headers[i]);
    }
  }

  lemma CallOffKeepsHeaders(s: State, code: string)
    requires HeadersInv(s.headers)
    ensures HeadersInv(CallOff(s, code).state.headers)
  {
    var o := CallOff(s, code);
    if o.error.None? {
      var i := FindHeader(s.headers, code).value;
      PhaseKeepsHeaders(s.headers, i, o.state.headers[i]);
    }
  }

  /** `at` says where each header left stood, in the same order. */
  ghost predicate LeftAt(headers: seq<Header>, plant: string, left: seq<Header>, at: seq<nat>) {
    && |at| == |left|
    && (forall i :: 0 <= i < |at| ==> at[i] < |headers| && headers[at[i]] == left[i] && left[i].plant != plant)
    && (forall i, j :: 0 <= i < j < |at| ==> at[i] < at[j])
  }

  lemma LeftAtMore(headers: seq<Header>, plant: string, left: seq<Header>, at: seq<nat>, h: Header)
    requires LeftAt(headers, plant, left, at)
    ensures LeftAt(headers + [h], plant, left, at)
    ensures h.plant != plant ==> LeftAt(headers + [h], plant, left + [h], at + [|headers|])
  {
    var all := headers + [h];
    assert forall i :: 0 <= i < |at| ==> all[at[i]] == headers[at[i]];
    assert all[|headers|] == h;
  }

  lemma {:induction false} HeadersLeft(headers: seq<Header>, plant: string) returns (at: seq<nat>)
    ensures LeftAt(headers, plant, HeadersWithout(headers, plant), at)
    decreases |headers|
  {
    at := [];
    if headers != [] {
      var front, last := headers[..|headers| - 1], headers[|headers| - 1];
      at := HeadersLeft(front, plant);
      LeftAtMore(front, plant, HeadersWithout(front, plant), at, last);
      assert headers == front + [last];
      if last.plant != plant { at := at + [|front|]; }
    }
  }

  /** And every header of another factory is left. */
  lemma {:induction false} OthersStay(headers: seq<Header>, plant: string, k: nat) returns (i: nat)
    requires k < |headers| && headers[k].plant != plant
    ensures i < |HeadersWithout(headers, plant)| && HeadersWithout(headers, plant)[i] == headers[k]
    decreases |headers|
  {
    var n := |headers| - 1;
    if k < n { i := OthersStay(headers[..n], plant, k); } else { i := |HeadersWithout(headers[..n], plant)|; }
  }

  lemma DropPlantKeepsHeaders(headers: seq<Header>, plant: string)
    requires HeadersInv(headers)
    ensures HeadersInv(HeadersWithout(headers, plant))
  {
    var at := HeadersLeft(headers, plant);
    var left := HeadersWithout(headers, plant);
    forall i, j | 0 <= i < |left| && 0 <= j < |left| && i != j ensures Apart(left[i], left[j]) {
      assert at[i] != at[j] by { if i < j { assert at[i] < at[j]; } else { assert at[j] < at[i]; } }
      assert Apart(headers[at[i]], headers[at[j]]);
    }
    forall i, j | 0 <= i < j < |left| ensures left[i].code != left[j].code {
      assert at[i] < at[j] && headers[at[i]].code != headers[at[j]].code;
    }
  }

  // ---------------------------------------------------------------------------
  // Setting jobs
  // ---------------------------------------------------------------------------

  /** Setting jobs writes orders only. */
  ghost predicate OrdersOnly(s: State, t: State) {
    t == s.(orders := t.orders)
  }

  lemma {:induction false} JoinAllOrders(s: State, h: Header, nums: seq<string>)
    ensures OrdersOnly(s, JoinAll(s, h, nums).state)
    decreases |nums|
  {
    if nums != [] {
      JoinOrders(s, h, Trim(nums[0]));
      JoinAllOrders(Join(s, h, Trim(nums[0])).state, h, nums[1..]);
    }
  }

  lemma JoinOrders(s: State, h: Header, num: string)
    ensures OrdersOnly(s, Join(s, h, num).state)
  {}

  lemma BringOrders(s: State, h: Header, id: nat)
    ensures OrdersOnly(s, Bring(s, h, id).state)
  {
    if id in s.schedules {
      var at := OpenOrderFor(s.orders, id);
      if at.Some? {
        JoinOrders(s, h, s.orders[at.value].num);
      } else {
        var o := WorkOrder(NextNum(s.orders), s.schedules[id], Live("open"), Some(id), None, None);
        JoinOrders(s.(orders := s.orders + [o]), h, o.num);
      }
    }
  }

  lemma {:induction false} BringAllOrders(s: State, h: Header, ids: seq<nat>)
    ensures OrdersOnly(s, BringAll(s, h, ids).state)
    decreases |ids|
  {
    if ids != [] {
      BringOrders(s, h, ids[0]);
      BringAllOrders(Bring(s, h, ids[0]).state, h, ids[1..]);
    }
  }

  lemma LeaveOrders(s: State, h: Header, num: string)
    ensures OrdersOnly(s, Leave(s, h, num).state)
  {}

  lemma {:induction false} LeaveAllOrders(s: State, h: Header, nums: seq<string>)
    ensures OrdersOnly(s, LeaveAll(s, h, nums).state)
    decreases |nums|
  {
    if nums != [] {
      LeaveOrders(s, h, Trim(nums[0]));
      LeaveAllOrders(Leave(s, h, Trim(nums[0])).state, h, nums[1..]);
    }
  }

  lemma JobsWriteOrders(s: State, code: string, j: Jobs)
    ensures OrdersOnly(s, SetJobs(s, code, j).state)
  {
    var at := FindHeader(s.headers, code);
    if at.Some? && Active(s.headers[at.value]) {
      var h := s.headers[at.value];
      JoinAllOrders(s, h, j.add);
      var a := JoinAll(s, h, j.add).state;
      BringAllOrders(a, h, j.schedules);
      LeaveAllOrders(BringAll(a, h, j.schedules).state, h, j.remove);
    }
  }

  // ---------------------------------------------------------------------------
  // Every run
  // ---------------------------------------------------------------------------

  /** Operations that write headers. */
  predicate WritesHeaders(op: Op) {
    || op.PlanShutdown? || op.AmendShutdown? || op.SetShutdownJobs? || op.StartShutdown? || op.FinishShutdown?
    || op.CancelShutdown? || op.DeletePlant?
  }

  lemma OthersLeaveHeaders(s: State, op: Op)
    requires !WritesHeaders(op)
    ensures Apply(s, op).headers == s.headers
  {}

  lemma PhaseOpKeepsHeaders(s: State, op: Op)
    requires HeadersInv(s.headers) && (op.StartShutdown? || op.FinishShutdown? || op.CancelShutdown?)
    ensures HeadersInv(Apply(s, op).headers)
  {
    match op
    case StartShutdown(code, now) => BeginKeepsHeaders(s, code, now);
    case FinishShutdown(code, now) => ConcludeKeepsHeaders(s, code, now);
    case CancelShutdown(code) => CallOffKeepsHeaders(s, code);
  }

  lemma OpKeepsHeaders(s: State, op: Op)
    requires HeadersInv(s.headers)
    ensures HeadersInv(Apply(s, op).headers)
  {
    if !WritesHeaders(op) {
      OthersLeaveHeaders(s, op);
    } else {
      match op
      case PlanShutdown(q, now, stamp) => PlanKeepsHeaders(s, q, now, stamp);
      case AmendShutdown(code, p) => AmendKeepsHeaders(s, code, p);
      case SetShutdownJobs(code, j) => JobsWriteOrders(s, code, j);
      case DeletePlant(code, held) => DropPlantKeepsHeaders(s.headers, Trim(code));
      case _ => PhaseOpKeepsHeaders(s, op);
    }
  }

  lemma CodesKept(headers: seq<Header>, after: seq<Header>)
    requires |after| >= |headers| && forall k :: 0 <= k < |headers| ==> after[k].code == headers[k].code
    ensures Codes(headers) <= Codes(after)
  {
    forall c | c in Codes(headers) ensures c in Codes(after) {
      var k :| 0 <= k < |headers| && headers[k].code == c;
      assert after[k].code == c;
    }
  }

  lemma PlanKeepsCodes(s: State, q: Request, now: int, stamp: string)
    ensures Codes(s.headers) <= Codes(Plan(s, q, now, stamp).state.headers)
  {
    CodesKept(s.headers, Plan(s, q, now, stamp).state.headers);
  }

  lemma AmendIsAmended(s: State, code: string, p: Patch) returns (i: nat, h: Header)
    requires Amend(s, code, p).error.None?
    ensures i < |s.headers| && Amend(s, code, p).state == Amended(s, i, h) && h.code == s.headers[i].code
  {
    i := FindHeader(s.headers, code).value;
    h := Amend(s, code, p).state.headers[i];
  }

  lemma AmendKeepsCodes(s: State, code: string, p: Patch)
    ensures Codes(s.headers) <= Codes(Amend(s, code, p).state.headers)
  {
    if Amend(s, code, p).error.None? {
      var i, h := AmendIsAmended(s, code, p);
      CodesKept(s.headers, s.headers[i := h]);
    }
  }

  lemma PhaseOpKeepsCodes(s: State, op: Op)
    requires op.StartShutdown? || op.FinishShutdown? || op.CancelShutdown?
    ensures Codes(s.headers) <= Codes(Apply(s, op).headers)
  {
    CodesKept(s.headers, Apply(s, op).headers);
  }

  /** Nothing but a deleted factory takes a code out of use. */
  lemma CodesStay(s: State, op: Op)
    requires !op.DeletePlant?
    ensures Codes(s.headers) <= Codes(Apply(s, op).headers)
  {
    if !WritesHeaders(op) {
      OthersLeaveHeaders(s, op);
    } else {
      match op
      case PlanShutdown(q, now, stamp) => PlanKeepsCodes(s, q, now, stamp);
      case AmendShutdown(code, p) => AmendKeepsCodes(s, code, p);
      case SetShutdownJobs(code, j) => JobsWriteOrders(s, code, j);
      case _ => PhaseOpKeepsCodes(s, op);
    }
  }

  lemma {:induction false} RunKeepsHeaders(s: State, ops: seq<Op>)
    requires HeadersInv(s.headers)
    ensures HeadersInv(Run(s, ops).headers)
    decreases |ops|
  {
    if ops != [] {
      RunKeepsHeaders(s, ops[..|ops| - 1]);
      OpKeepsHeaders(Run(s, ops[..|ops| - 1]), ops[|ops| - 1]);
    }
  }

  lemma ReachableHeaders(s: State, c: Scope)
    requires Reachable(s, c)
    ensures HeadersInv(s.headers)
  {
    var s0: State, ops: seq<Op> :| Fresh(s0) && RunWithin(s0, ops, c) && s == Run(s0, ops);
    RunKeepsHeaders(s0, ops);
  }

  /** No machine is in two shutdowns of its plant at once, and no code is used
      twice, whatever is edited or deleted. */
  lemma NoMachineTwice(s: State, i: nat, j: nat, m: string)
    requires Reachable(s, Anything) && i < |s.headers| && j < |s.headers| && i != j
    ensures s.headers[i].code != s.headers[j].code
    ensures var a, b := s.headers[i], s.headers[j];
      a.plant == b.plant && Active(a) && Active(b) && m in a.machines && m in b.machines
      ==> a.endsAt <= b.startsAt || b.endsAt <= a.startsAt
  {
    ReachableHeaders(s, Anything);
    assert Apart(s.headers[i], s.headers[j]);
  }

  // ---------------------------------------------------------------------------
  // Shutdowns of no machine
  // ---------------------------------------------------------------------------

  ghost predicate AllBlank(tags: seq<string>) {
    forall i :: 0 <= i < |tags| ==> Trim(tags[i]) == ""
  }

  /** A shutdown is planned on no machine exactly when all its tags are blank. */
  lemma PlannedOnNothing(s: State, q: Request, now: int, stamp: string)
    requires Plan(s, q, now, stamp).error.None?
    ensures var h := Plan(s, q, now, stamp).state.headers[|s.headers|];
      q.machines != [] && (h.machines == [] <==> AllBlank(q.machines))
  {
    NoMachineExactlyWhenBlank(s.assets, Trim(q.plant), q.machines, |q.machines|);
  }

  /** Changing one leaves it without machines exactly when all the new tags are
      blank; a change that gives no tags needs a shutdown that has machines. */
  lemma AmendedToNothing(s: State, code: string, p: Patch)
    requires Amend(s, code, p).error.None?
    ensures var i := FindHeader(s.headers, code).value;
      var tags := if p.machines.Some? then p.machines.value else s.headers[i].machines;
      tags != [] && (Amend(s, code, p).state.headers[i].machines == [] <==> AllBlank(tags))
  {
    var i := FindHeader(s.headers, code).value;
    var tags := if p.machines.Some? then p.machines.value else s.headers[i].machines;
    NoMachineExactlyWhenBlank(s.assets, s.headers[i].plant, tags, |tags|);
  }

  /** Tables of one factory and nothing else. */
  function OnePlant(plant: string): State {
    State([], [], [], map[], {plant}, map[], false)
  }

  lemma PlanOnNothing(q: Request, now: int, stamp: string)
    requires Trim(q.plant) != "" && 0 < |Trim(q.title)| <= MAX_TITLE
    requires WindowOk(q.startsAt, q.endsAt) && q.endsAt >= now && q.machines != [] && AllBlank(q.machines)
    ensures var o := Plan(OnePlant(Trim(q.plant)), q, now, stamp);
      && o.error.None? && |o.state.headers| == 1
      && o.state.headers[0].machines == [] && o.state.headers[0].phase == Planned
  {
    BlankTagsResolve(map[], Trim(q.plant), q.machines, |q.machines|);
  }

  /** Such a shutdown can be reached: any plan whose tags are all blank goes through
      at a factory with no shutdown yet. */
  lemma ShutdownOfNothingHappens(q: Request, now: int, stamp: string) returns (s: State)
    requires Trim(q.plant) != "" && 0 < |Trim(q.title)| <= MAX_TITLE
    requires WindowOk(q.startsAt, q.endsAt) && q.endsAt >= now && q.machines != [] && AllBlank(q.machines)
    ensures Reachable(s, OwnStops) && |s.headers| == 1 && s.headers[0].machines == [] && s.headers[0].phase == Planned
  {
    var s0, op := OnePlant(Trim(q.plant)), PlanShutdown(q, now, stamp);
    PlanOnNothing(q, now, stamp);
    FreshIsReachable(s0, OwnStops);
    ReachOneMore(s0, op, OwnStops);
    s := Apply(s0, op);
  }

  lemma {:induction false} BlankTagsResolve(assets: map<string, Asset>, plant: string, tags: seq<string>, n: nat)
    requires n <= |tags| && AllBlank(tags)
    ensures Resolve(assets, plant, tags, n) == Ok([])
    decreases n
  {
    if n > 0 { BlankTagsResolve(assets, plant, tags, n - 1); }
  }
}
