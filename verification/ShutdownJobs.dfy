/**
  The jobs of a shutdown (internal/store/shutdown.go): what setting them touches,
  how they end, and what becomes of those still open when the shutdown is over.
 */
module ShutdownJobs {
  import opened Wrappers
  import opened Text
  import opened Downtime
  import opened ShutdownModel
  import opened ShutdownRuns
  import opened ShutdownHeaders

  // ---------------------------------------------------------------------------
  // Numbers
  // ---------------------------------------------------------------------------

  /** No two orders there are have one number. */
  ghost predicate NumsUnique(orders: seq<WorkOrder>) {
    forall i, j :: 0 <= i < j < |orders| && orders[i].status != Removed && orders[j].status != Removed ==>
      orders[i].num != orders[j].num
  }

  /** The same order, apart from its shutdown and planned day. */
  predicate SameOrder(a: WorkOrder, b: WorkOrder) {
    b.num == a.num && b.asset == a.asset && b.status == a.status && b.schedule == a.schedule
  }

  lemma SameOrdersUnique(a: seq<WorkOrder>, b: seq<WorkOrder>)
    requires NumsUnique(a) && |b| == |a|
    requires forall m :: 0 <= m < |a| ==> b[m].num == a[m].num && (b[m].status == Removed <== a[m].status == Removed)
    ensures NumsUnique(b)
  {}

  lemma OneMoreUnique(orders: seq<WorkOrder>, o: WorkOrder)
    requires NumsUnique(orders)
    requires forall i :: 0 <= i < |orders| && orders[i].status != Removed ==> orders[i].num != o.num
    ensures NumsUnique(orders + [o])
  {}

  lemma BringKeepsNums(s: State, h: Header, id: nat)
    requires NumsUnique(s.orders)
    ensures NumsUnique(Bring(s, h, id).state.orders)
  {
    if id in s.schedules && s.schedules[id] in h.machines {
      var at := OpenOrderFor(s.orders, id);
      if at.Some? {
        SameOrdersUnique(s.orders, Bring(s, h, id).state.orders);
      } else {
        var o := WorkOrder(NextNum(s.orders), s.schedules[id], Live("open"), Some(id), None, None);
        NextNumIsFresh(s.orders);
        OneMoreUnique(s.orders, o);
        SameOrdersUnique(s.orders + [o], Bring(s, h, id).state.orders);
      }
    }
  }

  lemma {:induction false} JoinAllKeepsNums(s: State, h: Header, nums: seq<string>)
    requires NumsUnique(s.orders)
    ensures NumsUnique(JoinAll(s, h, nums).state.orders)
    decreases |nums|
  {
    if nums != [] {
      var o := Join(s, h, Trim(nums[0]));
      SameOrdersUnique(s.orders, o.state.orders);
      JoinAllKeepsNums(o.state, h, nums[1..]);
    }
  }

  lemma {:induction false} BringAllKeepsNums(s: State, h: Header, ids: seq<nat>)
    requires NumsUnique(s.orders)
    ensures NumsUnique(BringAll(s, h, ids).state.orders)
    decreases |ids|
  {
    if ids != [] {
      BringKeepsNums(s, h, ids[0]);
      BringAllKeepsNums(Bring(s, h, ids[0]).state, h, ids[1..]);
    }
  }

  lemma {:induction false} LeaveAllKeepsNums(s: State, h: Header, nums: seq<string>)
    requires NumsUnique(s.orders)
    ensures NumsUnique(LeaveAll(s, h, nums).state.orders)
    decreases |nums|
  {
    if nums != [] {
      var o := Leave(s, h, Trim(nums[0]));
      SameOrdersUnique(s.orders, o.state.orders);
      LeaveAllKeepsNums(o.state, h, nums[1..]);
    }
  }

  lemma SetJobsKeepsNums(s: State, code: string, j: Jobs)
    requires NumsUnique(s.orders)
    ensures NumsUnique(SetJobs(s, code, j).state.orders)
  {
    var at := FindHeader(s.headers, code);
    if at.Some? && Active(s.headers[at.value]) {
      var h := s.headers[at.value];
      JoinAllKeepsNums(s, h, j.add);
      var a := JoinAll(s, h, j.add).state;
      BringAllKeepsNums(a, h, j.schedules);
      LeaveAllKeepsNums(BringAll(a, h, j.schedules).state, h, j.remove);
    }
  }

  lemma RaiseKeepsNums(s: State, op: Op)
    requires NumsUnique(s.orders) && op.RaiseOrder?
    ensures NumsUnique(Apply(s, op).orders)
  {
    if FindOrder(s.orders, op.num).None? {
      OneMoreUnique(s.orders, WorkOrder(op.num, op.asset, Live("open"), op.schedule, None, None));
    }
  }

  lemma AmendKeepsNums(s: State, code: string, p: Patch)
    requires NumsUnique(s.orders)
    ensures NumsUnique(Amend(s, code, p).state.orders)
  {
    SameOrdersUnique(s.orders, Amend(s, code, p).state.orders);
  }

  lemma ShutdownKeepsNums(s: State, op: Op)
    requires NumsUnique(s.orders) && WritesHeaders(op) && !op.SetShutdownJobs?
    ensures NumsUnique(Apply(s, op).orders)
  {
    if op.AmendShutdown? {
      AmendKeepsNums(s, op.code, op.p);
    } else if op.CancelShutdown? {
      SameOrdersUnique(s.orders, Apply(s, op).orders);
    } else {
      assert Apply(s, op).orders == s.orders;
    }
  }

  lemma OthersKeepNums(s: State, op: Op)
    requires NumsUnique(s.orders) && !op.RaiseOrder? && !WritesHeaders(op)
    ensures NumsUnique(Apply(s, op).orders)
  {
    SameOrdersUnique(s.orders, Apply(s, op).orders);
  }

  lemma {:induction false} RunKeepsNums(s: State, ops: seq<Op>)
    requires NumsUnique(s.orders)
    ensures NumsUnique(Run(s, ops).orders)
    decreases |ops|
  {
    if ops != [] {
      var before, op := Run(s, ops[..|ops| - 1]), ops[|ops| - 1];
      RunKeepsNums(s, ops[..|ops| - 1]);
      if op.RaiseOrder? {
        RaiseKeepsNums(before, op);
      } else if op.SetShutdownJobs? {
        SetJobsKeepsNums(before, op.code, op.j);
      } else if WritesHeaders(op) {
        ShutdownKeepsNums(before, op);
      } else {
        OthersKeepNums(before, op);
      }
    }
  }

  /** In every reachable state no two orders have one number, although the number
      of a deleted order is given again. */
  lemma NumbersAreUnique(s: State, i: nat, j: nat)
    requires Reachable(s, Anything) && i < j < |s.orders|
    requires s.orders[i].status != Removed && s.orders[j].status != Removed
    ensures s.orders[i].num != s.orders[j].num
  {
    ReachableNums(s);
  }

  lemma ReachableNums(s: State)
    requires Reachable(s, Anything)
    ensures NumsUnique(s.orders)
  {
    var s0: State, ops: seq<Op> :| Fresh(s0) && RunWithin(s0, ops, Anything) && s == Run(s0, ops);
    RunKeepsNums(s0, ops);
  }

  // ---------------------------------------------------------------------------
  // What setting jobs touches
  // ---------------------------------------------------------------------------

  /** Order `k` exists. */
  predicate There(s: State, k: nat) {
    k < |s.orders| && s.orders[k].status != Removed
  }

  /** Orders may be added; order `k` is still the same one, and untouched unless `free`. */
  ghost predicate Keeps(s: State, s': State, k: nat, free: bool) {
    && NumsUnique(s'.orders) && k < |s.orders| <= |s'.orders|
    && SameOrder(s.orders[k], s'.orders[k]) && (!free ==> s'.orders[k] == s.orders[k])
  }

  lemma JoinTouches(s: State, h: Header, num: string, k: nat)
    requires NumsUnique(s.orders) && There(s, k)
    ensures Keeps(s, Join(s, h, num).state, k, s.orders[k].num == num)
  {
    SameOrdersUnique(s.orders, Join(s, h, num).state.orders);
  }

  lemma LeaveTouches(s: State, h: Header, num: string, k: nat)
    requires NumsUnique(s.orders) && There(s, k)
    ensures Keeps(s, Leave(s, h, num).state, k, s.orders[k].num == num)
  {
    SameOrdersUnique(s.orders, Leave(s, h, num).state.orders);
  }

  lemma BringTouches(s: State, h: Header, id: nat, k: nat)
    requires NumsUnique(s.orders) && There(s, k)
    ensures Keeps(s, Bring(s, h, id).state, k, s.orders[k].schedule == Some(id))
  {
    if id in s.schedules && s.schedules[id] in h.machines {
      var at := OpenOrderFor(s.orders, id);
      if at.Some? {
        JoinTouches(s, h, s.orders[at.value].num, k);
      } else {
        var o := WorkOrder(NextNum(s.orders), s.schedules[id], Live("open"), Some(id), None, None);
        NextNumIsFresh(s.orders);
        JoinTouches(s.(orders := s.orders + [o]), h, o.num, k);
      }
    }
  }

  /** A number, or a schedule, that the request gives. */
  ghost predicate Names(nums: seq<string>, num: string) {
    exists i :: 0 <= i < |nums| && Trim(nums[i]) == num
  }

  lemma {:induction false} JoinAllTouches(s: State, h: Header, nums: seq<string>, k: nat)
    requires NumsUnique(s.orders) && There(s, k)
    ensures Keeps(s, JoinAll(s, h, nums).state, k, Names(nums, s.orders[k].num))
    decreases |nums|
  {
    if nums != [] {
      JoinTouches(s, h, Trim(nums[0]), k);
      var o := Join(s, h, Trim(nums[0]));
      JoinAllTouches(o.state, h, nums[1..], k);
      NamesLater(nums, s.orders[k].num);
    }
  }

  lemma {:induction false} LeaveAllTouches(s: State, h: Header, nums: seq<string>, k: nat)
    requires NumsUnique(s.orders) && There(s, k)
    ensures Keeps(s, LeaveAll(s, h, nums).state, k, Names(nums, s.orders[k].num))
    decreases |nums|
  {
    if nums != [] {
      LeaveTouches(s, h, Trim(nums[0]), k);
      var o := Leave(s, h, Trim(nums[0]));
      LeaveAllTouches(o.state, h, nums[1..], k);
      NamesLater(nums, s.orders[k].num);
    }
  }

  lemma NamesLater(nums: seq<string>, num: string)
    requires nums != []
    ensures Names(nums, num) <==> Trim(nums[0]) == num || Names(nums[1..], num)
  {
    if Names(nums[1..], num) {
      var i :| 0 <= i < |nums| - 1 && Trim(nums[1..][i]) == num;
      assert Trim(nums[i + 1]) == num;
    }
    if Names(nums, num) && Trim(nums[0]) != num {
      var i :| 0 <= i < |nums| && Trim(nums[i]) == num;
      assert Trim(nums[1..][i - 1]) == num;
    }
  }

  lemma {:induction false} BringAllTouches(s: State, h: Header, ids: seq<nat>, k: nat)
    requires NumsUnique(s.orders) && There(s, k)
    ensures Keeps(s, BringAll(s, h, ids).state, k, s.orders[k].schedule.Some? && s.orders[k].schedule.value in ids)
    decreases |ids|
  {
    if ids != [] {
      BringTouches(s, h, ids[0], k);
      var o := Bring(s, h, ids[0]);
      BringAllTouches(o.state, h, ids[1..], k);
    }
  }

  /** Setting jobs, whether it goes through or stops half-way, touches only the
      shutdown and the planned day of orders, and only of orders the request
      names by number or by schedule. */
  lemma JobsTouchOnlyNamed(s: State, code: string, j: Jobs, k: nat)
    requires Reachable(s, Anything) && There(s, k)
    ensures var o := s.orders[k];
      Keeps(s, SetJobs(s, code, j).state, k,
            Names(j.add, o.num) || (o.schedule.Some? && o.schedule.value in j.schedules) || Names(j.remove, o.num))
  {
    ReachableNums(s);
    var at := FindHeader(s.headers, code);
    if at.Some? && Active(s.headers[at.value]) {
      var h := s.headers[at.value];
      JoinAllTouches(s, h, j.add, k);
      var a := JoinAll(s, h, j.add);
      BringAllTouches(a.state, h, j.schedules, k);
      LeaveAllTouches(BringAll(a.state, h, j.schedules).state, h, j.remove, k);
    }
  }

  // ---------------------------------------------------------------------------
  // Jobs end as asked
  // ---------------------------------------------------------------------------

  /** The order is in the shutdown, planned no earlier than its first day. */
  predicate InShutdown(o: WorkOrder, h: Header) {
    o.shutdown == Some(h.code) && o.plannedDay.Some? && o.plannedDay.value >= DayOf(h.startsAt)
  }

  lemma FindsTheOrder(s: State, k: nat)
    requires NumsUnique(s.orders) && There(s, k)
    ensures FindOrder(s.orders, s.orders[k].num) == Some(k)
  {
    var at := FindOrder(s.orders, s.orders[k].num).value;
    assert s.orders[at].num == s.orders[k].num;
  }

  lemma JoinPuts(s: State, h: Header, num: string, k: nat)
    requires NumsUnique(s.orders) && There(s, k) && Join(s, h, num).error.None?
    ensures s.orders[k].num == num || InShutdown(s.orders[k], h) ==> InShutdown(Join(s, h, num).state.orders[k], h)
  {
    FindsTheOrder(s, k);
  }

  lemma {:induction false} JoinAllPuts(s: State, h: Header, nums: seq<string>, k: nat)
    requires NumsUnique(s.orders) && There(s, k) && JoinAll(s, h, nums).error.None?
    ensures var t := JoinAll(s, h, nums).state;
      && k < |t.orders|
      && (Names(nums, s.orders[k].num) || InShutdown(s.orders[k], h) ==> InShutdown(t.orders[k], h))
    decreases |nums|
  {
    if nums != [] {
      var o := Join(s, h, Trim(nums[0]));
      JoinTouches(s, h, Trim(nums[0]), k);
      JoinPuts(s, h, Trim(nums[0]), k);
      JoinAllPuts(o.state, h, nums[1..], k);
      NamesLater(nums, s.orders[k].num);
    }
  }

  lemma BringPuts(s: State, h: Header, id: nat, k: nat)
    requires NumsUnique(s.orders) && There(s, k) && Bring(s, h, id).error.None?
    ensures InShutdown(s.orders[k], h) ==> InShutdown(Bring(s, h, id).state.orders[k], h)
  {
    var at := OpenOrderFor(s.orders, id);
    if at.Some? {
      JoinPuts(s, h, s.orders[at.value].num, k);
    } else {
      var o := WorkOrder(NextNum(s.orders), s.schedules[id], Live("open"), Some(id), None, None);
      NextNumIsFresh(s.orders);
      JoinPuts(s.(orders := s.orders + [o]), h, o.num, k);
    }
  }

  lemma {:induction false} BringAllPuts(s: State, h: Header, ids: seq<nat>, k: nat)
    requires NumsUnique(s.orders) && There(s, k) && BringAll(s, h, ids).error.None?
    ensures var t := BringAll(s, h, ids).state;
      k < |t.orders| && (InShutdown(s.orders[k], h) ==> InShutdown(t.orders[k], h))
    decreases |ids|
  {
    if ids != [] {
      var o := Bring(s, h, ids[0]);
      BringTouches(s, h, ids[0], k);
      BringPuts(s, h, ids[0], k);
      BringAllPuts(o.state, h, ids[1..], k);
    }
  }

  lemma LeaveTakes(s: State, h: Header, num: string, k: nat)
    requires NumsUnique(s.orders) && There(s, k) && Leave(s, h, num).error.None?
    ensures s.orders[k].num == num || s.orders[k].shutdown != Some(h.code)
      ==> Leave(s, h, num).state.orders[k].shutdown != Some(h.code)
  {
    FindsTheOrder(s, k);
  }

  lemma {:induction false} LeaveAllTakes(s: State, h: Header, nums: seq<string>, k: nat)
    requires NumsUnique(s.orders) && There(s, k) && LeaveAll(s, h, nums).error.None?
    ensures var t := LeaveAll(s, h, nums).state;
      && k < |t.orders|
      && (Names(nums, s.orders[k].num) || s.orders[k].shutdown != Some(h.code) ==> t.orders[k].shutdown != Some(h.code))
    decreases |nums|
  {
    if nums != [] {
      var o := Leave(s, h, Trim(nums[0]));
      LeaveTouches(s, h, Trim(nums[0]), k);
      LeaveTakes(s, h, Trim(nums[0]), k);
      LeaveAllTakes(o.state, h, nums[1..], k);
      NamesLater(nums, s.orders[k].num);
    }
  }

  /** When it goes through, every job named to be removed is out, and every job
      named to be added, and not also removed, is in, planned within the shutdown. */
  lemma JobsEndAsAsked(s: State, code: string, j: Jobs, k: nat)
    requires Reachable(s, Anything) && There(s, k) && SetJobs(s, code, j).error.None?
    ensures var h, t, num := s.headers[FindHeader(s.headers, code).value], SetJobs(s, code, j).state, s.orders[k].num;
      && k < |t.orders|
      && (Names(j.remove, num) ==> t.orders[k].shutdown != Some(h.code))
      && (Names(j.add, num) && !Names(j.remove, num) ==> InShutdown(t.orders[k], h))
  {
    ReachableNums(s);
    var h := s.headers[FindHeader(s.headers, code).value];
    var a := JoinAll(s, h, j.add).state;
    JoinAllPuts(s, h, j.add, k);
    JoinAllTouches(s, h, j.add, k);
    var b := BringAll(a, h, j.schedules).state;
    BringAllPuts(a, h, j.schedules, k);
    BringAllTouches(a, h, j.schedules, k);
    LeaveAllTakes(b, h, j.remove, k);
    LeaveAllTouches(b, h, j.remove, k);
  }

  // ---------------------------------------------------------------------------
  // Jobs brought forward by schedule
  // ---------------------------------------------------------------------------

  /** Order `k` is a live one of the schedule. */
  predicate LiveFor(orders: seq<WorkOrder>, k: nat, id: nat) {
    k < |orders| && IsLive(orders[k]) && orders[k].schedule == Some(id)
  }

  lemma BringBrings(s: State, h: Header, id: nat) returns (k: nat)
    requires NumsUnique(s.orders) && Bring(s, h, id).error.None?
    ensures var t := Bring(s, h, id).state; LiveFor(t.orders, k, id) && InShutdown(t.orders[k], h)
  {
    var at := OpenOrderFor(s.orders, id);
    if at.Some? {
      k := at.value;
      FindsTheOrder(s, k);
    } else {
      k := |s.orders|;
      var o := WorkOrder(NextNum(s.orders), s.schedules[id], Live("open"), Some(id), None, None);
      NextNumIsFresh(s.orders);
      OneMoreUnique(s.orders, o);
      FindsTheOrder(s.(orders := s.orders + [o]), k);
    }
  }

  lemma {:induction false} BringAllBrings(s: State, h: Header, ids: seq<nat>, id: nat) returns (k: nat)
    requires NumsUnique(s.orders) && BringAll(s, h, ids).error.None? && id in ids
    ensures var t := BringAll(s, h, ids).state; LiveFor(t.orders, k, id) && InShutdown(t.orders[k], h)
    decreases |ids|
  {
    var o := Bring(s, h, ids[0]).state;
    BringKeepsNums(s, h, ids[0]);
    if id == ids[0] {
      k := BringBrings(s, h, id);
      BringAllPuts(o, h, ids[1..], k);
      BringAllTouches(o, h, ids[1..], k);
    } else {
      k := BringAllBrings(o, h, ids[1..], id);
    }
  }

  /** When it goes through, every schedule named has a live order, and that is in the
      shutdown, planned within it, or out if it was also named to be removed. */
  lemma SchedulesEndAsAsked(s: State, code: string, j: Jobs, id: nat) returns (k: nat)
    requires Reachable(s, Anything) && SetJobs(s, code, j).error.None? && id in j.schedules
    ensures var h, t := s.headers[FindHeader(s.headers, code).value], SetJobs(s, code, j).state;
      && LiveFor(t.orders, k, id)
      && (if Names(j.remove, t.orders[k].num) then t.orders[k].shutdown != Some(h.code) else InShutdown(t.orders[k], h))
  {
    ReachableNums(s);
    var h := s.headers[FindHeader(s.headers, code).value];
    var a := JoinAll(s, h, j.add).state;
    JoinAllKeepsNums(s, h, j.add);
    k := BringAllBrings(a, h, j.schedules, id);
    var b := BringAll(a, h, j.schedules).state;
    BringAllKeepsNums(a, h, j.schedules);
    LeaveAllTakes(b, h, j.remove, k);
    LeaveAllTouches(b, h, j.remove, k);
  }

  /** No order is live for the schedule. */
  ghost predicate NoneFor(orders: seq<WorkOrder>, id: nat) {
    forall k :: 0 <= k < |orders| ==> !LiveFor(orders, k, id)
  }

  lemma BringRaises(s: State, h: Header, id: nat)
    ensures var t := Bring(s, h, id).state;
      && |s.orders| <= |t.orders| <= |s.orders| + 1
      && (|t.orders| > |s.orders| ==> NoneFor(s.orders, id) && LiveFor(t.orders, |s.orders|, id))
  {}

  lemma BringFindsNone(s: State, h: Header, id: nat, n: nat)
    requires NumsUnique(s.orders) && NoneFor(Bring(s, h, id).state.orders, n)
    ensures NoneFor(s.orders, n)
  {
    var t := Bring(s, h, id).state;
    forall k | 0 <= k < |s.orders| ensures !LiveFor(s.orders, k, n) {
      if There(s, k) {
        BringTouches(s, h, id, k);
        assert !LiveFor(t.orders, k, n);
      }
    }
  }

  /** An order is raised only for a schedule named that had no live one. */
  lemma {:induction false} BringAllRaises(s: State, h: Header, ids: seq<nat>, k: nat)
    requires NumsUnique(s.orders) && |s.orders| <= k < |BringAll(s, h, ids).state.orders|
    ensures var o := BringAll(s, h, ids).state.orders[k];
      o.schedule.Some? && o.schedule.value in ids && NoneFor(s.orders, o.schedule.value)
    decreases |ids|
  {
    var o := Bring(s, h, ids[0]).state;
    BringRaises(s, h, ids[0]);
    BringKeepsNums(s, h, ids[0]);
    if k < |o.orders| {
      BringAllTouches(o, h, ids[1..], k);
      assert SameOrder(o.orders[k], BringAll(s, h, ids).state.orders[k]);
    } else {
      BringAllRaises(o, h, ids[1..], k);
      BringFindsNone(s, h, ids[0], BringAll(s, h, ids).state.orders[k].schedule.value);
    }
  }

  /** The same orders, apart from shutdowns and planned days. */
  ghost predicate SameOrders(a: seq<WorkOrder>, b: seq<WorkOrder>) {
    |b| == |a| && forall k :: 0 <= k < |a| ==> SameOrder(a[k], b[k])
  }

  lemma {:induction false} JoinAllRaisesNone(s: State, h: Header, nums: seq<string>)
    ensures SameOrders(s.orders, JoinAll(s, h, nums).state.orders)
    decreases |nums|
  {
    if nums != [] { JoinAllRaisesNone(Join(s, h, Trim(nums[0])).state, h, nums[1..]); }
  }

  lemma {:induction false} LeaveAllRaisesNone(s: State, h: Header, nums: seq<string>)
    ensures SameOrders(s.orders, LeaveAll(s, h, nums).state.orders)
    decreases |nums|
  {
    if nums != [] { LeaveAllRaisesNone(Leave(s, h, Trim(nums[0])).state, h, nums[1..]); }
  }

  lemma RaisedAfterJoining(s: State, h: Header, j: Jobs, k: nat)
    requires NumsUnique(s.orders)
    requires |s.orders| <= k < |BringAll(JoinAll(s, h, j.add).state, h, j.schedules).state.orders|
    ensures var o := BringAll(JoinAll(s, h, j.add).state, h, j.schedules).state.orders[k];
      o.schedule.Some? && o.schedule.value in j.schedules && NoneFor(s.orders, o.schedule.value)
  {
    var a := JoinAll(s, h, j.add).state;
    JoinAllRaisesNone(s, h, j.add);
    JoinAllKeepsNums(s, h, j.add);
    BringAllRaises(a, h, j.schedules, k);
    var id := BringAll(a, h, j.schedules).state.orders[k].schedule.value;
    forall n | 0 <= n < |s.orders| ensures !LiveFor(s.orders, n, id) {
      assert SameOrder(s.orders[n], a.orders[n]) && !LiveFor(a.orders, n, id);
    }
  }

  /** Setting jobs, whether it goes through or stops half-way, raises orders only for
      schedules named that had no live one. */
  lemma RaisedOnlyForSchedules(s: State, code: string, j: Jobs, k: nat)
    requires Reachable(s, Anything) && |s.orders| <= k < |SetJobs(s, code, j).state.orders|
    ensures var o := SetJobs(s, code, j).state.orders[k];
      o.schedule.Some? && o.schedule.value in j.schedules && NoneFor(s.orders, o.schedule.value)
  {
    ReachableNums(s);
    var h := s.headers[FindHeader(s.headers, code).value];
    JoinAllRaisesNone(s, h, j.add);
    var b := BringAll(JoinAll(s, h, j.add).state, h, j.schedules).state;
    LeaveAllRaisesNone(b, h, j.remove);
    RaisedAfterJoining(s, h, j, k);
  }

  // ---------------------------------------------------------------------------
  // Jobs left open when a shutdown ends
  // ---------------------------------------------------------------------------

  /** The shutdown with the code is finished, or gone with its factory. */
  ghost predicate NotRunning(headers: seq<Header>, code: string) {
    forall i :: 0 <= i < |headers| && headers[i].code == code ==> headers[i].phase == Completed
  }

  /** Order `k` is tagged with a shutdown that is finished or gone. */
  ghost predicate LeftIn(s: State, k: nat, code: string) {
    k < |s.orders| && s.orders[k].shutdown == Some(code) && NotRunning(s.headers, code)
  }

  /** Order `k` is in the shutdown it was in. */
  ghost predicate KeepsTag(s: State, s': State, k: nat)
    requires k < |s.orders|
  {
    k < |s'.orders| && s'.orders[k].shutdown == s.orders[k].shutdown
  }

  lemma JoinKeepsTag(s: State, h: Header, num: string, k: nat)
    requires k < |s.orders| && s.orders[k].shutdown.Some? && s.orders[k].shutdown.value !in {"", h.code}
    ensures KeepsTag(s, Join(s, h, num).state, k)
  {}

  lemma {:induction false} JoinAllKeepsTag(s: State, h: Header, nums: seq<string>, k: nat)
    requires k < |s.orders| && s.orders[k].shutdown.Some? && s.orders[k].shutdown.value !in {"", h.code}
    ensures KeepsTag(s, JoinAll(s, h, nums).state, k)
    decreases |nums|
  {
    if nums != [] {
      JoinKeepsTag(s, h, Trim(nums[0]), k);
      JoinAllKeepsTag(Join(s, h, Trim(nums[0])).state, h, nums[1..], k);
    }
  }

  lemma BringKeepsTag(s: State, h: Header, id: nat, k: nat)
    requires k < |s.orders| && s.orders[k].shutdown.Some? && s.orders[k].shutdown.value !in {"", h.code}
    ensures KeepsTag(s, Bring(s, h, id).state, k)
  {}

  lemma {:induction false} BringAllKeepsTag(s: State, h: Header, ids: seq<nat>, k: nat)
    requires k < |s.orders| && s.orders[k].shutdown.Some? && s.orders[k].shutdown.value !in {"", h.code}
    ensures KeepsTag(s, BringAll(s, h, ids).state, k)
    decreases |ids|
  {
    if ids != [] {
      BringKeepsTag(s, h, ids[0], k);
      BringAllKeepsTag(Bring(s, h, ids[0]).state, h, ids[1..], k);
    }
  }

  lemma LeaveKeepsTag(s: State, h: Header, num: string, k: nat)
    requires k < |s.orders| && s.orders[k].shutdown.Some? && s.orders[k].shutdown.value != h.code
    ensures KeepsTag(s, Leave(s, h, num).state, k)
  {}

  lemma {:induction false} LeaveAllKeepsTag(s: State, h: Header, nums: seq<string>, k: nat)
    requires k < |s.orders| && s.orders[k].shutdown.Some? && s.orders[k].shutdown.value != h.code
    ensures KeepsTag(s, LeaveAll(s, h, nums).state, k)
    decreases |nums|
  {
    if nums != [] {
      LeaveKeepsTag(s, h, Trim(nums[0]), k);
      LeaveAllKeepsTag(Leave(s, h, Trim(nums[0])).state, h, nums[1..], k);
    }
  }

  lemma JobsKeepTag(s: State, code: string, j: Jobs, k: nat)
    requires k < |s.orders| && s.orders[k].shutdown.Some? && s.orders[k].shutdown.value !in {"", code}
    ensures KeepsTag(s, SetJobs(s, code, j).state, k)
  {
    var at := FindHeader(s.headers, code);
    if at.Some? && Active(s.headers[at.value]) {
      var h := s.headers[at.value];
      JoinAllKeepsTag(s, h, j.add, k);
      var a := JoinAll(s, h, j.add);
      if a.error.None? {
        BringAllKeepsTag(a.state, h, j.schedules, k);
        var b := BringAll(a.state, h, j.schedules);
        if b.error.None? { LeaveAllKeepsTag(b.state, h, j.remove, k); }
      }
    }
  }

  /** A header under another code changes, or one that is not finished is added under another. */
  lemma StaysLeft(s: State, t: State, k: nat, code: string)
    requires LeftIn(s, k, code) && KeepsTag(s, t, k)
    requires forall j :: 0 <= j < |t.headers| && t.headers[j].code == code ==> t.headers[j] in s.headers
    ensures LeftIn(t, k, code)
  {}

  /** The operation plans a shutdown under the code. */
  ghost predicate PlansUnder(s: State, op: Op, code: string) {
    op.PlanShutdown? && Plan(s, op.q, op.now, op.stamp).error.None?
    && LastCode(Plan(s, op.q, op.now, op.stamp).state.headers) == code
  }

  lemma PlanKeepsLeft(s: State, op: Op, k: nat, code: string)
    requires LeftIn(s, k, code) && op.PlanShutdown? && !PlansUnder(s, op, code)
    ensures LeftIn(Apply(s, op), k, code)
  {
    StaysLeft(s, Apply(s, op), k, code);
  }

  lemma AmendKeepsLeft(s: State, c: string, p: Patch, k: nat, code: string)
    requires LeftIn(s, k, code)
    ensures LeftIn(Amend(s, c, p).state, k, code)
  {
    StaysLeft(s, Amend(s, c, p).state, k, code);
  }

  lemma PhaseKeepsLeft(s: State, op: Op, k: nat, code: string)
    requires LeftIn(s, k, code) && (op.StartShutdown? || op.FinishShutdown? || op.CancelShutdown?)
    ensures LeftIn(Apply(s, op), k, code)
  {
    StaysLeft(s, Apply(s, op), k, code);
  }

  lemma JobsKeepLeft(s: State, c: string, j: Jobs, k: nat, code: string)
    requires code != "" && LeftIn(s, k, code)
    ensures LeftIn(SetJobs(s, c, j).state, k, code)
  {
    JobsWriteOrders(s, c, j);
    if c != code { JobsKeepTag(s, c, j, k); }
  }

  lemma DropPlantKeepsLeft(s: State, plant: string, held: bool, k: nat, code: string)
    requires LeftIn(s, k, code)
    ensures LeftIn(DropPlant(s, plant, held).state, k, code)
  {
    var at := HeadersLeft(s.headers, Trim(plant));
    StaysLeft(s, DropPlant(s, plant, held).state, k, code);
  }

  lemma OthersKeepLeft(s: State, op: Op, k: nat, code: string)
    requires LeftIn(s, k, code) && !WritesHeaders(op)
    ensures LeftIn(Apply(s, op), k, code)
  {
    OthersLeaveHeaders(s, op);
  }

  lemma LeftOverStays(s: State, op: Op, k: nat, code: string)
    requires code != "" && LeftIn(s, k, code) && !PlansUnder(s, op, code)
    ensures LeftIn(Apply(s, op), k, code)
  {
    if !WritesHeaders(op) {
      OthersKeepLeft(s, op, k, code);
    } else {
      match op
      case PlanShutdown(q, now, stamp) => PlanKeepsLeft(s, op, k, code);
      case AmendShutdown(c, p) => AmendKeepsLeft(s, c, p, k, code);
      case SetShutdownJobs(c, j) => JobsKeepLeft(s, c, j, k, code);
      case DeletePlant(plant, held) => DropPlantKeepsLeft(s, plant, held, k, code);
      case _ => PhaseKeepsLeft(s, op, k, code);
    }
  }

  ghost predicate NeverPlannedAgain(s: State, ops: seq<Op>, code: string)
    decreases |ops|
  {
    || ops == []
    || (NeverPlannedAgain(s, ops[..|ops| - 1], code) && !PlansUnder(Run(s, ops[..|ops| - 1]), ops[|ops| - 1], code))
  }

  /** A job left in a shutdown that finished, or whose factory was deleted, keeps
      its tag over every further run, and so can join no other shutdown, unless a
      new one is planned under the very code. */
  lemma {:induction false} LeftOverForGood(s: State, ops: seq<Op>, k: nat, code: string)
    requires code != "" && LeftIn(s, k, code) && NeverPlannedAgain(s, ops, code)
    ensures LeftIn(Run(s, ops), k, code)
    decreases |ops|
  {
    if ops != [] {
      LeftOverForGood(s, ops[..|ops| - 1], k, code);
      LeftOverStays(Run(s, ops[..|ops| - 1]), ops[|ops| - 1], k, code);
    }
  }

  /** That takes a deleted factory: while none is, the code stays in use. */
  lemma {:induction false} OnlyADeletedFactoryFreesACode(s: State, ops: seq<Op>, code: string)
    requires code in Codes(s.headers) && forall n :: 0 <= n < |ops| ==> !ops[n].DeletePlant?
    ensures NeverPlannedAgain(s, ops, code) && code in Codes(Run(s, ops).headers)
    decreases |ops|
  {
    if ops != [] {
      var before, op := Run(s, ops[..|ops| - 1]), ops[|ops| - 1];
      OnlyADeletedFactoryFreesACode(s, ops[..|ops| - 1], code);
      CodesStay(before, op);
      if PlansUnder(before, op, code) { NewCodeIsFree(before, op.q, op.now, op.stamp); }
    }
  }

  lemma NewCodeIsFree(s: State, q: Request, now: int, stamp: string)
    requires Plan(s, q, now, stamp).error.None?
    ensures LastCode(Plan(s, q, now, stamp).state.headers) !in Codes(s.headers)
  {
    FreeFromIsFirst(Codes(s.headers), BaseCode(Trim(q.plant), stamp), 1);
  }

  /** While it is tagged, joining another shutdown is refused. */
  lemma LeftOverJoinsNoOther(s: State, k: nat, code: string, h: Header)
    requires Reachable(s, Anything) && There(s, k) && code != "" && LeftIn(s, k, code) && Active(h) && h in s.headers
    ensures Join(s, h, s.orders[k].num).error.Some? && Join(s, h, s.orders[k].num).state == s
  {
    ReachableNums(s);
    FindsTheOrder(s, k);
  }
}
