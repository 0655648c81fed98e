/**
  The work orders of shutdowns over runs (internal/store/shutdown.go): a live order
  in a shutdown is on one of its machines, and what takes it out.
 */
module ShutdownOrders {
  import opened Wrappers
  import opened Text
  import opened Downtime
  import opened ShutdownModel
  import opened ShutdownRuns
  import opened ShutdownHeaders
  import opened ShutdownSafety

  // ---------------------------------------------------------------------------
  // The invariant
  // ---------------------------------------------------------------------------

  /** A live order in a shutdown is on a machine of a shutdown that was not called off. */
  ghost predicate OrderFits(o: WorkOrder, headers: seq<Header>) {
    IsLive(o) ==> Placed(o, headers)
  }

  ghost predicate AllFit(orders: seq<WorkOrder>, headers: seq<Header>) {
    forall k :: 0 <= k < |orders| ==> OrderFits(orders[k], headers)
  }

  // ---------------------------------------------------------------------------
  // Headers that come and change
  // ---------------------------------------------------------------------------

  lemma FitsGrow(o: WorkOrder, headers: seq<Header>, h: Header)
    requires OrderFits(o, headers)
    ensures OrderFits(o, headers + [h])
  {
    if IsLive(o) && o.shutdown.Some? {
      var k :| 0 <= k < |headers| && Takes(headers[k], o);
      assert (headers + [h])[k] == headers[k];
    }
  }

  /** An order fits after a header changed, if it left that shutdown, or was in
      another one, or the shutdown still takes it. */
  lemma OrderStillFits(o: WorkOrder, o': WorkOrder, headers: seq<Header>, i: nat, h: Header)
    requires OrderFits(o, headers) && i < |headers| && h.code == headers[i].code
    requires o'.asset == o.asset && (IsLive(o') ==> IsLive(o)) && (o'.shutdown == o.shutdown || o'.shutdown == None)
    requires IsLive(o') && o'.shutdown == o.shutdown && Takes(headers[i], o) ==> Takes(h, o')
    ensures OrderFits(o', headers[i := h])
  {
    if IsLive(o') && o'.shutdown.Some? {
      var k :| 0 <= k < |headers| && Takes(headers[k], o);
      assert Takes(headers[i := h][k], o');
    }
  }

  lemma PlanKeepsOrders(s: State, q: Request, now: int, stamp: string)
    requires AllFit(s.orders, s.headers)
    ensures var t := Plan(s, q, now, stamp).state; AllFit(t.orders, t.headers)
  {
    var o := Plan(s, q, now, stamp);
    if o.error.None? {
      forall k | 0 <= k < |s.orders| ensures OrderFits(o.state.orders[k], o.state.headers) {
        FitsGrow(s.orders[k], s.headers, o.state.headers[|s.headers|]);
      }
    }
  }

  lemma AmendedOrders(s: State, i: nat, h: Header)
    requires AllFit(s.orders, s.headers) && i < |s.headers| && h.code == s.headers[i].code && h.phase == Planned
    ensures AllFit(Amended(s, i, h).orders, s.headers[i := h])
  {
    var t := Amended(s, i, h);
    forall k | 0 <= k < |s.orders| ensures OrderFits(t.orders[k], s.headers[i := h]) {
      OrderStillFits(s.orders[k], t.orders[k], s.headers, i, h);
    }
  }

  lemma AmendKeepsOrders(s: State, code: string, p: Patch)
    requires AllFit(s.orders, s.headers)
    ensures var t := Amend(s, code, p).state; AllFit(t.orders, t.headers)
  {
    var o := Amend(s, code, p);
    if o.error.None? {
      var i := FindHeader(s.headers, code).value;
      AmendedOrders(s, i, o.state.headers[i]);
    }
  }

  lemma PhaseKeepsOrders(s: State, op: Op)
    requires AllFit(s.orders, s.headers) && (op.StartShutdown? || op.FinishShutdown? || op.CancelShutdown?)
    ensures var t := Apply(s, op); AllFit(t.orders, t.headers)
  {
    var t, at := Apply(s, op), FindHeader(s.headers, op.code);
    if t.headers != s.headers {
      forall k | 0 <= k < |s.orders| ensures OrderFits(t.orders[k], t.headers) {
        OrderStillFits(s.orders[k], t.orders[k], s.headers, at.value, t.headers[at.value]);
      }
    }
  }

  // ---------------------------------------------------------------------------
  // Setting jobs
  // ---------------------------------------------------------------------------

  lemma JoinKeepsOrders(s: State, i: nat, num: string)
    requires AllFit(s.orders, s.headers) && i < |s.headers| && Active(s.headers[i])
    ensures AllFit(Join(s, s.headers[i], num).state.orders, s.headers)
  {
    var h, o := s.headers[i], Join(s, s.headers[i], num);
    forall k | 0 <= k < |o.state.orders| ensures OrderFits(o.state.orders[k], s.headers) {
      assert OrderFits(s.orders[k], s.headers);
      if o.state.orders[k] != s.orders[k] { assert Takes(s.headers[i], o.state.orders[k]); }
    }
  }

  lemma BringKeepsOrders(s: State, i: nat, id: nat)
    requires AllFit(s.orders, s.headers) && i < |s.headers| && Active(s.headers[i])
    ensures AllFit(Bring(s, s.headers[i], id).state.orders, s.headers)
  {
    if id in s.schedules && s.schedules[id] in s.headers[i].machines {
      var k := OpenOrderFor(s.orders, id);
      if k.Some? {
        JoinKeepsOrders(s, i, s.orders[k.value].num);
      } else {
        var o := WorkOrder(NextNum(s.orders), s.schedules[id], Live("open"), Some(id), None, None);
        JoinKeepsOrders(s.(orders := s.orders + [o]), i, o.num);
      }
    }
  }

  lemma LeaveKeepsOrders(s: State, h: Header, num: string)
    requires AllFit(s.orders, s.headers)
    ensures AllFit(Leave(s, h, num).state.orders, s.headers)
  {
    var o := Leave(s, h, num);
    forall k | 0 <= k < |o.state.orders| ensures OrderFits(o.state.orders[k], s.headers) {
      assert OrderFits(s.orders[k], s.headers);
    }
  }

  lemma {:induction false} JoinAllKeepsOrders(s: State, i: nat, h: Header, nums: seq<string>)
    requires AllFit(s.orders, s.headers) && i < |s.headers| && s.headers[i] == h && Active(h)
    ensures AllFit(JoinAll(s, h, nums).state.orders, s.headers)
    decreases |nums|
  {
    if nums != [] {
      JoinKeepsOrders(s, i, Trim(nums[0]));
      JoinOrders(s, h, Trim(nums[0]));
      JoinAllKeepsOrders(Join(s, h, Trim(nums[0])).state, i, h, nums[1..]);
    }
  }

  lemma {:induction false} BringAllKeepsOrders(s: State, i: nat, h: Header, ids: seq<nat>)
    requires AllFit(s.orders, s.headers) && i < |s.headers| && s.headers[i] == h && Active(h)
    ensures AllFit(BringAll(s, h, ids).state.orders, s.headers)
    decreases |ids|
  {
    if ids != [] {
      BringKeepsOrders(s, i, ids[0]);
      BringOrders(s, h, ids[0]);
      BringAllKeepsOrders(Bring(s, h, ids[0]).state, i, h, ids[1..]);
    }
  }

  lemma {:induction false} LeaveAllKeepsOrders(s: State, h: Header, nums: seq<string>)
    requires AllFit(s.orders, s.headers)
    ensures AllFit(LeaveAll(s, h, nums).state.orders, s.headers)
    decreases |nums|
  {
    if nums != [] {
      LeaveKeepsOrders(s, h, Trim(nums[0]));
      LeaveOrders(s, h, Trim(nums[0]));
      LeaveAllKeepsOrders(Leave(s, h, Trim(nums[0])).state, h, nums[1..]);
    }
  }

  /** Setting jobs keeps every order fitting, also when it stops half-way with an error. */
  lemma SetJobsKeepsOrders(s: State, code: string, j: Jobs)
    requires AllFit(s.orders, s.headers)
    ensures AllFit(SetJobs(s, code, j).state.orders, s.headers)
  {
    var at := FindHeader(s.headers, code);
    if at.Some? && Active(s.headers[at.value]) {
      var i := at.value;
      var h := s.headers[i];
      JoinAllKeepsOrders(s, i, h, j.add);
      JoinAllOrders(s, h, j.add);
      var a := JoinAll(s, h, j.add).state;
      BringAllKeepsOrders(a, i, h, j.schedules);
      BringAllOrders(a, h, j.schedules);
      LeaveAllKeepsOrders(BringAll(a, h, j.schedules).state, h, j.remove);
    }
  }

  // ---------------------------------------------------------------------------
  // Factories and orders on their own
  // ---------------------------------------------------------------------------

  /** Deleting a factory keeps every live order fitting exactly when none is in one
      of its shutdowns. */
  lemma DropPlantKeepsOrdersExactly(s: State, code: string, held: bool)
    requires HeadersInv(s.headers) && AllFit(s.orders, s.headers) && DropPlant(s, code, held).error.None?
    ensures var t := DropPlant(s, code, held).state;
      AllFit(t.orders, t.headers) <==> !HasLiveJob(s, Trim(code))
  {
    var plant := Trim(code);
    var left := HeadersWithout(s.headers, plant);
    var at := HeadersLeft(s.headers, plant);
    if !HasLiveJob(s, plant) {
      forall k | 0 <= k < |s.orders| ensures OrderFits(s.orders[k], left) {
        assert OrderFits(s.orders[k], s.headers);
        if IsLive(s.orders[k]) && s.orders[k].shutdown.Some? {
          var i :| 0 <= i < |s.headers| && Takes(s.headers[i], s.orders[k]);
          var j := OthersStay(s.headers, plant, i);
          assert Takes(left[j], s.orders[k]);
        }
      }
    } else {
      var k, i :| 0 <= k < |s.orders| && 0 <= i < |s.headers| && IsLive(s.orders[k])
                  && s.orders[k].shutdown == Some(s.headers[i].code) && s.headers[i].plant == plant;
      forall j | 0 <= j < |left| ensures !Takes(left[j], s.orders[k]) {
        assert s.headers[i].code != s.headers[at[j]].code;
      }
      assert !OrderFits(s.orders[k], left);
    }
  }

  /** Reopening a finished order keeps every live order fitting exactly when it is
      in no shutdown, or its shutdown was not called off and still has its machine. */
  lemma ReopeningKeepsOrdersExactly(s: State, k: nat, step: string)
    requires AllFit(s.orders, s.headers) && k < |s.orders| && s.orders[k].status in {Finished, Abandoned}
    ensures var t := Apply(s, MoveOrder(k, Live(step)));
      AllFit(t.orders, t.headers) <==> Placed(s.orders[k], s.headers)
  {
    var t := Apply(s, MoveOrder(k, Live(step)));
    SamePlace(s.orders[k], t.orders[k], s.headers);
    assert OrderFits(t.orders[k], s.headers) <==> Placed(s.orders[k], s.headers);
    forall j | 0 <= j < |s.orders| && j != k ensures OrderFits(t.orders[j], s.headers) {
      assert OrderFits(s.orders[j], s.headers);
    }
  }

  /** Where an order is does not depend on its status. */
  lemma SamePlace(o: WorkOrder, o': WorkOrder, headers: seq<Header>)
    requires o'.shutdown == o.shutdown && o'.asset == o.asset
    ensures Placed(o', headers) <==> Placed(o, headers)
  {
    forall i | 0 <= i < |headers| ensures Takes(headers[i], o') <==> Takes(headers[i], o) {}
  }

  predicate WritesOrders(op: Op) {
    op.RaiseOrder? || op.MoveOrder? || op.DeleteOrder?
  }

  lemma OwnOrderKeepsOrders(s: State, op: Op)
    requires AllFit(s.orders, s.headers) && WritesOrders(op) && LiveJobsKept(s, op)
    ensures var t := Apply(s, op); AllFit(t.orders, t.headers)
  {
    var t := Apply(s, op);
    forall k | 0 <= k < |t.orders| ensures OrderFits(t.orders[k], s.headers) {
      if k < |s.orders| {
        assert OrderFits(s.orders[k], s.headers);
        SamePlace(s.orders[k], t.orders[k], s.headers);
      }
    }
  }

  lemma OthersLeaveOrders(s: State, op: Op)
    requires !WritesHeaders(op) && !WritesOrders(op)
    ensures Apply(s, op).headers == s.headers && Apply(s, op).orders == s.orders
  {}

  lemma ShutdownOpKeepsOrders(s: State, op: Op)
    requires HeadersInv(s.headers) && AllFit(s.orders, s.headers) && WritesHeaders(op) && LiveJobsKept(s, op)
    ensures var t := Apply(s, op); AllFit(t.orders, t.headers)
  {
    match op
    case PlanShutdown(q, now, stamp) => PlanKeepsOrders(s, q, now, stamp);
    case AmendShutdown(code, p) => AmendKeepsOrders(s, code, p);
    case SetShutdownJobs(code, j) => SetJobsKeepsOrders(s, code, j); JobsWriteOrders(s, code, j);
    case DeletePlant(code, held) =>
      if DropPlant(s, code, held).error.None? { DropPlantKeepsOrdersExactly(s, code, held); }
    case _ => PhaseKeepsOrders(s, op);
  }

  lemma OpKeepsOrders(s: State, op: Op)
    requires HeadersInv(s.headers) && AllFit(s.orders, s.headers) && LiveJobsKept(s, op)
    ensures var t := Apply(s, op); AllFit(t.orders, t.headers)
  {
    if WritesHeaders(op) {
      ShutdownOpKeepsOrders(s, op);
    } else if WritesOrders(op) {
      OwnOrderKeepsOrders(s, op);
    } else {
      OthersLeaveOrders(s, op);
    }
  }

  lemma {:induction false} RunKeepsOrders(s: State, ops: seq<Op>)
    requires HeadersInv(s.headers) && AllFit(s.orders, s.headers) && RunWithin(s, ops, LiveJobs)
    ensures var t := Run(s, ops); AllFit(t.orders, t.headers)
    decreases |ops|
  {
    if ops != [] {
      var front := ops[..|ops| - 1];
      RunKeepsOrders(s, front);
      RunKeepsHeaders(s, front);
      OpKeepsOrders(Run(s, front), ops[|ops| - 1]);
    }
  }

  lemma ReachableOrders(s: State)
    requires Reachable(s, LiveJobs)
    ensures HeadersInv(s.headers) && AllFit(s.orders, s.headers)
  {
    var s0: State, ops: seq<Op> :| Fresh(s0) && RunWithin(s0, ops, LiveJobs) && s == Run(s0, ops);
    RunKeepsOrders(s0, ops);
    RunKeepsHeaders(s0, ops);
  }

  /** A live job in a shutdown is on one of its machines, and the shutdown exists
      and was not called off. */
  lemma JobsFitTheirShutdown(s: State, k: nat)
    requires Reachable(s, LiveJobs) && k < |s.orders| && IsLive(s.orders[k]) && s.orders[k].shutdown.Some?
    ensures exists i :: 0 <= i < |s.headers| && s.headers[i].code == s.orders[k].shutdown.value
                        && s.headers[i].phase != CalledOff && s.orders[k].asset in s.headers[i].machines
  {
    ReachableOrders(s);
    assert OrderFits(s.orders[k], s.headers);
    var i :| 0 <= i < |s.headers| && Takes(s.headers[i], s.orders[k]);
    assert s.headers[i].code == s.orders[k].shutdown.value;
  }

  // ---------------------------------------------------------------------------
  // What takes a job out
  // ---------------------------------------------------------------------------

  /** Changing a shutdown takes a job out of it exactly when the job is live, in
      it, and on a machine it no longer has; nothing else about any job changes. */
  lemma AmendReleasesExactly(s: State, code: string, p: Patch, k: nat)
    requires Reachable(s, LiveJobs) && Amend(s, code, p).error.None? && k < |s.orders|
    ensures var h := Amend(s, code, p).state.headers[FindHeader(s.headers, code).value];
      Amend(s, code, p).state.orders[k]
      == (if s.orders[k].shutdown == Some(code) && IsLive(s.orders[k]) && s.orders[k].asset !in h.machines
          then s.orders[k].(shutdown := None) else s.orders[k])
  {
    ReachableOrders(s);
    var i, o := FindHeader(s.headers, code).value, s.orders[k];
    assert OrderFits(o, s.headers);
    if IsLive(o) && o.shutdown == Some(code) {
      var j :| 0 <= j < |s.headers| && Takes(s.headers[j], o);
      SameCode(s.headers, i, j);
    }
  }

  /** A shutdown that was called off holds no live job, then or ever after: calling
      it off takes them all out, and none joins it again. */
  lemma CalledOffHoldsNoLiveJob(s: State, i: nat, k: nat)
    requires Reachable(s, LiveJobs) && i < |s.headers| && s.headers[i].phase == CalledOff
    requires k < |s.orders| && IsLive(s.orders[k])
    ensures s.orders[k].shutdown != Some(s.headers[i].code)
  {
    if s.orders[k].shutdown.Some? {
      ReachableOrders(s);
      assert OrderFits(s.orders[k], s.headers);
      var j :| 0 <= j < |s.headers| && Takes(s.headers[j], s.orders[k]);
      assert s.headers[j].code == s.orders[k].shutdown.value && i != j;
    }
  }

  // ---------------------------------------------------------------------------
  // A job that comes back
  // ---------------------------------------------------------------------------

  lemma JobJoins(s: State, h: Header, num: string, tag: string)
    requires s.headers == [h] && h.phase == Planned && tag in h.machines && Trim(num) == num && s.orders == []
    ensures var joined := WorkOrder(num, tag, Live("open"), None, Some(h.code), Some(DayOf(h.startsAt)));
      Apply(Apply(s, RaiseOrder(num, tag, None)), SetShutdownJobs(h.code, Jobs([num], [], [])))
      == s.(orders := [joined])
  {
    var raised := Apply(s, RaiseOrder(num, tag, None));
    assert raised.orders == [WorkOrder(num, tag, Live("open"), None, None, None)];
    assert JoinAll(raised, h, [num]) == Join(raised, h, num);
  }

  lemma FinishedJobStays(s: State, h: Header, o: WorkOrder, step: string)
    requires s.headers == [h] && h.phase == Planned && s.orders == [o] && IsLive(o)
    ensures Apply(Apply(Apply(s, MoveOrder(0, Finished)), CancelShutdown(h.code)), MoveOrder(0, Live(step)))
         == s.(headers := [h.(phase := CalledOff)], stops := DropStops(s.stops, h.code, All),
               orders := [o.(status := Live(step))])
  {
    var done := Apply(s, MoveOrder(0, Finished));
    assert Release(done.orders, h.code, All) == done.orders;
  }

  lemma ThreeMore(s: State, a: Op, b: Op, c: Op) returns (t: State)
    requires Reachable(s, Anything)
    ensures t == Apply(Apply(Apply(s, a), b), c) && Reachable(t, Anything)
  {
    ReachOneMore(s, a, Anything);
    ReachOneMore(Apply(s, a), b, Anything);
    ReachOneMore(Apply(Apply(s, a), b), c, Anything);
    t := Apply(Apply(Apply(s, a), b), c);
  }

  lemma WithItsJob(s0: State, q: Request, now: int, stamp: string, tag: string, num: string) returns (s: State)
    requires PlansOne(q, now, tag) && Trim(num) == num && Fresh(s0)
    requires Trim(q.plant) in s0.plants && tag in s0.assets && s0.assets[tag] == Asset(Trim(q.plant), Idle)
    ensures Reachable(s, Anything) && s.headers == [HeaderFor(q, stamp)]
    ensures |s.orders| == 1 && IsLive(s.orders[0]) && s.orders[0].shutdown == Some(HeaderFor(q, stamp).code)
  {
    var h, raise := HeaderFor(q, stamp), RaiseOrder(num, tag, None);
    FreshIsReachable(s0, Anything);
    s := ReachesPlan(s0, q, now, stamp, tag);
    JobJoins(s, h, num, tag);
    ReachOneMore(s, raise, Anything);
    ReachOneMore(Apply(s, raise), SetShutdownJobs(h.code, Jobs([num], [], [])), Anything);
    s := Apply(Apply(s, raise), SetShutdownJobs(h.code, Jobs([num], [], [])));
  }

  /** It happens: a job of a shutdown is finished, the shutdown is called off, and
      the job is reopened. It is live in a shutdown that was called off. */
  lemma ReopenedInCalledOff(q: Request, now: int, stamp: string, tag: string, num: string) returns (s: State)
    requires PlansOne(q, now, tag) && Trim(num) == num
    ensures Reachable(s, Anything) && |s.headers| == |s.orders| == 1 && s.headers[0].phase == CalledOff
    ensures IsLive(s.orders[0]) && s.orders[0].shutdown == Some(s.headers[0].code)
  {
    var h, plant := HeaderFor(q, stamp), Trim(q.plant);
    s := WithItsJob(State([], [], [], map[tag := Asset(plant, Idle)], {plant}, map[], false), q, now, stamp, tag, num);
    FinishedJobStays(s, h, s.orders[0], "open");
    s := ThreeMore(s, MoveOrder(0, Finished), CancelShutdown(h.code), MoveOrder(0, Live("open")));
  }
}
