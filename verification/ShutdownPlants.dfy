/**
  Machines that move between factories (internal/store/plants.go) while a shutdown
  (internal/store/shutdown.go) has them: when one machine can be in two overlapping
  shutdowns, of two factories.
 */
module ShutdownPlants {
  import opened Wrappers
  import opened Text
  import opened Downtime
  import opened ShutdownModel
  import opened ShutdownRuns
  import opened ShutdownHeaders
  import opened ShutdownSafety

  // ---------------------------------------------------------------------------
  // One plan more
  // ---------------------------------------------------------------------------

  /** Machine `m` is in two active shutdowns at once, of whatever factories. */
  ghost predicate Twice(headers: seq<Header>, i: nat, j: nat, m: string) {
    && i < |headers| && j < |headers| && i != j && Active(headers[i]) && Active(headers[j])
    && Overlap(headers[i].startsAt, headers[i].endsAt, headers[j].startsAt, headers[j].endsAt)
    && m in headers[i].machines && m in headers[j].machines
  }

  ghost predicate DoubleBooked(headers: seq<Header>) {
    exists i, j, m :: Twice(headers, i, j, m)
  }

  /** Machine `m` of active shutdown `i` is in use at another factory there is. */
  ghost predicate Away(s: State, i: nat, m: string) {
    && i < |s.headers| && Active(s.headers[i]) && m in s.headers[i].machines && Trim(m) == m != ""
    && m in s.assets && s.assets[m].status != Retired && s.assets[m].plant != s.headers[i].plant
    && s.assets[m].plant in s.plants && Trim(s.assets[m].plant) == s.assets[m].plant != ""
  }

  lemma {:induction false} ResolvedAreTrimmed(assets: map<string, Asset>, plant: string, tags: seq<string>, n: nat)
    requires n <= |tags| && Resolve(assets, plant, tags, n).Ok?
    ensures forall m :: m in Resolve(assets, plant, tags, n).value ==> Trim(m) == m != ""
    decreases n
  {
    if n > 0 {
      ResolvedAreTrimmed(assets, plant, tags, n - 1);
      TrimIsTrimmed(tags[n - 1]);
    }
  }

  /** The plan that books it there, for the same window. */
  lemma BooksItAgain(s: State, i: nat, m: string)
    requires HeadersInv(s.headers) && !DoubleBooked(s.headers) && Away(s, i, m)
    ensures var h := s.headers[i];
      var q := Request(s.assets[m].plant, "again", h.startsAt, h.endsAt, [m]);
      DoubleBooked(Plan(s, q, h.startsAt, "").state.headers)
  {
    var h, there := s.headers[i], s.assets[m].plant;
    var q := Request(there, "again", h.startsAt, h.endsAt, [m]);
    OneTagResolves(s.assets, there, m);
    assert Trim("again") == "again";
    assert HeaderOk(h);
    if Clash(s.headers, there, [m], h.startsAt, h.endsAt, "") {
      var j, k :| 0 <= j < |s.headers| && 0 <= k < 1
                  && ClashAt(s.headers[j], there, [m][k], h.startsAt, h.endsAt, "");
      assert Twice(s.headers, i, j, m);
    }
    var after := Plan(s, q, h.startsAt, "").state.headers;
    assert Twice(after, i, |s.headers|, m);
  }

  lemma OneTagResolves(assets: map<string, Asset>, plant: string, m: string)
    requires m in assets && assets[m].plant == plant && assets[m].status != Retired && Trim(m) == m != ""
    ensures Resolve(assets, plant, [m], 1) == Ok([m])
  {
    assert Resolve(assets, plant, [m], 0) == Ok([]);
    assert [m][..0] == [];
    assert SeenTags([m][..0]) == {};
    assert [] + [m] == [m];
  }

  /** A plan that books a machine twice found it away from the other shutdown's factory. */
  lemma BookedTwiceIsAway(s: State, q: Request, now: int, stamp: string) returns (i: nat, m: string)
    requires HeadersInv(s.headers) && !DoubleBooked(s.headers) && DoubleBooked(Plan(s, q, now, stamp).state.headers)
    ensures Away(s, i, m)
  {
    var n, after := |s.headers|, Plan(s, q, now, stamp).state.headers;
    var a: nat, b: nat, k: string :| Twice(after, a, b, k);
    assert !Twice(s.headers, a, b, k);
    i, m := if a == n then b else a, k;
    PlanKeepsHeaders(s, q, now, stamp);
    assert Apart(after[i], after[n]);
    ResolvedMachines(s.assets, Trim(q.plant), q.machines, |q.machines|);
    ResolvedAreTrimmed(s.assets, Trim(q.plant), q.machines, |q.machines|);
    TrimIsTrimmed(q.plant);
  }

  /** The next plan can put a machine into two overlapping shutdowns if and only if a
      machine of an active one is in use at another factory. */
  lemma NextPlanBooksTwiceExactly(s: State)
    requires HeadersInv(s.headers) && !DoubleBooked(s.headers)
    ensures (exists q, now, stamp :: DoubleBooked(Plan(s, q, now, stamp).state.headers))
       <==> exists i, m :: Away(s, i, m)
  {
    if i, m :| Away(s, i, m) {
      BooksItAgain(s, i, m);
    } else {
      forall q, now, stamp ensures !DoubleBooked(Plan(s, q, now, stamp).state.headers) {
        if DoubleBooked(Plan(s, q, now, stamp).state.headers) {
          var i, m := BookedTwiceIsAway(s, q, now, stamp);
        }
      }
    }
  }

  // ---------------------------------------------------------------------------
  // Over runs
  // ---------------------------------------------------------------------------

  /** A machine of an active shutdown is at its factory, if it is registered at all. */
  ghost predicate AtHome(h: Header, assets: map<string, Asset>) {
    Active(h) ==> forall m :: m in h.machines && m in assets ==> assets[m].plant == h.plant
  }

  ghost predicate AllAtHome(s: State) {
    forall i :: 0 <= i < |s.headers| ==> AtHome(s.headers[i], s.assets)
  }

  /** Active shutdowns of two factories share no machine. */
  ghost predicate Foreign(a: Header, b: Header) {
    a.plant != b.plant && Active(a) && Active(b) ==> forall m :: m in a.machines ==> m !in b.machines
  }

  ghost predicate AllForeign(headers: seq<Header>) {
    forall i, j :: 0 <= i < |headers| && 0 <= j < |headers| ==> Foreign(headers[i], headers[j])
  }

  ghost predicate PlantsInv(s: State) {
    AllAtHome(s) && AllForeign(s.headers)
  }

  /** The operation moves no machine out of the factory of an active shutdown that has it. */
  ghost predicate StaysHome(s: State, op: Op) {
    op.EditAsset? ==>
      forall i :: 0 <= i < |s.headers| && Active(s.headers[i]) && op.tag in s.headers[i].machines ==>
        op.record.plant == s.headers[i].plant
  }

  /** Editing a machine keeps all at home exactly when it does not move it out of the
      factory of an active shutdown. */
  lemma EditKeepsHomeExactly(s: State, tag: string, record: Asset)
    requires AllAtHome(s)
    ensures AllAtHome(Apply(s, EditAsset(tag, record))) <==> StaysHome(s, EditAsset(tag, record))
  {
    var t := Apply(s, EditAsset(tag, record));
    forall i | 0 <= i < |s.headers|
      ensures AtHome(t.headers[i], t.assets)
         <==> Active(s.headers[i]) && tag in s.headers[i].machines ==> record.plant == s.headers[i].plant
    {
      assert AtHome(s.headers[i], s.assets);
      assert t.assets[tag] == record;
    }
  }

  /** Machines may be gone or get another status, but not move. */
  ghost predicate NoneMoved(before: map<string, Asset>, after: map<string, Asset>) {
    forall m :: m in after ==> m in before && after[m].plant == before[m].plant
  }

  /** One header changes or comes, its machines resolved at its factory, or stays with
      what it had. */
  lemma OneHeaderKeepsPlants(s: State, t: State, i: nat)
    requires PlantsInv(s) && i < |t.headers| && |s.headers| <= |t.headers| <= |s.headers| + 1
    requires forall j :: 0 <= j < |t.headers| && j != i ==> j < |s.headers| && t.headers[j] == s.headers[j]
    requires NoneMoved(s.assets, t.assets)
    requires Active(t.headers[i]) ==>
      || (i < |s.headers| && Active(s.headers[i]) && t.headers[i].plant == s.headers[i].plant
          && t.headers[i].machines == s.headers[i].machines)
      || forall m :: m in t.headers[i].machines ==> m in s.assets && s.assets[m].plant == t.headers[i].plant
    ensures PlantsInv(t)
  {
    var h := t.headers[i];
    if i < |s.headers| { assert AtHome(s.headers[i], s.assets); }
    forall j | 0 <= j < |s.headers| && j != i
      ensures AtHome(t.headers[j], t.assets) && Foreign(h, t.headers[j]) && Foreign(t.headers[j], h)
    {
      assert AtHome(s.headers[j], s.assets);
      if i < |s.headers| { assert Foreign(s.headers[i], s.headers[j]); }
    }
    forall a, b | 0 <= a < |t.headers| && 0 <= b < |t.headers| ensures Foreign(t.headers[a], t.headers[b]) {
      var x, y := t.headers[a], t.headers[b];
      if a != i && b != i { assert a < |s.headers| && b < |s.headers| && Foreign(s.headers[a], s.headers[b]); }
    }
  }

  lemma SameHeadersKeepPlants(s: State, t: State)
    requires PlantsInv(s) && t.headers == s.headers && NoneMoved(s.assets, t.assets)
    ensures PlantsInv(t)
  {
    forall i | 0 <= i < |t.headers| ensures AtHome(t.headers[i], t.assets) { assert AtHome(s.headers[i], s.assets); }
  }

  lemma PlanKeepsPlants(s: State, q: Request, now: int, stamp: string)
    requires PlantsInv(s)
    ensures PlantsInv(Plan(s, q, now, stamp).state)
  {
    var o := Plan(s, q, now, stamp);
    if o.error.None? {
      ResolvedMachines(s.assets, Trim(q.plant), q.machines, |q.machines|);
      OneHeaderKeepsPlants(s, o.state, |s.headers|);
    }
  }

  lemma AmendResolves(s: State, code: string, p: Patch)
    requires Amend(s, code, p).error.None?
    ensures var h := Amend(s, code, p).state.headers[FindHeader(s.headers, code).value];
      forall m :: m in h.machines ==> m in s.assets && s.assets[m].plant == h.plant
  {
    var was := s.headers[FindHeader(s.headers, code).value];
    var tags := if p.machines.Some? then p.machines.value else was.machines;
    ResolvedMachines(s.assets, was.plant, tags, |tags|);
  }

  lemma AmendKeepsPlants(s: State, code: string, p: Patch)
    requires PlantsInv(s)
    ensures PlantsInv(Amend(s, code, p).state)
  {
    if Amend(s, code, p).error.None? {
      var i := FindHeader(s.headers, code).value;
      AmendResolves(s, code, p);
      AmendedKeepsPlants(s, i, Amend(s, code, p).state.headers[i]);
    }
  }

  lemma AmendedKeepsPlants(s: State, i: nat, h: Header)
    requires PlantsInv(s) && i < |s.headers|
    requires forall m :: m in h.machines ==> m in s.assets && s.assets[m].plant == h.plant
    ensures PlantsInv(Amended(s, i, h))
  {
    OneHeaderKeepsPlants(s, Amended(s, i, h), i);
  }

  lemma {:induction false} StatusesMoveNone(assets: map<string, Asset>, stops: seq<Stop>, code: string,
                                            state: StopState, status: AssetStatus, n: nat)
    requires n <= |stops|
    ensures NoneMoved(assets, SetStatuses(assets, stops, code, state, status, n))
    decreases n
  {
    if n > 0 { StatusesMoveNone(assets, stops, code, state, status, n - 1); }
  }

  lemma PhaseMovesNone(s: State, op: Op)
    requires op.StartShutdown? || op.FinishShutdown? || op.CancelShutdown?
    ensures NoneMoved(s.assets, Apply(s, op).assets)
  {
    StatusesMoveNone(s.assets, s.stops, op.code, Scheduled, Down, |s.stops|);
    StatusesMoveNone(s.assets, s.stops, op.code, Open, Idle, |s.stops|);
  }

  lemma PhaseKeepsPlants(s: State, op: Op)
    requires PlantsInv(s) && (op.StartShutdown? || op.FinishShutdown? || op.CancelShutdown?)
    ensures PlantsInv(Apply(s, op))
  {
    var at := FindHeader(s.headers, op.code);
    PhaseMovesNone(s, op);
    if at.Some? { OneHeaderKeepsPlants(s, Apply(s, op), at.value); }
  }

  lemma DropPlantKeepsPlants(s: State, code: string, held: bool)
    requires PlantsInv(s)
    ensures PlantsInv(DropPlant(s, code, held).state)
  {
    var t := DropPlant(s, code, held).state;
    if t.headers != s.headers {
      var at := HeadersLeft(s.headers, Trim(code));
      forall i, j | 0 <= i < |t.headers| && 0 <= j < |t.headers|
        ensures AtHome(t.headers[i], t.assets) && Foreign(t.headers[i], t.headers[j])
      {
        assert AtHome(s.headers[at[i]], s.assets) && Foreign(s.headers[at[i]], s.headers[at[j]]);
      }
    }
  }

  lemma OthersMoveNone(s: State, op: Op)
    requires !WritesHeaders(op) && !op.EditAsset?
    ensures Apply(s, op).headers == s.headers && NoneMoved(s.assets, Apply(s, op).assets)
  {}

  lemma OpKeepsPlants(s: State, op: Op)
    requires PlantsInv(s) && StaysHome(s, op)
    ensures PlantsInv(Apply(s, op))
  {
    if op.EditAsset? {
      EditKeepsHomeExactly(s, op.tag, op.record);
    } else if !WritesHeaders(op) {
      OthersMoveNone(s, op);
      SameHeadersKeepPlants(s, Apply(s, op));
    } else if op.PlanShutdown? {
      PlanKeepsPlants(s, op.q, op.now, op.stamp);
    } else if op.AmendShutdown? {
      AmendKeepsPlants(s, op.code, op.p);
    } else if op.SetShutdownJobs? {
      JobsWriteOrders(s, op.code, op.j);
    } else if op.DeletePlant? {
      DropPlantKeepsPlants(s, op.code, op.held);
    } else {
      PhaseKeepsPlants(s, op);
    }
  }

  ghost predicate NeverMovedAway(s: State, ops: seq<Op>)
    decreases |ops|
  {
    || ops == []
    || (NeverMovedAway(s, ops[..|ops| - 1]) && StaysHome(Run(s, ops[..|ops| - 1]), ops[|ops| - 1]))
  }

  lemma {:induction false} RunKeepsPlants(s: State, ops: seq<Op>)
    requires PlantsInv(s) && NeverMovedAway(s, ops)
    ensures PlantsInv(Run(s, ops))
    decreases |ops|
  {
    if ops != [] {
      RunKeepsPlants(s, ops[..|ops| - 1]);
      OpKeepsPlants(Run(s, ops[..|ops| - 1]), ops[|ops| - 1]);
    }
  }

  lemma NotTwice(headers: seq<Header>)
    requires NoDoubleBooking(headers) && AllForeign(headers)
    ensures !DoubleBooked(headers)
  {
    forall i: nat, j: nat, m ensures !Twice(headers, i, j, m) {
      if i < |headers| && j < |headers| && i != j {
        assert Apart(headers[i], headers[j]) && Foreign(headers[i], headers[j]);
      }
    }
  }

  /** As long as no machine is moved out of the factory of an active shutdown, no
      machine is in two overlapping ones, of whatever factories. */
  lemma NoMachineTwiceAnywhere(s: State, ops: seq<Op>)
    requires Fresh(s) && NeverMovedAway(s, ops)
    ensures !DoubleBooked(Run(s, ops).headers)
  {
    RunKeepsPlants(s, ops);
    RunKeepsHeaders(s, ops);
    NotTwice(Run(s, ops).headers);
  }

  /** It happens: a machine is planned at one factory, moved, and planned at the other. */
  lemma MovedAndBookedTwice(q: Request, now: int, stamp: string, tag: string, other: string) returns (s: State)
    requires PlansOne(q, now, tag) && Trim(other) == other != "" && other != Trim(q.plant)
    ensures Reachable(s, Anything) && DoubleBooked(s.headers)
  {
    var plant := Trim(q.plant);
    s := State([], [], [], map[tag := Asset(plant, Idle)], {plant, other}, map[], false);
    FreshIsReachable(s, Anything);
    s := ReachesPlan(s, q, now, stamp, tag);
    ReachOneMore(s, EditAsset(tag, Asset(other, Idle)), Anything);
    s := Apply(s, EditAsset(tag, Asset(other, Idle)));
    assert Away(s, 0, tag);
    ReachableHeaders(s, Anything);
    BooksItAgain(s, 0, tag);
    var h := s.headers[0];
    var again := PlanShutdown(Request(other, "again", h.startsAt, h.endsAt, [tag]), h.startsAt, "");
    ReachOneMore(s, again, Anything);
    s := Apply(s, again);
  }
}
