/**
  The stops of shutdowns over runs (internal/store/shutdown.go): the header of a
  shutdown fixes the state and the window of every stop that stands, and which
  machines have one, also when stops are deleted.
 */
module ShutdownSafety {
  import opened Wrappers
  import opened Text
  import opened Downtime
  import opened ShutdownModel
  import opened ShutdownRuns
  import opened ShutdownHeaders

  // ---------------------------------------------------------------------------
  // The invariant
  // ---------------------------------------------------------------------------

  /** Stop `i` is the latest one written for its machine under the code. */
  ghost predicate Latest(stops: seq<Stop>, code: string, i: nat) {
    i < |stops| && forall j :: i < j < |stops| ==> !StopOf(stops[j], code, stops[i].asset)
  }

  /** The latest stop of a machine was not dropped: it stands, or was deleted. */
  ghost predicate Accounted(stops: seq<Stop>, code: string, machine: string) {
    exists i :: 0 <= i < |stops| && KeptStop(stops, code, machine, i)
  }

  ghost predicate KeptStop(stops: seq<Stop>, code: string, machine: string, i: nat)
    requires i < |stops|
  {
    StopOf(stops[i], code, machine) && stops[i].state != StopState.Cancelled && Latest(stops, code, i)
  }

  ghost predicate StandsRight(h: Header, stops: seq<Stop>, i: nat)
    requires i < |stops|
  {
    Standing(stops[i], h.code) ==>
      stops[i].asset in h.machines && StopMatches(h, stops[i]) && Latest(stops, h.code, i)
  }

  /** A stop that stands is on a machine of the shutdown, as the phase says, and
      its latest; and every machine's latest stop stands or was deleted. */
  ghost predicate StopsFollow(h: Header, stops: seq<Stop>) {
    && (forall i :: 0 <= i < |stops| ==> StandsRight(h, stops, i))
    && (h.phase != CalledOff ==> forall m :: m in h.machines ==> Accounted(stops, h.code, m))
  }

  ghost predicate StopsInv(s: State) {
    forall i :: 0 <= i < |s.headers| ==> StopsFollow(s.headers[i], s.stops)
  }

  // ---------------------------------------------------------------------------
  // Stops that do not change, or change together
  // ---------------------------------------------------------------------------

  lemma LatestElsewhere(stops: seq<Stop>, after: seq<Stop>, code: string, i: nat)
    requires i < |stops| <= |after| && after[i].asset == stops[i].asset
    requires forall k :: 0 <= k < |stops| ==> after[k].asset == stops[k].asset && after[k].shutdown == stops[k].shutdown
    requires forall k :: |stops| <= k < |after| ==> !StopOf(after[k], code, stops[i].asset)
    ensures Latest(after, code, i) <==> Latest(stops, code, i)
  {
    if Latest(stops, code, i) {
      forall j | i < j < |after| ensures !StopOf(after[j], code, after[i].asset) {
        if j < |stops| { assert !StopOf(stops[j], code, stops[i].asset); }
      }
    }
    if Latest(after, code, i) {
      forall j | i < j < |stops| ensures !StopOf(stops[j], code, stops[i].asset) {
        assert !StopOf(after[j], code, after[i].asset);
      }
    }
  }

  /** A stop keeps its tag and its machine for good. */
  ghost predicate SameSubjects(stops: seq<Stop>, after: seq<Stop>) {
    && |after| >= |stops|
    && forall k :: 0 <= k < |stops| ==> after[k].asset == stops[k].asset && after[k].shutdown == stops[k].shutdown
  }

  /** Stops may be moved on, as long as none stands again, each that still stands
      is right for the header as it is now, and none is dropped. */
  lemma StopsMoveOn(h: Header, h': Header, stops: seq<Stop>, after: seq<Stop>)
    requires StopsFollow(h, stops) && SameSubjects(stops, after) && h'.code == h.code && h'.machines == h.machines
    requires h'.phase != CalledOff ==> h.phase != CalledOff
    requires forall k :: |stops| <= k < |after| ==> !Tagged(after[k], h.code)
    requires forall k :: 0 <= k < |stops| && Standing(after[k], h.code) ==>
      Standing(stops[k], h.code) && StopMatches(h', after[k])
    requires h'.phase != CalledOff ==> forall k :: 0 <= k < |stops| && Tagged(stops[k], h.code) ==>
      (after[k].state == StopState.Cancelled ==> stops[k].state == StopState.Cancelled)
    ensures StopsFollow(h', after)
  {
    forall i | 0 <= i < |after| ensures StandsRight(h', after, i) {
      if i < |stops| && Standing(after[i], h.code) {
        assert StandsRight(h, stops, i);
        LatestElsewhere(stops, after, h.code, i);
      }
    }
    if h'.phase != CalledOff {
      forall m | m in h'.machines ensures Accounted(after, h'.code, m) {
        assert Accounted(stops, h.code, m);
        var i :| 0 <= i < |stops| && KeptStop(stops, h.code, m, i);
        LatestElsewhere(stops, after, h.code, i);
        assert KeptStop(after, h.code, m, i);
      }
    }
  }

  /** Stops of other shutdowns are not looked at: what happens to them changes nothing here. */
  lemma StopsElsewhere(h: Header, stops: seq<Stop>, after: seq<Stop>)
    requires StopsFollow(h, stops) && SameSubjects(stops, after)
    requires forall i :: 0 <= i < |stops| && Tagged(stops[i], h.code) ==> after[i] == stops[i]
    requires forall i :: |stops| <= i < |after| ==> !Tagged(after[i], h.code)
    ensures StopsFollow(h, after)
  {
    forall k | 0 <= k < |stops| && Standing(after[k], h.code)
      ensures Standing(stops[k], h.code) && StopMatches(h, after[k])
    {
      assert StandsRight(h, stops, k);
    }
    StopsMoveOn(h, h, stops, after);
  }

  /** Only stops of one shutdown changed, and only its own were added. */
  ghost predicate OnlyStopsOf(code: string, stops: seq<Stop>, after: seq<Stop>) {
    && SameSubjects(stops, after)
    && (forall k :: 0 <= k < |stops| && !Tagged(stops[k], code) ==> after[k] == stops[k])
    && (forall k :: |stops| <= k < |after| ==> Tagged(after[k], code))
  }

  /** One shutdown changes, its own stops with it. */
  lemma OneShutdownKeepsStops(s: State, t: State, i: nat)
    requires HeadersInv(s.headers) && StopsInv(s) && i < |s.headers|
    requires |t.headers| == |s.headers| && t.headers == s.headers[i := t.headers[i]]
    requires OnlyStopsOf(s.headers[i].code, s.stops, t.stops) && StopsFollow(t.headers[i], t.stops)
    ensures StopsInv(t)
  {
    forall k | 0 <= k < |t.headers| && k != i ensures StopsFollow(t.headers[k], t.stops) {
      assert s.headers[k].code != s.headers[i].code;
      assert StopsFollow(s.headers[k], s.stops);
      StopsElsewhere(s.headers[k], s.stops, t.stops);
    }
  }

  // ---------------------------------------------------------------------------
  // Planning
  // ---------------------------------------------------------------------------

  /** The stops just planned, at the end of the table. */
  lemma PlannedAt(h: Header, stops: seq<Stop>, machines: seq<string>, k: nat)
    requires k < |machines| && Distinct(machines)
    ensures var after := stops + PlanStops(h, machines);
      && after[|stops| + k] == PlannedStop(h, machines[k])
      && Latest(after, h.code, |stops| + k)
  {
    var after := stops + PlanStops(h, machines);
    forall j | |stops| + k < j < |after| ensures !StopOf(after[j], h.code, machines[k]) {
      assert after[j] == PlannedStop(h, machines[j - |stops|]);
    }
  }

  lemma NewStopsFollow(h: Header, stops: seq<Stop>)
    requires h.phase == Planned && Distinct(h.machines) && Unused(stops, h.code)
    ensures StopsFollow(h, stops + PlanStops(h, h.machines))
  {
    var after := stops + PlanStops(h, h.machines);
    forall i | 0 <= i < |after| ensures StandsRight(h, after, i) {
      if i < |stops| {
        assert !Standing(stops[i], h.code);
      } else {
        PlannedAt(h, stops, h.machines, i - |stops|);
      }
    }
    forall m | m in h.machines ensures Accounted(after, h.code, m) {
      var k :| 0 <= k < |h.machines| && h.machines[k] == m;
      PlannedAt(h, stops, h.machines, k);
      assert KeptStop(after, h.code, m, |stops| + k);
    }
  }

  /** The stops of a new shutdown follow it exactly when no standing stop carried
      its code before: one left by a factory that was deleted spoils it. */
  lemma PlannedStopsFollowExactlyWhenUnused(h: Header, stops: seq<Stop>)
    requires h.phase == Planned && Distinct(h.machines)
    ensures StopsFollow(h, stops + PlanStops(h, h.machines)) <==> Unused(stops, h.code)
  {
    var after := stops + PlanStops(h, h.machines);
    if Unused(stops, h.code) {
      NewStopsFollow(h, stops);
    } else {
      var i :| 0 <= i < |stops| && Standing(stops[i], h.code);
      assert after[i] == stops[i];
      if StandsRight(h, after, i) {
        var k :| 0 <= k < |h.machines| && h.machines[k] == stops[i].asset;
        PlannedAt(h, stops, h.machines, k);
        assert StopOf(after[|stops| + k], h.code, after[i].asset);
      }
    }
  }

  lemma PlanKeepsStops(s: State, q: Request, now: int, stamp: string)
    requires HeadersInv(s.headers) && StopsInv(s) && OwnStopsOnly(s, PlanShutdown(q, now, stamp))
    ensures StopsInv(Plan(s, q, now, stamp).state)
  {
    var o := Plan(s, q, now, stamp);
    if o.error.None? {
      var n := |s.headers|;
      var h := o.state.headers[n];
      PlanKeepsHeaders(s, q, now, stamp);
      NewStopsFollow(h, s.stops);
      forall i | 0 <= i < n ensures StopsFollow(o.state.headers[i], o.state.stops) {
        assert o.state.headers[i].code != h.code;
        StopsElsewhere(s.headers[i], s.stops, o.state.stops);
      }
    }
  }

  // ---------------------------------------------------------------------------
  // Changing window and machines
  // ---------------------------------------------------------------------------

  lemma {:induction false} MinusDistinct(a: seq<string>, b: seq<string>)
    requires Distinct(a)
    ensures Distinct(Minus(a, b))
    decreases |a|
  {
    if a != [] {
      MinusDistinct(a[..|a| - 1], b);
    }
  }

  /** The old stops once moved and dropped, before new ones are planned. */
  ghost function Carried(was: Header, h: Header, stops: seq<Stop>): (r: seq<Stop>)
    ensures |r| == |stops|
  {
    var moved := if h.startsAt != was.startsAt || h.endsAt != was.endsAt
                 then MoveStops(stops, h.code, h.startsAt, h.endsAt) else stops;
    DropStops(moved, h.code, Only(Minus(was.machines, h.machines)))
  }

  /** Each is moved while it stands and its machine stays, dropped if the machine goes. */
  lemma CarriedStop(was: Header, h: Header, stops: seq<Stop>, i: nat)
    requires StopsFollow(was, stops) && was.phase == Planned && h.phase == Planned && h.code == was.code && i < |stops|
    ensures var d, e := stops[i], Carried(was, h, stops)[i];
      e == (if !Standing(d, h.code) then d
            else if d.asset in h.machines then Move(d, h.startsAt, h.endsAt)
            else Move(d, h.startsAt, h.endsAt).(state := StopState.Cancelled))
      && (Standing(d, h.code) && d.asset in h.machines ==> StopMatches(h, e))
  {
    assert StandsRight(was, stops, i);
  }

  lemma CarriedFollow(was: Header, h: Header, stops: seq<Stop>, i: nat)
    requires StopsFollow(was, stops) && was.phase == Planned && h.phase == Planned && h.code == was.code && i < |stops|
    requires Distinct(h.machines)
    ensures StandsRight(h, Carried(was, h, stops) + PlanStops(h, Minus(h.machines, was.machines)), i)
  {
    var kept, added := Carried(was, h, stops), Minus(h.machines, was.machines);
    var after := kept + PlanStops(h, added);
    CarriedStop(was, h, stops, i);
    if Standing(after[i], h.code) {
      assert StandsRight(was, stops, i);
      AddedElsewhere(was, h, stops, i);
    }
  }

  /** New stops are for other machines, so the latest of a machine kept is still that. */
  lemma AddedElsewhere(was: Header, h: Header, stops: seq<Stop>, i: nat)
    requires i < |stops| && stops[i].asset in was.machines && Latest(stops, h.code, i) && was.phase == Planned
    requires StopsFollow(was, stops) && h.code == was.code && h.phase == Planned
    ensures Latest(Carried(was, h, stops) + PlanStops(h, Minus(h.machines, was.machines)), h.code, i)
  {
    var kept, added := Carried(was, h, stops), Minus(h.machines, was.machines);
    var after := kept + PlanStops(h, added);
    forall j | |stops| <= j < |after| ensures !StopOf(after[j], h.code, stops[i].asset) {
      assert after[j] == PlannedStop(h, added[j - |stops|]) && added[j - |stops|] in added;
    }
    LatestElsewhere(stops, after, h.code, i);
  }

  lemma AmendedAccounted(was: Header, h: Header, stops: seq<Stop>, m: string)
    requires StopsFollow(was, stops) && was.phase == Planned && h.phase == Planned && h.code == was.code
    requires Distinct(h.machines) && m in h.machines
    ensures Accounted(Carried(was, h, stops) + PlanStops(h, Minus(h.machines, was.machines)), h.code, m)
  {
    var kept, added := Carried(was, h, stops), Minus(h.machines, was.machines);
    var after := kept + PlanStops(h, added);
    if m in was.machines {
      assert Accounted(stops, was.code, m);
      var i :| 0 <= i < |stops| && KeptStop(stops, was.code, m, i);
      CarriedStop(was, h, stops, i);
      AddedElsewhere(was, h, stops, i);
      assert KeptStop(after, h.code, m, i);
    } else {
      MinusDistinct(h.machines, was.machines);
      var k :| 0 <= k < |added| && added[k] == m;
      PlannedAt(h, kept, added, k);
      assert KeptStop(after, h.code, m, |kept| + k);
    }
  }

  /** After a planned shutdown is changed its stops follow it again: those of
      machines kept have moved with the window, those of machines removed are
      dropped, and each machine added has a new one, also when it had been
      removed before. */
  lemma ChangedStopsFollow(was: Header, h: Header, stops: seq<Stop>)
    requires StopsFollow(was, stops) && was.phase == Planned && h.phase == Planned && h.code == was.code
    requires Distinct(h.machines)
    ensures StopsFollow(h, Carried(was, h, stops) + PlanStops(h, Minus(h.machines, was.machines)))
  {
    var kept, added := Carried(was, h, stops), Minus(h.machines, was.machines);
    var after := kept + PlanStops(h, added);
    MinusDistinct(h.machines, was.machines);
    forall i | 0 <= i < |after| ensures StandsRight(h, after, i) {
      if i < |stops| {
        CarriedFollow(was, h, stops, i);
      } else {
        PlannedAt(h, kept, added, i - |stops|);
        assert added[i - |stops|] in added;
      }
    }
    forall m | m in h.machines ensures Accounted(after, h.code, m) { AmendedAccounted(was, h, stops, m); }
  }

  lemma ChangedElsewhere(was: Header, h: Header, stops: seq<Stop>)
    requires h.code == was.code
    ensures OnlyStopsOf(h.code, stops, Carried(was, h, stops) + PlanStops(h, Minus(h.machines, was.machines)))
  {
    var added := Minus(h.machines, was.machines);
    var after := Carried(was, h, stops) + PlanStops(h, added);
    forall k | |stops| <= k < |after| ensures Tagged(after[k], h.code) {
      assert after[k] == PlannedStop(h, added[k - |stops|]);
    }
  }

  lemma AmendedStops(s: State, i: nat, h: Header, t: State)
    requires HeadersInv(s.headers) && StopsInv(s) && i < |s.headers| && t == Amended(s, i, h)
    requires s.headers[i].phase == Planned == h.phase && h.code == s.headers[i].code && Distinct(h.machines)
    ensures StopsInv(t)
  {
    AmendedIsCarried(s, i, h);
    assert StopsFollow(s.headers[i], s.stops);
    ChangedStopsFollow(s.headers[i], h, s.stops);
    ChangedElsewhere(s.headers[i], h, s.stops);
    OneShutdownKeepsStops(s, t, i);
  }

  lemma AmendedIsCarried(s: State, i: nat, h: Header)
    requires i < |s.headers|
    ensures var was, t := s.headers[i], Amended(s, i, h);
      && t.headers == s.headers[i := h]
      && t.stops == Carried(was, h, s.stops) + PlanStops(h, Minus(h.machines, was.machines))
  {}

  lemma AmendKeepsStops(s: State, code: string, p: Patch)
    requires HeadersInv(s.headers) && StopsInv(s)
    ensures StopsInv(Amend(s, code, p).state)
  {
    var o := Amend(s, code, p);
    if o.error.None? {
      var i := FindHeader(s.headers, code).value;
      var was := s.headers[i];
      var tags := if p.machines.Some? then p.machines.value else was.machines;
      ResolvedMachines(s.assets, was.plant, tags, |tags|);
      AmendedStops(s, i, o.state.headers[i], o.state);
    }
  }

  // ---------------------------------------------------------------------------
  // Starting, finishing, calling off
  // ---------------------------------------------------------------------------

  lemma BeginKeepsStops(s: State, code: string, now: int)
    requires HeadersInv(s.headers) && StopsInv(s)
    ensures StopsInv(Begin(s, code, now).state)
  {
    var o := Begin(s, code, now);
    if o.error.None? {
      var i := FindHeader(s.headers, code).value;
      assert StopsFollow(s.headers[i], s.stops);
      forall k | 0 <= k < |s.stops| && Standing(o.state.stops[k], code)
        ensures Standing(s.stops[k], code) && o.state.stops[k].state == Open
      {
        assert StandsRight(s.headers[i], s.stops, k);
      }
      StopsMoveOn(s.headers[i], o.state.headers[i], s.stops, o.state.stops);
      OneShutdownKeepsStops(s, o.state, i);
    }
  }

  lemma ConcludeKeepsStops(s: State, code: string, now: int)
    requires HeadersInv(s.headers) && StopsInv(s)
    ensures StopsInv(Conclude(s, code, now).state)
  {
    var o := Conclude(s, code, now);
    if o.error.None? {
      var i := FindHeader(s.headers, code).value;
      assert StopsFollow(s.headers[i], s.stops);
      forall k | 0 <= k < |s.stops| && Standing(o.state.stops[k], code)
        ensures Standing(s.stops[k], code) && o.state.stops[k].state == Closed
      {
        assert StandsRight(s.headers[i], s.stops, k);
      }
      StopsMoveOn(s.headers[i], o.state.headers[i], s.stops, o.state.stops);
      OneShutdownKeepsStops(s, o.state, i);
    }
  }

  lemma CallOffKeepsStops(s: State, code: string)
    requires HeadersInv(s.headers) && StopsInv(s)
    ensures StopsInv(CallOff(s, code).state)
  {
    var o := CallOff(s, code);
    if o.error.None? {
      var i := FindHeader(s.headers, code).value;
      assert StopsFollow(s.headers[i], s.stops);
      forall k | 0 <= k < |s.stops| ensures !Standing(o.state.stops[k], code) {
        assert StandsRight(s.headers[i], s.stops, k);
      }
      StopsMoveOn(s.headers[i], o.state.headers[i], s.stops, o.state.stops);
      OneShutdownKeepsStops(s, o.state, i);
    }
  }

  // ---------------------------------------------------------------------------
  // Everything else
  // ---------------------------------------------------------------------------

  lemma DeleteKeepsStops(s: State, id: nat)
    requires StopsInv(s)
    ensures StopsInv(Apply(s, DeleteStop(id)))
  {
    var t := Apply(s, DeleteStop(id));
    forall i | 0 <= i < |s.headers| ensures StopsFollow(t.headers[i], t.stops) {
      var h := s.headers[i];
      assert StopsFollow(h, s.stops);
      forall k | 0 <= k < |s.stops| && Standing(t.stops[k], h.code)
        ensures Standing(s.stops[k], h.code) && StopMatches(h, t.stops[k])
      {
        assert StandsRight(h, s.stops, k);
      }
      StopsMoveOn(h, h, s.stops, t.stops);
    }
  }

  /** A stop written under a code keeps its header right exactly when it fits. */
  lemma OneMoreStopFollows(h: Header, stops: seq<Stop>, d: Stop)
    requires StopsFollow(h, stops) && Standing(d, h.code)
    ensures StopsFollow(h, stops + [d]) <==> Fits(h, stops, d)
  {
    var after, n := stops + [d], |stops|;
    assert after[n] == d;
    if Fits(h, stops, d) {
      forall i | 0 <= i < |after| ensures StandsRight(h, after, i) {
        if i < n {
          assert StandsRight(h, stops, i);
          if Standing(stops[i], h.code) { LatestElsewhere(stops, after, h.code, i); }
        }
      }
      forall m | h.phase != CalledOff && m in h.machines ensures Accounted(after, h.code, m) {
        if m == d.asset { assert KeptStop(after, h.code, m, n); } else { AccountedElsewhere(h, stops, d, m); }
      }
    } else if StandsRight(h, after, n) {
      var k :| 0 <= k < n && Standing(stops[k], h.code) && stops[k].asset == d.asset;
      assert StopOf(after[n], h.code, after[k].asset) && after[k] == stops[k];
      assert !StandsRight(h, after, k);
    }
  }

  lemma AccountedElsewhere(h: Header, stops: seq<Stop>, d: Stop, m: string)
    requires Accounted(stops, h.code, m) && d.asset != m
    ensures Accounted(stops + [d], h.code, m)
  {
    var i :| 0 <= i < |stops| && KeptStop(stops, h.code, m, i);
    LatestElsewhere(stops, stops + [d], h.code, i);
    assert KeptStop(stops + [d], h.code, m, i);
  }

  /** Recording a stop by hand keeps all headers right exactly when it fits every
      shutdown whose code it carries. */
  lemma RecordingKeepsStopsExactly(s: State, n: NewStop)
    requires StopsInv(s) && Create(n, s.bus).Ok?
    ensures StopsInv(Recorded(s, n)) <==> FitsIts(s, Create(n, s.bus).value)
  {
    var d, t := Create(n, s.bus).value, Recorded(s, n);
    forall i | 0 <= i < |s.headers|
      ensures StopsFollow(t.headers[i], t.stops) <==> Tagged(d, s.headers[i].code) ==> Fits(s.headers[i], s.stops, d)
    {
      if Tagged(d, s.headers[i].code) {
        OneMoreStopFollows(s.headers[i], s.stops, d);
      } else {
        StopsElsewhere(s.headers[i], s.stops, t.stops);
      }
    }
  }

  /** A stop moved by hand leaves a header that has its code wrong, unless it is over. */
  lemma MovedByHandFollows(s: State, op: Op, id: nat, i: nat)
    requires StopsInv(s) && MovesByHand(s, op, id) && i < |s.headers| && Tagged(s.stops[id], s.headers[i].code)
    ensures StopsFollow(s.headers[i], Apply(s, op).stops) <==> s.stops[id].state == Closed
  {
    var h, t := s.headers[i], Apply(s, op);
    assert StopsFollow(h, s.stops) && StandsRight(h, s.stops, id);
    if s.stops[id].state == Closed {
      forall k | 0 <= k < |s.stops| && Standing(t.stops[k], h.code)
        ensures Standing(s.stops[k], h.code) && StopMatches(h, t.stops[k])
      {
        assert StandsRight(h, s.stops, k);
      }
      StopsMoveOn(h, h, s.stops, t.stops);
    } else if op.DropStop? {
      DroppedIsMissed(h, s.stops, t.stops, id);
    } else {
      assert !StandsRight(h, t.stops, id);
    }
  }

  /** The stop that counts is dropped: its machine has none. */
  lemma DroppedIsMissed(h: Header, stops: seq<Stop>, after: seq<Stop>, id: nat)
    requires id < |stops| && Tagged(stops[id], h.code) && Latest(stops, h.code, id)
    requires after == stops[id := stops[id].(state := StopState.Cancelled)]
    ensures !Accounted(after, h.code, stops[id].asset)
  {
    LatestElsewhere(stops, after, h.code, id);
    forall k | 0 <= k < |after| ensures !KeptStop(after, h.code, stops[id].asset, k) {
      if KeptStop(after, h.code, stops[id].asset, k) { LatestIsOne(after, h.code, k, id); }
    }
  }

  /** Starting, dropping or ending a stop by hand keeps all headers right exactly
      when no shutdown has its code, or it was over. */
  lemma HandKeepsStopsExactly(s: State, op: Op, id: nat)
    requires StopsInv(s) && MovesByHand(s, op, id)
    ensures StopsInv(Apply(s, op)) <==> Loose(s, s.stops[id])
  {
    var d, t := s.stops[id], Apply(s, op);
    forall i | 0 <= i < |s.headers|
      ensures StopsFollow(t.headers[i], t.stops) <==> Tagged(d, s.headers[i].code) ==> d.state == Closed
    {
      if Tagged(d, s.headers[i].code) {
        MovedByHandFollows(s, op, id, i);
      } else {
        StopsElsewhere(s.headers[i], s.stops, t.stops);
      }
    }
  }

  lemma DropPlantKeepsStops(s: State, code: string, held: bool)
    requires StopsInv(s)
    ensures StopsInv(DropPlant(s, code, held).state)
  {
    var at := HeadersLeft(s.headers, Trim(code));
  }

  lemma StopOpKeepsStops(s: State, op: Op)
    requires StopsInv(s) && OwnStopsOnly(s, op) && WritesStops(op) && !op.DeleteStop?
    ensures StopsInv(Apply(s, op))
  {
    match op
    case RecordStop(n) => if Create(n, s.bus).Ok? { RecordingKeepsStopsExactly(s, n); }
    case ReportFault(tag, _) => RecordingKeepsStopsExactly(s, FaultStop(Trim(tag)));
    case StartStop(id, _) => if MovesByHand(s, op, id) { HandKeepsStopsExactly(s, op, id); }
    case DropStop(id) => if MovesByHand(s, op, id) { HandKeepsStopsExactly(s, op, id); }
    case EndStop(id, _) => if MovesByHand(s, op, id) { HandKeepsStopsExactly(s, op, id); }
  }

  predicate WritesStops(op: Op) {
    op.RecordStop? || op.ReportFault? || op.StartStop? || op.DropStop? || op.EndStop? || op.DeleteStop?
  }

  lemma OthersLeaveStops(s: State, op: Op)
    requires !WritesHeaders(op) && !WritesStops(op)
    ensures Apply(s, op).headers == s.headers && Apply(s, op).stops == s.stops && Apply(s, op).bus == s.bus
  {}

  lemma ShutdownOpKeepsStops(s: State, op: Op)
    requires HeadersInv(s.headers) && StopsInv(s) && OwnStopsOnly(s, op) && WritesHeaders(op)
    ensures StopsInv(Apply(s, op))
  {
    match op
    case PlanShutdown(q, now, stamp) => PlanKeepsStops(s, q, now, stamp);
    case AmendShutdown(code, p) => AmendKeepsStops(s, code, p);
    case SetShutdownJobs(code, j) => JobsWriteOrders(s, code, j);
    case StartShutdown(code, now) => BeginKeepsStops(s, code, now);
    case FinishShutdown(code, now) => ConcludeKeepsStops(s, code, now);
    case CancelShutdown(code) => CallOffKeepsStops(s, code);
    case DeletePlant(code, held) => DropPlantKeepsStops(s, code, held);
  }

  lemma OpKeepsStops(s: State, op: Op)
    requires HeadersInv(s.headers) && StopsInv(s) && OwnStopsOnly(s, op)
    ensures StopsInv(Apply(s, op))
  {
    if WritesHeaders(op) {
      ShutdownOpKeepsStops(s, op);
    } else if op.DeleteStop? {
      DeleteKeepsStops(s, op.id);
    } else if WritesStops(op) {
      StopOpKeepsStops(s, op);
    } else {
      OthersLeaveStops(s, op);
    }
  }

  lemma {:induction false} RunKeepsStops(s: State, ops: seq<Op>)
    requires HeadersInv(s.headers) && StopsInv(s) && RunWithin(s, ops, OwnStops)
    ensures StopsInv(Run(s, ops))
    decreases |ops|
  {
    if ops != [] {
      var front := ops[..|ops| - 1];
      RunKeepsStops(s, front);
      RunKeepsHeaders(s, front);
      OpKeepsStops(Run(s, front), ops[|ops| - 1]);
    }
  }

  lemma ReachableStops(s: State)
    requires Reachable(s, OwnStops)
    ensures HeadersInv(s.headers) && StopsInv(s)
  {
    var s0: State, ops: seq<Op> :| Fresh(s0) && RunWithin(s0, ops, OwnStops) && s == Run(s0, ops);
    RunKeepsStops(s0, ops);
    RunKeepsHeaders(s0, ops);
  }

  // ---------------------------------------------------------------------------
  // What the header says about the stops
  // ---------------------------------------------------------------------------

  /** The stop of machine `m` that counts: its latest; no other one stands, and it
      stands unless it was deleted. */
  ghost predicate StopThatCounts(stops: seq<Stop>, code: string, m: string, k: nat) {
    && k < |stops| && StopOf(stops[k], code, m) && Latest(stops, code, k)
    && (forall n :: 0 <= n < |stops| && Standing(stops[n], code) && stops[n].asset == m ==> n == k)
    && (Standing(stops[k], code) <==> stops[k].state != StopState.Deleted)
  }

  lemma MachineHasItsStop(h: Header, stops: seq<Stop>, m: string) returns (k: nat)
    requires StopsFollow(h, stops) && h.phase != CalledOff && m in h.machines
    ensures StopThatCounts(stops, h.code, m, k)
  {
    assert Accounted(stops, h.code, m);
    k :| 0 <= k < |stops| && KeptStop(stops, h.code, m, k);
    forall n | 0 <= n < |stops| && Standing(stops[n], h.code) && stops[n].asset == m ensures n == k {
      assert StandsRight(h, stops, n);
      assert StopOf(stops[n], h.code, m) && StopOf(stops[k], h.code, m);
      LatestIsOne(stops, h.code, n, k);
    }
  }

  lemma LatestIsOne(stops: seq<Stop>, code: string, n: nat, k: nat)
    requires Latest(stops, code, n) && Latest(stops, code, k) && stops[n].asset == stops[k].asset
    requires Tagged(stops[n], code) && Tagged(stops[k], code)
    ensures n == k
  {
    assert StopOf(stops[n], code, stops[k].asset) && StopOf(stops[k], code, stops[n].asset);
  }

  /** The header fixes the stops, deleted ones included. Every stop of a shutdown
      that stands is on one of its machines: scheduled for exactly the window while
      planned, open while in progress, closed once completed, and none stands once
      it is called off. Each machine has exactly one that stands, if and only if
      its latest was not deleted; otherwise it has none. */
  lemma HeaderFixesTheStops(s: State, i: nat)
    requires Reachable(s, OwnStops) && i < |s.headers|
    ensures var h := s.headers[i];
      && (forall k :: 0 <= k < |s.stops| && Standing(s.stops[k], h.code) ==>
            h.phase != CalledOff && s.stops[k].asset in h.machines && StopMatches(h, s.stops[k]))
      && (h.phase != CalledOff ==> forall m :: m in h.machines ==> exists k :: StopThatCounts(s.stops, h.code, m, k))
  {
    ReachableStops(s);
    var h := s.headers[i];
    assert StopsFollow(h, s.stops);
    forall k | 0 <= k < |s.stops| && Standing(s.stops[k], h.code)
      ensures h.phase != CalledOff && s.stops[k].asset in h.machines && StopMatches(h, s.stops[k])
    {
      assert StandsRight(h, s.stops, k);
    }
    if h.phase != CalledOff {
      forall m | m in h.machines ensures exists k :: StopThatCounts(s.stops, h.code, m, k) {
        var k := MachineHasItsStop(h, s.stops, m);
      }
    }
  }

  /** A change drops exactly the standing stops on machines no longer listed, moves
      the other standing ones to its window, and leaves every other stop as it was. */
  lemma AmendMovesExactly(s: State, code: string, p: Patch, k: nat)
    requires Reachable(s, OwnStops) && Amend(s, code, p).error.None? && k < |s.stops|
    ensures var after := Amend(s, code, p).state;
      var h, d := after.headers[FindHeader(s.headers, code).value], s.stops[k];
      after.stops[k] == (if !Standing(d, code) then d
                         else if d.asset in h.machines then Move(d, h.startsAt, h.endsAt)
                         else Move(d, h.startsAt, h.endsAt).(state := StopState.Cancelled))
  {
    ReachableStops(s);
    var i := FindHeader(s.headers, code).value;
    var h := Amend(s, code, p).state.headers[i];
    AmendedIsCarried(s, i, h);
    assert StopsFollow(s.headers[i], s.stops);
    CarriedStop(s.headers[i], h, s.stops, k);
  }

  // ---------------------------------------------------------------------------
  // Codes and factories that were deleted
  // ---------------------------------------------------------------------------

  /** Every tagged stop names a shutdown there is. */
  ghost predicate TagsKnown(s: State) {
    forall k :: 0 <= k < |s.stops| && s.stops[k].shutdown.Some? ==> s.stops[k].shutdown.value in Codes(s.headers)
  }

  /** No factory is deleted, no stop is written under a code no shutdown has, and the
      stops of shutdowns are moved and written as before. */
  ghost predicate NoFactoryLost(s: State, op: Op) {
    && !op.DeletePlant? && (op.PlanShutdown? || OwnStopsOnly(s, op))
    && (op.RecordStop? && op.n.shutdown.Some? ==> op.n.shutdown.value in Codes(s.headers))
  }

  lemma PlanKeepsTags(s: State, q: Request, now: int, stamp: string)
    requires TagsKnown(s)
    ensures OwnStopsOnly(s, PlanShutdown(q, now, stamp)) && TagsKnown(Plan(s, q, now, stamp).state)
  {
    var o := Plan(s, q, now, stamp);
    if o.error.None? {
      var h, base := o.state.headers[|s.headers|], BaseCode(Trim(q.plant), stamp);
      FreeFromIsFirst(Codes(s.headers), base, 1);
      CodesKept(s.headers, o.state.headers);
      assert h.code in Codes(o.state.headers);
    }
  }

  lemma AmendedKeepsTags(s: State, i: nat, h: Header)
    requires TagsKnown(s) && i < |s.headers| && h.code == s.headers[i].code
    ensures TagsKnown(Amended(s, i, h))
  {
    var t := Amended(s, i, h);
    AmendedIsCarried(s, i, h);
    CodesKept(s.headers, t.headers);
    assert t.headers[i].code in Codes(t.headers);
    forall k | 0 <= k < |t.stops| && t.stops[k].shutdown.Some? ensures t.stops[k].shutdown.value in Codes(t.headers) {
      if k < |s.stops| { assert t.stops[k].shutdown == s.stops[k].shutdown; }
    }
  }

  lemma AmendKeepsTags(s: State, code: string, p: Patch)
    requires TagsKnown(s)
    ensures TagsKnown(Amend(s, code, p).state)
  {
    if Amend(s, code, p).error.None? {
      var i, h := AmendIsAmended(s, code, p);
      AmendedKeepsTags(s, i, h);
    }
  }

  lemma PhaseOpKeepsTags(s: State, op: Op)
    requires TagsKnown(s) && (op.StartShutdown? || op.FinishShutdown? || op.CancelShutdown?)
    ensures TagsKnown(Apply(s, op))
  {
    CodesStay(s, op);
  }

  lemma StopOpKeepsTags(s: State, op: Op)
    requires TagsKnown(s) && WritesStops(op) && NoFactoryLost(s, op)
    ensures TagsKnown(Apply(s, op))
  {
    assert Apply(s, op).headers == s.headers;
  }

  lemma OpKeepsTags(s: State, op: Op)
    requires TagsKnown(s) && NoFactoryLost(s, op)
    ensures OwnStopsOnly(s, op) && TagsKnown(Apply(s, op))
  {
    if op.PlanShutdown? {
      PlanKeepsTags(s, op.q, op.now, op.stamp);
    } else if op.AmendShutdown? {
      AmendKeepsTags(s, op.code, op.p);
    } else if op.SetShutdownJobs? {
      JobsWriteOrders(s, op.code, op.j);
    } else if WritesHeaders(op) {
      PhaseOpKeepsTags(s, op);
    } else if WritesStops(op) {
      StopOpKeepsTags(s, op);
    } else {
      OthersLeaveStops(s, op);
    }
  }

  ghost predicate RunLosesNoFactory(s: State, ops: seq<Op>)
    decreases |ops|
  {
    || ops == []
    || (RunLosesNoFactory(s, ops[..|ops| - 1]) && NoFactoryLost(Run(s, ops[..|ops| - 1]), ops[|ops| - 1]))
  }

  /** As long as no factory is deleted, every shutdown planned gets an unused code,
      so the header fixes the stops. */
  lemma {:induction false} WithoutDeletedFactories(s: State, ops: seq<Op>)
    requires TagsKnown(s) && RunLosesNoFactory(s, ops)
    ensures RunWithin(s, ops, OwnStops) && TagsKnown(Run(s, ops))
    decreases |ops|
  {
    if ops != [] {
      WithoutDeletedFactories(s, ops[..|ops| - 1]);
      OpKeepsTags(Run(s, ops[..|ops| - 1]), ops[|ops| - 1]);
    }
  }

  /** A plan for one machine at a factory without shutdowns. */
  predicate PlansOne(q: Request, now: int, tag: string) {
    && Trim(q.plant) != "" && 0 < |Trim(q.title)| <= MAX_TITLE && WindowOk(q.startsAt, q.endsAt) && q.endsAt >= now
    && q.machines == [tag] && tag != "" && Trim(tag) == tag
  }

  function HeaderFor(q: Request, stamp: string): Header {
    var plant := Trim(q.plant);
    Header(BaseCode(plant, stamp), plant, Trim(q.title), q.startsAt, q.endsAt, Planned, q.machines, None, None)
  }

  lemma PlanFirst(s: State, q: Request, now: int, stamp: string, tag: string)
    requires PlansOne(q, now, tag) && s.headers == [] && Trim(q.plant) in s.plants
    requires tag in s.assets && s.assets[tag] == Asset(Trim(q.plant), Idle)
    ensures var h := HeaderFor(q, stamp);
      Plan(s, q, now, stamp) == Done(s.(headers := [h], stops := s.stops + [PlannedStop(h, tag)]))
  {
    assert Resolve(s.assets, Trim(q.plant), q.machines, 0) == Ok([]);
    assert SeenTags(q.machines[..0]) == {};
    assert [] + [tag] == [tag];
    assert Resolve(s.assets, Trim(q.plant), q.machines, 1) == Ok([tag]);
    var h := HeaderFor(q, stamp);
    assert PlanStops(h, [tag]) == [PlannedStop(h, tag)];
    assert Codes(s.headers) == {};
  }

  lemma ReachesPlan(s: State, q: Request, now: int, stamp: string, tag: string) returns (t: State)
    requires Reachable(s, Anything) && PlansOne(q, now, tag) && s.headers == [] && Trim(q.plant) in s.plants
    requires tag in s.assets && s.assets[tag] == Asset(Trim(q.plant), Idle)
    ensures var h := HeaderFor(q, stamp);
      t == s.(headers := [h], stops := s.stops + [PlannedStop(h, tag)]) && Reachable(t, Anything)
  {
    PlanFirst(s, q, now, stamp, tag);
    ReachOneMore(s, PlanShutdown(q, now, stamp), Anything);
    t := Apply(s, PlanShutdown(q, now, stamp));
  }

  lemma FactoryGoes(s: State, name: string, tag: string, there: Asset, h: Header) returns (t: State)
    requires Reachable(s, Anything) && Trim(name) != "" && there.plant != Trim(name) && h.plant == Trim(name)
    requires s.headers == [h] && s.plants == {Trim(name)} && s.assets.Keys == {tag}
    ensures t == s.(headers := [], plants := {}, assets := map[tag := there]) && Reachable(t, Anything)
  {
    var away := MachineLeaves(s, tag, there);
    ReachOneMore(away, DeletePlant(name, false), Anything);
    DropsTheOne(away, name, h);
    t := DropPlant(away, name, false).state;
  }

  lemma MachineLeaves(s: State, tag: string, there: Asset) returns (t: State)
    requires Reachable(s, Anything) && s.assets.Keys == {tag}
    ensures t == s.(assets := map[tag := there]) && Reachable(t, Anything)
  {
    assert s.assets[tag := there] == map[tag := there];
    ReachOneMore(s, EditAsset(tag, there), Anything);
    t := s.(assets := map[tag := there]);
  }

  lemma FactoryComes(s: State, plant: string, tag: string, here: Asset) returns (t: State)
    requires Reachable(s, Anything) && s.plants == {} && s.assets.Keys == {tag}
    ensures t == s.(plants := {plant}, assets := map[tag := here]) && Reachable(t, Anything)
  {
    assert s.plants + {plant} == {plant} && s.assets[tag := here] == map[tag := here];
    ReachOneMore(s, AddPlant(plant), Anything);
    ReachOneMore(s.(plants := {plant}), EditAsset(tag, here), Anything);
    t := s.(plants := {plant}, assets := map[tag := here]);
  }

  lemma FactoryAgain(s: State, name: string, tag: string, other: string, h: Header) returns (t: State)
    requires Reachable(s, Anything) && Trim(name) != "" && other != Trim(name) && h.plant == Trim(name)
    requires s.headers == [h] && s.plants == {Trim(name)} && s.assets == map[tag := Asset(Trim(name), Idle)]
    ensures t == s.(headers := []) && Reachable(t, Anything)
  {
    t := FactoryGoes(s, name, tag, Asset(other, Idle), h);
    t := FactoryComes(t, Trim(name), tag, Asset(Trim(name), Idle));
  }

  lemma DropsTheOne(s: State, name: string, h: Header)
    requires Trim(name) != "" && h.plant == Trim(name) && s.headers == [h] && s.plants == {Trim(name)}
    requires !HasMachines(s.assets, Trim(name))
    ensures DropPlant(s, name, false).state == s.(headers := [], plants := {})
  {
    assert HeadersWithout([h], h.plant) == HeadersWithout([], h.plant) + [];
    assert s.plants - {Trim(name)} == {};
  }

  lemma TwoStand(s: State, h: Header, tag: string)
    requires s.headers == [h] && s.stops == [PlannedStop(h, tag)] + [PlannedStop(h, tag)]
    ensures |s.stops| == 2
    ensures forall k :: 0 <= k < 2 ==> Standing(s.stops[k], s.headers[0].code) && s.stops[k].asset == tag
  {}

  /** It happens: a machine moves away, its factory is deleted and added again, the
      machine comes back, and a shutdown of the same day gets the code of the lost
      one. Two of its stops then stand on one machine. */
  lemma ReusedCode(q: Request, now: int, stamp: string, tag: string, other: string) returns (s: State)
    requires PlansOne(q, now, tag) && other != Trim(q.plant)
    ensures Reachable(s, Anything) && |s.headers| == 1 && |s.stops| == 2
    ensures forall k :: 0 <= k < 2 ==> Standing(s.stops[k], s.headers[0].code) && s.stops[k].asset == tag
  {
    var plant, h := Trim(q.plant), HeaderFor(q, stamp);
    var s0 := State([], [], [], map[tag := Asset(plant, Idle)], {plant}, map[], false);
    FreshIsReachable(s0, Anything);
    var s1 := ReachesPlan(s0, q, now, stamp, tag);
    var s2 := FactoryAgain(s1, q.plant, tag, other, h);
    s := ReachesPlan(s2, q, now, stamp, tag);
    TwoStand(s, h, tag);
  }
}
