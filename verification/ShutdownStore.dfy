/**
  The shutdown programs (internal/store/shutdown.go), row by row, over the
  tables of one store. Each is proved to make exactly the bulk change that
  ShutdownModel gives for it. One operation reads the clock once.
 */
module ShutdownStore {
  import opened Wrappers
  import opened Text
  import opened Downtime
  import opened ShutdownModel

  class Store {
    var headers: seq<Header>
    var stops: seq<Stop>
    var orders: seq<WorkOrder>
    var assets: map<string, Asset>
    var plants: set<string>
    var schedules: map<nat, string>
    const bus: bool

    constructor (machines: map<string, Asset>, factories: set<string>, pm: map<nat, string>, withBus: bool)
      ensures Tables() == State([], [], [], machines, factories, pm, withBus)
    {
      headers, stops, orders := [], [], [];
      assets, plants, schedules, bus := machines, factories, pm, withBus;
    }

    ghost function Tables(): State
      reads this
    {
      State(headers, stops, orders, assets, plants, schedules, bus)
    }

    // -------------------------------------------------------------------------
    // Downtime records (internal/store/cmms.go)
    // -------------------------------------------------------------------------

    method CreateDowntimeEvent(n: NewStop) returns (r: Result<nat>)
      modifies this`stops, this`assets
      ensures var d := Downtime.Create(n, bus);
        if d.Err? then r == Err(d.error) && Tables() == old(Tables())
        else
          && r == Ok(|old(stops)|) && stops == old(stops) + [d.value]
          && assets == (if d.value.state == Open && n.endedAt == None then SetStatus(old(assets), n.asset, Down)
                        else old(assets))
      ensures r.Ok? <==>
        || n.state == None || n.state == Some(Open)
        || (n.state == Some(Scheduled) && n.plannedStart.Some?
            && (n.plannedEnd.Some? ==> n.plannedStart.value < n.plannedEnd.value))
      ensures assets.Keys == old(assets).Keys
      ensures forall tag :: tag in assets ==>
        var downs := r.Ok? && tag == n.asset && n.state != Some(Scheduled) && n.endedAt == None;
        assets[tag] == if downs then old(assets)[tag].(status := Down) else old(assets)[tag]
      ensures r.Ok? && n.state == Some(Scheduled) ==>
        stops == old(stops) + [Stop(n.asset, Scheduled, n.plannedStart.value, None, n.plannedStart, n.plannedEnd,
                                    n.shutdown, 0, 0)]
      ensures r.Ok? && n.state != Some(Scheduled) ==>
        stops == old(stops) + [Stop(n.asset, Open, n.startedAt, n.endedAt, n.plannedStart, n.plannedEnd, n.shutdown,
                                    if bus then 1 else 0, 0)]
    {
      var state := if n.state.None? then Open else n.state.value;
      if state != Open && state != Scheduled {
        return Err(BadInput);
      }
      var startedAt, endedAt := n.startedAt, n.endedAt;
      if state == Scheduled {
        if n.plannedStart.None? {
          return Err(BadInput);
        }
        if n.plannedEnd.Some? && n.plannedEnd.value <= n.plannedStart.value {
          return Err(BadInput);
        }
        startedAt, endedAt := n.plannedStart.value, None;
      }
      var events := if bus && state == Open then 1 else 0;
      r := Ok(|stops|);
      stops := stops + [Stop(n.asset, state, startedAt, endedAt, n.plannedStart, n.plannedEnd, n.shutdown, events, 0)];
      if endedAt == None && state == Open {
        assets := SetStatus(assets, n.asset, Down);
      }
    }

    method StartDowntimeEvent(id: nat, now: int) returns (r: Result<()>)
      modifies this`stops, this`assets
      ensures id >= |old(stops)| ==> r == Err(NotFound) && Tables() == old(Tables())
      ensures id < |old(stops)| ==>
        var d := Downtime.Start(old(stops)[id], now, bus);
        if d.Err? then r == Err(d.error) && Tables() == old(Tables())
        else r.Ok? && stops == old(stops)[id := d.value] && assets == SetStatus(old(assets), d.value.asset, Down)
      ensures r.Ok? <==> id < |old(stops)| && old(stops)[id].state == Scheduled
      ensures r.Ok? ==>
        var was, heard := old(stops)[id], if bus then 1 else 0;
        && assets.Keys == old(assets).Keys
        && (forall tag :: tag in assets ==>
              assets[tag] == if tag == was.asset then old(assets)[tag].(status := Down) else old(assets)[tag])
        && stops[id] == was.(state := Open, startedAt := now, startedEvents := was.startedEvents + heard)
    {
      if id >= |stops| || stops[id].state == Deleted {
        return Err(NotFound);
      }
      var d := stops[id];
      if d.state != Scheduled {
        return Err(BadInput);
      }
      assets := SetStatus(assets, d.asset, Down);
      d := d.(state := Open, startedAt := now);
      if bus {
        d := d.(startedEvents := d.startedEvents + 1);
      }
      stops := stops[id := d];
      r := Ok(());
    }

    method CancelDowntimeEvent(id: nat) returns (r: Result<()>)
      modifies this`stops
      ensures id >= |old(stops)| ==> r == Err(NotFound) && stops == old(stops)
      ensures id < |old(stops)| ==>
        var d := Downtime.Cancel(old(stops)[id]);
        if d.Err? then r == Err(d.error) && stops == old(stops) else r.Ok? && stops == old(stops)[id := d.value]
      ensures r.Ok? <==> id < |old(stops)| && old(stops)[id].state == Scheduled
      ensures r.Ok? ==> stops[id] == old(stops)[id].(state := StopState.Cancelled)
    {
      if id < |stops| && stops[id].state == Scheduled {
        stops := stops[id := stops[id].(state := StopState.Cancelled)];
        return Ok(());
      }
      r := Err(if id >= |stops| || stops[id].state == Deleted then NotFound else BadInput);
    }

    method EndDowntimeEvent(id: nat, now: int) returns (r: Result<()>)
      modifies this`stops, this`assets
      ensures id >= |old(stops)| ==> r == Err(NotFound) && Tables() == old(Tables())
      ensures id < |old(stops)| ==>
        var d := Downtime.End(old(stops)[id], now, bus);
        if d.Err? then r == Err(d.error) && Tables() == old(Tables())
        else r.Ok? && stops == old(stops)[id := d.value] && assets == SetStatus(old(assets), d.value.asset, Idle)
      ensures r.Ok? <==> id < |old(stops)| && old(stops)[id].state in {Open, Closed}
      ensures r.Ok? ==>
        var was, heard := old(stops)[id], if bus then 1 else 0;
        && assets.Keys == old(assets).Keys
        && (forall tag :: tag in assets ==>
              assets[tag] == if tag == was.asset then old(assets)[tag].(status := Idle) else old(assets)[tag])
        && stops[id] == was.(state := Closed, endedAt := Some(now), endedEvents := was.endedEvents + heard)
    {
      if id >= |stops| || stops[id].state == Deleted {
        return Err(NotFound);
      }
      var d := stops[id];
      if d.state == Scheduled || d.state == StopState.Cancelled {
        return Err(BadInput);
      }
      d := d.(endedAt := Some(now), state := Closed);
      assets := SetStatus(assets, d.asset, Idle);
      if bus {
        d := d.(endedEvents := d.endedEvents + 1);
      }
      stops := stops[id := d];
      r := Ok(());
    }

    method DeleteDowntimeEvent(id: nat) returns (r: Result<()>)
      modifies this`stops
      ensures id >= |old(stops)| ==> r == Err(NotFound) && stops == old(stops)
      ensures id < |old(stops)| ==>
        var d := Downtime.Delete(old(stops)[id]);
        if d.Err? then r == Err(d.error) && stops == old(stops) else r.Ok? && stops == old(stops)[id := d.value]
      ensures r.Ok? <==> id < |old(stops)| && old(stops)[id].state != Deleted
      ensures r.Ok? ==> stops[id] == old(stops)[id].(state := Deleted)
    {
      if id >= |stops| || stops[id].state == Deleted {
        return Err(NotFound);
      }
      stops := stops[id := stops[id].(state := Deleted)];
      r := Ok(());
    }

    // -------------------------------------------------------------------------
    // Other deletions (internal/store/register_delete.go)
    // -------------------------------------------------------------------------

    method DeleteWorkOrder(name: string, held: bool) returns (r: Result<()>)
      modifies this`orders
      ensures var o := DropOrder(old(Tables()), name, held);
        Tables() == o.state && r == (if o.error.Some? then Err(o.error.value) else Ok(()))
    {
      var num := Trim(name);
      if num == "" {
        return Err(BadInput);
      }
      var k := FindOrder(orders, num);
      if k.None? {
        return Err(NotFound);
      }
      if held {
        return Err(Conflict);
      }
      orders := orders[k.value := orders[k.value].(status := Removed)];
      r := Ok(());
    }

    method DeletePlant(name: string, held: bool) returns (r: Result<()>)
      modifies this`headers, this`plants
      ensures var o := DropPlant(old(Tables()), name, held);
        Tables() == o.state && r == (if o.error.Some? then Err(o.error.value) else Ok(()))
    {
      var plant := Trim(name);
      if plant == "" {
        return Err(BadInput);
      }
      if HasMachines(assets, plant) {
        return Err(Conflict);
      }
      if plant !in plants {
        return Err(NotFound);
      }
      if held {
        return Err(Conflict);
      }
      headers, plants := HeadersWithout(headers, plant), plants - {plant};
      r := Ok(());
    }

    // -------------------------------------------------------------------------
    // Checks and codes
    // -------------------------------------------------------------------------

    method ResolveMachines(plant: string, tags: seq<string>) returns (r: Result<seq<string>>)
      ensures r == Resolve(assets, plant, tags, |tags|)
    {
      var out := [];
      var seen := {};
      var i := 0;
      while i < |tags|
        invariant 0 <= i <= |tags| && seen <= SeenTags(tags[..i]) <= seen + {""}
        invariant Resolve(assets, plant, tags, i) == Ok(out)
      {
        var tag := Trim(tags[i]);
        SeenMore(tags, i);
        i := i + 1;
        if tag == "" || Upper(tag) in seen {
          continue;
        }
        seen := seen + {Upper(tag)};
        if tag !in assets || assets[tag].plant != plant || assets[tag].status == Retired {
          ResolveStaysErr(assets, plant, tags, i, |tags|, BadInput);
          return Err(BadInput);
        }
        out := out + [tag];
      }
      return Ok(out);
    }

    method HasClash(plant: string, machines: seq<string>, start: int, end: int, self: string) returns (clash: bool)
      ensures clash <==> Clash(headers, plant, machines, start, end, self)
    {
      var i := 0;
      while i < |headers|
        invariant 0 <= i <= |headers|
        invariant forall k, m :: 0 <= k < i && 0 <= m < |machines| ==>
          !ClashAt(headers[k], plant, machines[m], start, end, self)
      {
        var o := headers[i];
        if o.plant == plant && o.code != self && (o.phase == Planned || o.phase == InProgress)
           && o.startsAt < end && start < o.endsAt
        {
          var m := 0;
          while m < |machines|
            invariant 0 <= m <= |machines|
            invariant forall k :: 0 <= k < m ==> !ClashAt(o, plant, machines[k], start, end, self)
          {
            if machines[m] in o.machines {
              assert ClashAt(headers[i], plant, machines[m], start, end, self);
              return true;
            }
            m := m + 1;
          }
        }
        i := i + 1;
      }
      return false;
    }

    method CheckedMachines(plant: string, tags: seq<string>, start: int, end: int, self: string)
      returns (r: Result<seq<string>>)
      ensures r == CheckMachines(Tables(), plant, tags, start, end, self)
    {
      if |tags| == 0 {
        return Err(BadInput);
      }
      r := ResolveMachines(plant, tags);
      if r.Ok? {
        var clash := HasClash(plant, r.value, start, end, self);
        if clash {
          return Err(Conflict);
        }
      }
    }

    method NextShutdownCode(plant: string, stamp: string) returns (code: string)
      ensures code == CodeAt(BaseCode(plant, stamp), FreeFrom(Codes(headers), BaseCode(plant, stamp), 1))
      ensures code !in Codes(headers)
    {
      var base := BaseCode(plant, stamp);
      FreeFromIsFirst(Codes(headers), base, 1);
      code := base;
      var i := 1;
      ghost var last := FreeFrom(Codes(headers), base, 1);
      while FindHeader(headers, code).Some?
        invariant 1 <= i <= last && code == CodeAt(base, i)
        decreases last - i
      {
        i := i + 1;
        code := base + "-" + Decimal(i);
      }
    }

    // -------------------------------------------------------------------------
    // Planning
    // -------------------------------------------------------------------------

    method PlanStop(h: Header, machine: string) returns (r: Result<nat>)
      requires h.startsAt < h.endsAt
      modifies this`stops, this`assets
      ensures r.Ok? && stops == old(stops) + [PlannedStop(h, machine)] && assets == old(assets)
    {
      var n := NewStop(machine, Some(Scheduled), ZERO_TIME, None, Some(h.startsAt), Some(h.endsAt), Some(h.code));
      r := CreateDowntimeEvent(n);
    }

    method PlanEach(h: Header, machines: seq<string>)
      requires h.startsAt < h.endsAt
      modifies this`stops, this`assets
      ensures stops == old(stops) + PlanStops(h, machines) && assets == old(assets)
    {
      var i := 0;
      while i < |machines|
        invariant 0 <= i <= |machines|
        invariant stops == old(stops) + PlanStops(h, machines)[..i] && assets == old(assets)
      {
        var r := PlanStop(h, machines[i]);
        assert PlanStops(h, machines)[..i + 1] == PlanStops(h, machines)[..i] + [PlannedStop(h, machines[i])];
        i := i + 1;
      }
      assert PlanStops(h, machines)[..i] == PlanStops(h, machines);
    }

    method CreateShutdown(q: Request, now: int, stamp: string) returns (r: Result<string>)
      modifies this
      ensures var o := Plan(old(Tables()), q, now, stamp);
        Tables() == o.state && (if o.error.Some? then r == Err(o.error.value)
                                else r.Ok? && r.value !in Codes(old(headers)) && r.value in Codes(headers))
    {
      var plant := Trim(q.plant);
      if plant == "" || plant !in plants {
        return Err(BadInput);
      }
      var title := Trim(q.title);
      if title == "" || |title| > MAX_TITLE {
        return Err(BadInput);
      }
      if !WindowOk(q.startsAt, q.endsAt) {
        return Err(BadInput);
      }
      if q.endsAt < now {
        return Err(BadInput);
      }
      var machines := CheckedMachines(plant, q.machines, q.startsAt, q.endsAt, "");
      if machines.Err? {
        return Err(machines.error);
      }
      var code := NextShutdownCode(plant, stamp);
      var h := Header(code, plant, title, q.startsAt, q.endsAt, Planned, machines.value, None, None);
      headers := headers + [h];
      PlanEach(h, machines.value);
      assert headers[|headers| - 1].code == code;
      r := Ok(code);
    }

    method MovePlannedStops(code: string, start: int, end: int)
      modifies this`stops
      ensures stops == MoveStops(old(stops), code, start, end)
    {
      var i := 0;
      while i < |stops|
        invariant 0 <= i <= |stops| == |old(stops)|
        invariant forall k :: 0 <= k < i ==> stops[k] == MoveStops(old(stops), code, start, end)[k]
        invariant forall k :: i <= k < |stops| ==> stops[k] == old(stops)[k]
      {
        if stops[i].shutdown == Some(code) && stops[i].state == Scheduled {
          stops := stops[i := stops[i].(plannedStart := Some(start), plannedEnd := Some(end), startedAt := start)];
        }
        i := i + 1;
      }
    }

    /** The loop that drops planned stops; UpdateShutdown and CancelShutdown each have one. */
    method DropEach(code: string, on: Machines)
      modifies this`stops
      ensures stops == DropStops(old(stops), code, on)
    {
      var listed := stops;
      var i := 0;
      while i < |listed|
        invariant 0 <= i <= |listed| == |stops|
        invariant forall k :: 0 <= k < i ==> stops[k] == DropStops(listed, code, on)[k]
        invariant forall k :: i <= k < |listed| ==> stops[k] == listed[k]
      {
        var d := listed[i];
        if d.shutdown == Some(code) && d.state == Scheduled && on.Has(d.asset) {
          var r := CancelDowntimeEvent(i);
          assert stops[i] == DropStops(listed, code, on)[i];
        }
        i := i + 1;
      }
    }

    /** The loop that takes live jobs out of a shutdown. */
    method ReleaseEach(code: string, on: Machines)
      modifies this`orders
      ensures orders == Release(old(orders), code, on)
    {
      var listed := orders;
      var i := 0;
      while i < |listed|
        invariant 0 <= i <= |listed| == |orders|
        invariant forall k :: 0 <= k < i ==> orders[k] == Release(listed, code, on)[k]
        invariant forall k :: i <= k < |listed| ==> orders[k] == listed[k]
      {
        if listed[i].shutdown == Some(code) && IsLive(listed[i]) && on.Has(listed[i].asset) {
          orders := orders[i := orders[i].(shutdown := None)];
        }
        i := i + 1;
      }
    }

    /** The members of `a` missing from `b`, in order. */
    method Missing(a: seq<string>, b: seq<string>) returns (r: seq<string>)
      ensures r == Minus(a, b)
    {
      r := [];
      var i := 0;
      while i < |a|
        invariant 0 <= i <= |a| && r == Minus(a[..i], b)
      {
        assert a[..i + 1][..i] == a[..i];
        if a[i] !in b {
          r := r + [a[i]];
        }
        i := i + 1;
      }
      assert a[..i] == a;
    }

    /** The writes of UpdateShutdown, once everything is checked. */
    method SaveAmended(i: nat, sd: Header)
      requires i < |headers| && sd.code == headers[i].code && sd.startsAt < sd.endsAt
      modifies this
      ensures Tables() == Amended(old(Tables()), i, sd)
    {
      var was := headers[i];
      var moved := sd.startsAt != was.startsAt || sd.endsAt != was.endsAt;
      var added := Missing(sd.machines, was.machines);
      var removed := Missing(was.machines, sd.machines);
      headers := headers[i := sd];
      if moved {
        MovePlannedStops(sd.code, sd.startsAt, sd.endsAt);
      }
      DropEach(sd.code, Only(removed));
      PlanEach(sd, added);
      if |removed| > 0 {
        ReleaseEach(sd.code, Only(removed));
      } else {
        assert orders == Release(orders, sd.code, Only(removed));
      }
    }

    /** The fields of a patch but the machines, put on a header. */
    method PatchHeader(was: Header, p: Patch) returns (r: Result<Header>)
      ensures r == (if TitleOk(p) then Ok(Patched(was, p)) else Err(BadInput))
    {
      var sd := was;
      if p.title.Some? {
        var t := Trim(p.title.value);
        if t == "" || |t| > MAX_TITLE {
          return Err(BadInput);
        }
        sd := sd.(title := t);
      }
      if p.startsAt.Some? && p.startsAt.value != sd.startsAt {
        sd := sd.(startsAt := p.startsAt.value);
      }
      if p.endsAt.Some? && p.endsAt.value != sd.endsAt {
        sd := sd.(endsAt := p.endsAt.value);
      }
      r := Ok(sd);
    }

    method UpdateShutdown(code: string, p: Patch) returns (r: Result<()>)
      modifies this
      ensures var o := Amend(old(Tables()), code, p);
        Tables() == o.state && r == (if o.error.Some? then Err(o.error.value) else Ok(()))
    {
      var i := FindHeader(headers, code);
      if i.None? {
        return Err(NotFound);
      }
      if headers[i.value].phase != Planned {
        return Err(Conflict);
      }
      var patched := PatchHeader(headers[i.value], p);
      if patched.Err? {
        return Err(patched.error);
      }
      var sd := patched.value;
      if !WindowOk(sd.startsAt, sd.endsAt) {
        return Err(BadInput);
      }
      var machines := CheckedMachines(sd.plant, if p.machines.Some? then p.machines.value else sd.machines,
                                      sd.startsAt, sd.endsAt, code);
      if machines.Err? {
        return Err(machines.error);
      }
      SaveAmended(i.value, sd.(machines := machines.value));
      r := Ok(());
    }

    // -------------------------------------------------------------------------
    // Running it
    // -------------------------------------------------------------------------

    method StartShutdown(code: string, now: int) returns (r: Result<()>)
      modifies this`headers, this`stops, this`assets
      ensures var o := Begin(old(Tables()), code, now);
        Tables() == o.state && r == (if o.error.Some? then Err(o.error.value) else Ok(()))
    {
      var h := FindHeader(headers, code);
      if h.None? {
        return Err(NotFound);
      }
      if headers[h.value].phase != Planned {
        return Err(Conflict);
      }
      var listed := stops;
      var i := 0;
      while i < |listed|
        invariant 0 <= i <= |listed| == |stops| && headers == old(headers) && orders == old(orders)
        invariant forall k :: 0 <= k < i ==> stops[k] == StartStops(listed, code, now, bus)[k]
        invariant forall k :: i <= k < |listed| ==> stops[k] == listed[k]
        invariant assets == SetStatuses(old(assets), listed, code, Scheduled, Down, i)
      {
        if listed[i].shutdown == Some(code) && listed[i].state == Scheduled {
          var started := StartDowntimeEvent(i, now);
        }
        i := i + 1;
      }
      headers := headers[h.value := headers[h.value].(phase := InProgress, startedAt := Some(now))];
      r := Ok(());
    }

    method FinishShutdown(code: string, now: int) returns (r: Result<()>)
      modifies this`headers, this`stops, this`assets
      ensures var o := Conclude(old(Tables()), code, now);
        Tables() == o.state && r == (if o.error.Some? then Err(o.error.value) else Ok(()))
    {
      var h := FindHeader(headers, code);
      if h.None? {
        return Err(NotFound);
      }
      if headers[h.value].phase != InProgress {
        return Err(Conflict);
      }
      var listed := stops;
      var i := 0;
      while i < |listed|
        invariant 0 <= i <= |listed| == |stops| && headers == old(headers) && orders == old(orders)
        invariant forall k :: 0 <= k < i ==> stops[k] == EndStops(listed, code, now, bus)[k]
        invariant forall k :: i <= k < |listed| ==> stops[k] == listed[k]
        invariant assets == SetStatuses(old(assets), listed, code, Open, Idle, i)
      {
        if listed[i].shutdown == Some(code) && listed[i].state == Open {
          var ended := EndDowntimeEvent(i, now);
        }
        i := i + 1;
      }
      headers := headers[h.value := headers[h.value].(phase := Completed, finishedAt := Some(now))];
      r := Ok(());
    }

    method CancelShutdown(code: string) returns (r: Result<()>)
      modifies this
      ensures var o := CallOff(old(Tables()), code);
        Tables() == o.state && r == (if o.error.Some? then Err(o.error.value) else Ok(()))
    {
      var h := FindHeader(headers, code);
      if h.None? {
        return Err(NotFound);
      }
      if headers[h.value].phase != Planned {
        return Err(Conflict);
      }
      DropEach(code, All);
      ReleaseEach(code, All);
      headers := headers[h.value := headers[h.value].(phase := CalledOff)];
      r := Ok(());
    }

    // -------------------------------------------------------------------------
    // Jobs
    // -------------------------------------------------------------------------

    method Tag(h: Header, num: string) returns (error: Option<Error>)
      modifies this`orders
      ensures var o := Join(old(Tables()), h, num); Tables() == o.state && error == o.error
    {
      var k := FindOrder(orders, num);
      if k.None? {
        return Some(BadInput);
      }
      var wo := orders[k.value];
      if wo.asset !in h.machines {
        return Some(BadInput);
      }
      if !IsLive(wo) {
        return Some(BadInput);
      }
      if wo.shutdown.Some? && wo.shutdown.value != "" && wo.shutdown.value != h.code {
        return Some(Conflict);
      }
      var day := DayOf(h.startsAt);
      if wo.plannedDay.None? || wo.plannedDay.value < day {
        wo := wo.(plannedDay := Some(day));
      }
      orders := orders[k.value := wo.(shutdown := Some(h.code))];
      error := None;
    }

    method BringForward(h: Header, schedule: nat) returns (error: Option<Error>)
      modifies this`orders
      ensures var o := Bring(old(Tables()), h, schedule); Tables() == o.state && error == o.error
    {
      if schedule !in schedules {
        return Some(BadInput);
      }
      if schedules[schedule] !in h.machines {
        return Some(BadInput);
      }
      var k := OpenOrderFor(orders, schedule);
      var num := "";
      if k.Some? {
        num := orders[k.value].num;
      } else {
        num := NextNum(orders);
        orders := orders + [WorkOrder(num, schedules[schedule], Live("open"), Some(schedule), None, None)];
      }
      error := Tag(h, num);
    }

    method Untag(h: Header, num: string) returns (error: Option<Error>)
      modifies this`orders
      ensures var o := Leave(old(Tables()), h, num); Tables() == o.state && error == o.error
    {
      var k := FindOrder(orders, num);
      if k.None? {
        return Some(NotFound);
      }
      if orders[k.value].shutdown == Some(h.code) {
        orders := orders[k.value := orders[k.value].(shutdown := None)];
      }
      error := None;
    }

    method TagEach(h: Header, nums: seq<string>) returns (error: Option<Error>)
      modifies this`orders
      ensures var o := JoinAll(old(Tables()), h, nums); Tables() == o.state && error == o.error
    {
      ghost var all := JoinAll(Tables(), h, nums);
      var i := 0;
      assert nums[0..] == nums;
      while i < |nums|
        invariant 0 <= i <= |nums| && JoinAll(Tables(), h, nums[i..]) == all
      {
        assert nums[i..][0] == nums[i] && nums[i..][1..] == nums[i + 1..];
        error := Tag(h, Trim(nums[i]));
        if error.Some? {
          return;
        }
        i := i + 1;
      }
      assert nums[i..] == [];
      error := None;
    }

    method BringEach(h: Header, ids: seq<nat>) returns (error: Option<Error>)
      modifies this`orders
      ensures var o := BringAll(old(Tables()), h, ids); Tables() == o.state && error == o.error
    {
      ghost var all := BringAll(Tables(), h, ids);
      var i := 0;
      assert ids[0..] == ids;
      while i < |ids|
        invariant 0 <= i <= |ids| && BringAll(Tables(), h, ids[i..]) == all
      {
        assert ids[i..][0] == ids[i] && ids[i..][1..] == ids[i + 1..];
        error := BringForward(h, ids[i]);
        if error.Some? {
          return;
        }
        i := i + 1;
      }
      assert ids[i..] == [];
      error := None;
    }

    method UntagEach(h: Header, nums: seq<string>) returns (error: Option<Error>)
      modifies this`orders
      ensures var o := LeaveAll(old(Tables()), h, nums); Tables() == o.state && error == o.error
    {
      ghost var all := LeaveAll(Tables(), h, nums);
      var i := 0;
      assert nums[0..] == nums;
      while i < |nums|
        invariant 0 <= i <= |nums| && LeaveAll(Tables(), h, nums[i..]) == all
      {
        assert nums[i..][0] == nums[i] && nums[i..][1..] == nums[i + 1..];
        error := Untag(h, Trim(nums[i]));
        if error.Some? {
          return;
        }
        i := i + 1;
      }
      assert nums[i..] == [];
      error := None;
    }

    method SetShutdownJobs(code: string, j: Jobs) returns (r: Result<()>)
      modifies this`orders
      ensures var o := SetJobs(old(Tables()), code, j);
        Tables() == o.state && r == (if o.error.Some? then Err(o.error.value) else Ok(()))
    {
      var at := FindHeader(headers, code);
      if at.None? {
        return Err(NotFound);
      }
      var h := headers[at.value];
      if h.phase != Planned && h.phase != InProgress {
        return Err(Conflict);
      }
      var e := TagEach(h, j.add);
      if e.None? {
        e := BringEach(h, j.schedules);
      }
      if e.None? {
        e := UntagEach(h, j.remove);
      }
      r := if e.Some? then Err(e.value) else Ok(());
    }
  }

  lemma {:induction false} ResolveStaysErr(assets: map<string, Asset>, plant: string, tags: seq<string>, i: nat,
                                           n: nat, e: Error)
    requires i <= n <= |tags| && Resolve(assets, plant, tags, i) == Err(e)
    ensures Resolve(assets, plant, tags, n) == Err(e)
    decreases n
  {
    if i < n {
      ResolveStaysErr(assets, plant, tags, i, n - 1, e);
    }
  }
}
