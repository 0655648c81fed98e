/**
  What the operations on shutdowns accept, and what they then write, rule by rule
  (internal/store/shutdown.go, internal/store/register_delete.go): each in terms of
  the rows and the request alone.
 */
module ShutdownRules {
  import opened Wrappers
  import opened Text
  import opened Downtime
  import opened ShutdownModel
  import opened ShutdownHeaders
  import opened ShutdownSafety
  import opened DowntimeSafety

  const DAYS_60: int := 60 * 24 * 3600 * 1_000_000_000

  // ---------------------------------------------------------------------------
  // Machines
  // ---------------------------------------------------------------------------

  /** Tag `i` is not blank, and the first of its spelling, case aside. */
  ghost predicate FirstNamed(tags: seq<string>, i: nat) {
    && i < |tags| && Trim(tags[i]) != ""
    && forall j :: 0 <= j < i ==> Upper(Trim(tags[j])) != Upper(Trim(tags[i]))
  }

  /** `m` is as the first tag of its spelling writes it, among the first `n`. */
  ghost predicate Names(tags: seq<string>, n: nat, m: string) {
    exists i: nat :: i < n && FirstNamed(tags, i) && m == Trim(tags[i])
  }

  /** A machine the factory has and uses. */
  predicate InUseAt(assets: map<string, Asset>, plant: string, tag: string) {
    tag in assets && assets[tag].plant == plant && assets[tag].status != Retired
  }

  ghost predicate AllInUse(assets: map<string, Asset>, plant: string, tags: seq<string>, n: nat) {
    forall m :: Names(tags, n, m) ==> InUseAt(assets, plant, m)
  }

  lemma SeenBefore(tags: seq<string>, n: nat)
    requires n < |tags| && Trim(tags[n]) != ""
    ensures Upper(Trim(tags[n])) in SeenTags(tags[..n]) <==> !FirstNamed(tags, n)
  {
    if j :| 0 <= j < n && Upper(Trim(tags[j])) == Upper(Trim(tags[n])) {
      assert tags[..n][j] in tags[..n];
    }
  }

  lemma NamesOneMore(tags: seq<string>, n: nat, m: string)
    ensures Names(tags, n + 1, m) <==> Names(tags, n, m) || (FirstNamed(tags, n) && m == Trim(tags[n]))
  {
    if i: nat :| i < n + 1 && FirstNamed(tags, i) && m == Trim(tags[i]) {
      assert i < n ==> Names(tags, n, m);
    }
  }

  /** The tags are taken exactly when each machine they name is in use at the factory;
      and then exactly those are the machines. */
  lemma {:induction false} ResolvesExactly(assets: map<string, Asset>, plant: string, tags: seq<string>, n: nat)
    requires n <= |tags|
    ensures var r := Resolve(assets, plant, tags, n);
      && (r.Ok? <==> AllInUse(assets, plant, tags, n))
      && (if r.Err? then r.error == BadInput else forall m :: m in r.value <==> Names(tags, n, m))
    decreases n
  {
    if n > 0 {
      ResolvesExactly(assets, plant, tags, n - 1);
      if Trim(tags[n - 1]) != "" { SeenBefore(tags, n - 1); }
      forall m
        ensures Names(tags, n, m) <==> Names(tags, n - 1, m) || (FirstNamed(tags, n - 1) && m == Trim(tags[n - 1]))
      {
        NamesOneMore(tags, n - 1, m);
      }
      ResolvesOneMore(assets, plant, tags, n - 1);
    }
  }

  lemma ResolvesOneMore(assets: map<string, Asset>, plant: string, tags: seq<string>, n: nat)
    requires n < |tags|
    ensures var before, m := Resolve(assets, plant, tags, n), Trim(tags[n]);
      Resolve(assets, plant, tags, n + 1)
      == (if before.Err? || !FirstNamed(tags, n) then before
          else if InUseAt(assets, plant, m) then Ok(before.value + [m]) else Err(BadInput))
  {
    if Trim(tags[n]) != "" { SeenBefore(tags, n); }
  }

  /** And in the order in which they are first named. */
  lemma {:induction false} ResolvesInOrder(assets: map<string, Asset>, plant: string, tags: seq<string>, n: nat)
    returns (at: seq<nat>)
    requires n <= |tags| && Resolve(assets, plant, tags, n).Ok?
    ensures var out := Resolve(assets, plant, tags, n).value;
      && |at| == |out|
      && (forall i :: 0 <= i < |at| ==> at[i] < n && FirstNamed(tags, at[i]) && out[i] == Trim(tags[at[i]]))
      && (forall i, j :: 0 <= i < j < |at| ==> at[i] < at[j])
    decreases n
  {
    at := [];
    if n > 0 {
      at := ResolvesInOrder(assets, plant, tags, n - 1);
      ResolvesOneMore(assets, plant, tags, n - 1);
      if FirstNamed(tags, n - 1) { at := at + [n - 1]; }
    }
  }

  /** Another shutdown of the factory, planned or in progress, has one of the machines
      named, at a time when this one would. */
  ghost predicate Taken(headers: seq<Header>, plant: string, tags: seq<string>, start: int, end: int, self: string) {
    exists j: nat, m :: j < |headers| && Names(tags, |tags|, m) && TakenBy(headers[j], plant, m, start, end, self)
  }

  predicate TakenBy(o: Header, plant: string, machine: string, start: int, end: int, self: string) {
    && o.plant == plant && o.code != self && (o.phase == Planned || o.phase == InProgress)
    && machine in o.machines && o.startsAt < end && start < o.endsAt
  }

  lemma ClashesExactly(headers: seq<Header>, plant: string, tags: seq<string>, machines: seq<string>, start: int,
                       end: int, self: string)
    requires forall m :: m in machines <==> Names(tags, |tags|, m)
    ensures Clash(headers, plant, machines, start, end, self) <==> Taken(headers, plant, tags, start, end, self)
  {
    if j, k :| 0 <= j < |headers| && 0 <= k < |machines|
               && ClashAt(headers[j], plant, machines[k], start, end, self) {
      assert machines[k] in machines;
      assert TakenBy(headers[j], plant, machines[k], start, end, self);
    }
    if j: nat, m :| j < |headers| && Names(tags, |tags|, m) && TakenBy(headers[j], plant, m, start, end, self) {
      assert m in machines;
      var k :| 0 <= k < |machines| && machines[k] == m;
      assert ClashAt(headers[j], plant, machines[k], start, end, self);
    }
  }

  /** checkMachines: there is a tag, each is a machine in use there, and none is taken. */
  lemma ChecksExactly(s: State, plant: string, tags: seq<string>, start: int, end: int, self: string)
    ensures var r, inUse := CheckMachines(s, plant, tags, start, end, self), AllInUse(s.assets, plant, tags, |tags|);
      && (r.Ok? <==> tags != [] && inUse && !Taken(s.headers, plant, tags, start, end, self))
      && (if r.Err? then r.error == (if tags != [] && inUse then Conflict else BadInput)
          else forall m :: m in r.value <==> Names(tags, |tags|, m))
  {
    ResolvesExactly(s.assets, plant, tags, |tags|);
    var r := Resolve(s.assets, plant, tags, |tags|);
    if r.Ok? { ClashesExactly(s.headers, plant, tags, r.value, start, end, self); }
  }

  // ---------------------------------------------------------------------------
  // Planning and changing
  // ---------------------------------------------------------------------------

  /** A window with both ends given, of at most 60 days. */
  predicate WindowAllowed(start: int, end: int) {
    start != ZERO_TIME && end != ZERO_TIME && start < end <= start + DAYS_60
  }

  /** What a plan must say, but for its machines. */
  predicate PlanAllowed(s: State, q: Request, now: int) {
    && Trim(q.plant) != "" && Trim(q.plant) in s.plants && 1 <= |Trim(q.title)| <= 200
    && WindowAllowed(q.startsAt, q.endsAt) && q.endsAt >= now
  }

  /** A shutdown is planned exactly when its factory, title, window and machines are
      allowed; and it is then one more header, as asked, with nothing else changed but
      stops. Otherwise nothing changes, and only a machine taken is a conflict. */
  lemma PlansExactly(s: State, q: Request, now: int, stamp: string)
    ensures var o, plant := Plan(s, q, now, stamp), Trim(q.plant);
      var asked := PlanAllowed(s, q, now) && q.machines != [] && AllInUse(s.assets, plant, q.machines, |q.machines|);
      && (o.error.None? <==> asked && !Taken(s.headers, plant, q.machines, q.startsAt, q.endsAt, ""))
      && (if o.error.Some? then o.state == s && o.error.value == (if asked then Conflict else BadInput)
          else
            && |o.state.headers| == |s.headers| + 1 && o.state.headers[..|s.headers|] == s.headers
            && PlannedAs(o.state.headers[|s.headers|], q)
            && o.state == s.(headers := o.state.headers, stops := o.state.stops))
  {
    ChecksExactly(s, Trim(q.plant), q.machines, q.startsAt, q.endsAt, "");
  }

  ghost predicate PlannedAs(h: Header, q: Request) {
    && h.plant == Trim(q.plant) && h.title == Trim(q.title) && h.startsAt == q.startsAt && h.endsAt == q.endsAt
    && h.phase == Planned && h.startedAt == None && h.finishedAt == None
    && forall m :: m in h.machines <==> Names(q.machines, |q.machines|, m)
  }

  /** The codes of one factory for one day, tried in this order. */
  function Candidate(plant: string, stamp: string, k: nat): string {
    "SD-" + Upper(Trim(plant)) + "-" + stamp + (if k <= 1 then "" else "-" + Decimal(k))
  }

  ghost predicate CodeUsed(headers: seq<Header>, code: string) {
    exists h :: h in headers && h.code == code
  }

  /** Its code is the first of the factory's for the day that no shutdown has. */
  lemma CodedExactly(s: State, q: Request, now: int, stamp: string) returns (k: nat)
    requires Plan(s, q, now, stamp).error.None?
    ensures k >= 1 && !CodeUsed(s.headers, Candidate(q.plant, stamp, k))
    ensures forall j: nat :: 1 <= j < k ==> CodeUsed(s.headers, Candidate(q.plant, stamp, j))
    ensures Plan(s, q, now, stamp).state.headers[|s.headers|].code == Candidate(q.plant, stamp, k)
  {
    var base := BaseCode(Trim(q.plant), stamp);
    k := FreeFrom(Codes(s.headers), base, 1);
    FreeFromIsFirst(Codes(s.headers), base, 1);
    forall j: nat | 1 <= j <= k ensures Candidate(q.plant, stamp, j) == CodeAt(base, j) {}
    forall j: nat | 1 <= j < k ensures CodeUsed(s.headers, Candidate(q.plant, stamp, j)) {
      var i :| 0 <= i < |s.headers| && s.headers[i].code == CodeAt(base, j);
      assert s.headers[i] in s.headers;
    }
    forall h | h in s.headers ensures h.code != CodeAt(base, k) { assert h.code in Codes(s.headers); }
  }

  function Or<T>(given: Option<T>, kept: T): T {
    if given.Some? then given.value else kept
  }

  /** What a change must say of a planned shutdown, but for its machines. */
  predicate ChangeAllowed(h: Header, p: Patch) {
    && (p.title.Some? ==> 1 <= |Trim(p.title.value)| <= 200)
    && WindowAllowed(Or(p.startsAt, h.startsAt), Or(p.endsAt, h.endsAt))
  }

  /** The header as it was, but for what the change gives. */
  ghost predicate ChangedTo(was: Header, p: Patch, h: Header) {
    && h.code == was.code && h.plant == was.plant && h.phase == was.phase
    && h.startedAt == was.startedAt && h.finishedAt == was.finishedAt
    && h.title == (if p.title.Some? then Trim(p.title.value) else was.title)
    && h.startsAt == Or(p.startsAt, was.startsAt) && h.endsAt == Or(p.endsAt, was.endsAt)
    && var tags := Or(p.machines, was.machines);
       forall m :: m in h.machines <==> Names(tags, |tags|, m)
  }

  /** A shutdown is changed exactly when there is one with the code, it is planned, and
      title, window and machines are allowed; its header is then as it was but for what
      was given, and no other header, machine or factory changes. */
  lemma AmendsExactly(s: State, i: nat, p: Patch)
    requires CodesUnique(s.headers) && i < |s.headers|
    ensures var o, was := Amend(s, s.headers[i].code, p), s.headers[i];
      var tags, start, end := Or(p.machines, was.machines), Or(p.startsAt, was.startsAt), Or(p.endsAt, was.endsAt);
      var asked := ChangeAllowed(was, p) && tags != [] && AllInUse(s.assets, was.plant, tags, |tags|);
      && (o.error.None? <==>
            was.phase == Planned && asked && !Taken(s.headers, was.plant, tags, start, end, was.code))
      && (if o.error.Some?
          then o.state == s && o.error.value == (if was.phase == Planned && !asked then BadInput else Conflict)
          else
            && |o.state.headers| == |s.headers| && ChangedTo(was, p, o.state.headers[i])
            && o.state.headers == s.headers[i := o.state.headers[i]]
            && o.state == s.(headers := o.state.headers, stops := o.state.stops, orders := o.state.orders))
  {
    var was := s.headers[i];
    FindsHeader(s.headers, i);
    var h := Patched(was, p);
    ChecksExactly(s, was.plant, Or(p.machines, was.machines), h.startsAt, h.endsAt, was.code);
  }

  lemma FindsHeader(headers: seq<Header>, i: nat)
    requires CodesUnique(headers) && i < |headers|
    ensures FindHeader(headers, headers[i].code) == Some(i)
  {
    assert headers[i].code in Codes(headers);
    var j := FindHeader(headers, headers[i].code).value;
    assert headers[j].code == headers[i].code;
  }

  // ---------------------------------------------------------------------------
  // The stops of planned shutdowns
  // ---------------------------------------------------------------------------

  /** A stop agreed for the window of a shutdown on one of its machines. */
  function AgreedStop(h: Header, machine: string): Stop {
    Stop(machine, Scheduled, h.startsAt, None, Some(h.startsAt), Some(h.endsAt), Some(h.code), 0, 0)
  }

  /** Planning writes one such stop for each machine, behind the others. */
  lemma PlansStopsExactly(s: State, q: Request, now: int, stamp: string, m: nat)
    requires Plan(s, q, now, stamp).error.None?
    ensures var t := Plan(s, q, now, stamp).state;
      var h, n := t.headers[|s.headers|], |s.stops|;
      && |t.stops| == n + |h.machines| && t.stops[..n] == s.stops
      && (m < |h.machines| ==> t.stops[n + m] == AgreedStop(h, h.machines[m]))
  {
    var t := Plan(s, q, now, stamp).state;
    assert t.stops == s.stops + PlanStops(t.headers[|s.headers|], t.headers[|s.headers|].machines);
  }

  /** A stop after a change: if it is the shutdown's and has not begun, it has the new
      window, and is dropped when its machine is taken out. */
  function StopChanged(was: Header, h: Header, d: Stop): Stop {
    if d.shutdown != Some(was.code) || d.state != Scheduled then d
    else
      var moved := if h.startsAt == was.startsAt && h.endsAt == was.endsAt then d
                   else d.(startedAt := h.startsAt, plannedStart := Some(h.startsAt), plannedEnd := Some(h.endsAt));
      if d.asset in was.machines && d.asset !in h.machines then moved.(state := StopState.Cancelled) else moved
  }

  /** An order after a change: a live one in the shutdown leaves with its machine. */
  function OrderChanged(was: Header, h: Header, o: WorkOrder): WorkOrder {
    if o.shutdown == Some(was.code) && o.status.Live? && o.asset in was.machines && o.asset !in h.machines
    then o.(shutdown := None) else o
  }

  /** The stops behind the first `n` are those of the machines put in. */
  ghost predicate StopsPutIn(was: Header, h: Header, stops: seq<Stop>, n: nat) {
    && (forall k :: n <= k < |stops| ==> stops[k] == AgreedStop(h, stops[k].asset))
    && (forall m :: m in h.machines && m !in was.machines <==> exists k :: n <= k < |stops| && stops[k].asset == m)
  }

  /** A change does just that to every stop and order, and writes a stop for each machine
      put in; whatever state the tables are in. */
  lemma AmendsStopsExactly(s: State, i: nat, p: Patch)
    requires CodesUnique(s.headers) && i < |s.headers| && Amend(s, s.headers[i].code, p).error.None?
    ensures var t, was := Amend(s, s.headers[i].code, p).state, s.headers[i];
      && |t.headers| == |s.headers| && |t.stops| >= |s.stops| && |t.orders| == |s.orders|
      && (forall k :: 0 <= k < |s.stops| ==> t.stops[k] == StopChanged(was, t.headers[i], s.stops[k]))
      && StopsPutIn(was, t.headers[i], t.stops, |s.stops|)
      && (forall k :: 0 <= k < |s.orders| ==> t.orders[k] == OrderChanged(was, t.headers[i], s.orders[k]))
  {
    FindsHeader(s.headers, i);
    var t, was := Amend(s, s.headers[i].code, p).state, s.headers[i];
    var h := t.headers[i];
    var kept, added := Carried(was, h, s.stops), PlanStops(h, Minus(h.machines, was.machines));
    AmendedIsCarried(s, i, h);
    assert t.stops == kept + added;
    forall k | 0 <= k < |s.stops| ensures t.stops[k] == StopChanged(was, h, s.stops[k]) {
      CarriedExactly(was, h, s.stops, k);
    }
    PutInExactly(was, h, kept);
    forall k | 0 <= k < |s.orders| ensures t.orders[k] == OrderChanged(was, h, s.orders[k]) {
      ReleasedExactly(was, h, s.orders, k);
    }
  }

  lemma PutInExactly(was: Header, h: Header, kept: seq<Stop>)
    ensures StopsPutIn(was, h, kept + PlanStops(h, Minus(h.machines, was.machines)), |kept|)
  {
    var added, n := Minus(h.machines, was.machines), |kept|;
    var all := kept + PlanStops(h, added);
    forall m | m in added ensures exists k :: n <= k < |all| && all[k].asset == m {
      var a :| 0 <= a < |added| && added[a] == m;
      assert all[n + a].asset == m;
    }
    forall k | n <= k < |all| ensures all[k] == AgreedStop(h, all[k].asset) && all[k].asset in added {
      assert all[k] == PlanStops(h, added)[k - n];
    }
  }

  lemma ReleasedExactly(was: Header, h: Header, orders: seq<WorkOrder>, k: nat)
    requires k < |orders| && h.code == was.code
    ensures Release(orders, h.code, Machines.Only(Minus(was.machines, h.machines)))[k]
         == OrderChanged(was, h, orders[k])
  {}

  lemma CarriedExactly(was: Header, h: Header, stops: seq<Stop>, k: nat)
    requires k < |stops| && h.code == was.code
    ensures Carried(was, h, stops)[k] == StopChanged(was, h, stops[k])
  {}

  // ---------------------------------------------------------------------------
  // Running it
  // ---------------------------------------------------------------------------

  /** Only header `i` is written. */
  ghost predicate OneHeader(s: State, t: State, i: nat, h: Header) {
    i < |s.headers| && t.headers == s.headers[i := h]
  }

  /** A shutdown starts exactly when it is planned, finishes exactly when it is in
      progress, and is called off exactly when it is planned; its header then says so,
      and when, and keeps everything else. Otherwise nothing changes. */
  lemma PhasesExactly(s: State, i: nat, now: int)
    requires CodesUnique(s.headers) && i < |s.headers|
    ensures var h := s.headers[i];
      var b, c, x := Begin(s, h.code, now), Conclude(s, h.code, now), CallOff(s, h.code);
      && (if h.phase == Planned
          then b.error.None? && OneHeader(s, b.state, i, h.(phase := InProgress, startedAt := Some(now)))
          else b == Outcome(s, Some(Conflict)))
      && (if h.phase == InProgress
          then c.error.None? && OneHeader(s, c.state, i, h.(phase := Completed, finishedAt := Some(now)))
          else c == Outcome(s, Some(Conflict)))
      && (if h.phase == Planned then x.error.None? && OneHeader(s, x.state, i, h.(phase := CalledOff))
          else x == Outcome(s, Some(Conflict)))
  {
    FindsHeader(s.headers, i);
  }

  /** Starting and finishing leave every order alone; calling off takes out exactly the
      live orders in the shutdown, and leaves every machine alone. */
  lemma PhasesLeaveOrders(s: State, code: string, now: int, k: nat)
    requires k < |s.orders|
    ensures Begin(s, code, now).state.orders == Conclude(s, code, now).state.orders == s.orders
    ensures CallOff(s, code).state.assets == s.assets
    ensures CallOff(s, code).error.None? ==>
      var o, t := s.orders[k], CallOff(s, code).state.orders;
      |t| == |s.orders| && t[k] == (if o.shutdown == Some(code) && o.status.Live? then o.(shutdown := None) else o)
  {
    assert CallOff(s, code).error.None? ==> CallOff(s, code).state.orders == Release(s.orders, code, All);
  }

  /** Some stop of the shutdown, in that state, is on the machine. */
  ghost predicate HasStop(s: State, code: string, state: StopState, tag: string) {
    exists k :: 0 <= k < |s.stops| && s.stops[k].shutdown == Some(code) && s.stops[k].state == state
                && s.stops[k].asset == tag
  }

  /** Starting sets down exactly the machines of its scheduled stops, and finishing sets
      idle those of its open ones; calling off drops its scheduled stops and no other. */
  lemma PhasesMoveExactly(s: State, code: string, now: int, tag: string, k: nat)
    requires tag in s.assets && k < |s.stops|
    ensures var b, c, was := Begin(s, code, now), Conclude(s, code, now), s.assets[tag];
      && b.state.assets.Keys == c.state.assets.Keys == s.assets.Keys
      && (b.error.None? ==>
            b.state.assets[tag] == if HasStop(s, code, Scheduled, tag) then was.(status := Down) else was)
      && (c.error.None? ==>
            c.state.assets[tag] == if HasStop(s, code, Open, tag) then was.(status := Idle) else was)
    ensures CallOff(s, code).error.None? ==>
      var d, t := s.stops[k], CallOff(s, code).state.stops;
      && |t| == |s.stops|
      && t[k] == if d.shutdown == Some(code) && d.state == Scheduled then d.(state := StopState.Cancelled) else d
  {
    StatusesAreSet(s.assets, s.stops, code, Scheduled, Down, |s.stops|, tag);
    StatusesAreSet(s.assets, s.stops, code, Open, Idle, |s.stops|, tag);
    assert HasStop(s, code, Scheduled, tag) <==> Touched(s.stops, code, Scheduled, |s.stops|, tag);
    assert HasStop(s, code, Open, tag) <==> Touched(s.stops, code, Open, |s.stops|, tag);
    assert CallOff(s, code).error.None? ==> CallOff(s, code).state.stops == DropStops(s.stops, code, All);
  }

  // ---------------------------------------------------------------------------
  // Jobs
  // ---------------------------------------------------------------------------

  /** Order `k` is the one there with its number. */
  ghost predicate TheOne(orders: seq<WorkOrder>, k: nat) {
    && k < |orders| && orders[k].status != Removed
    && forall j :: 0 <= j < |orders| && j != k && orders[j].status != Removed ==> orders[j].num != orders[k].num
  }

  /** Nothing can be done to a shutdown there is not, and no job be set on one that is
      completed or called off. */
  lemma RefusesOthers(s: State, code: string, p: Patch, j: Jobs, now: int)
    ensures (forall i :: 0 <= i < |s.headers| ==> s.headers[i].code != code) ==>
      Amend(s, code, p) == Begin(s, code, now) == Conclude(s, code, now) == CallOff(s, code) == SetJobs(s, code, j)
      == Outcome(s, Some(NotFound))
    ensures CodesUnique(s.headers) ==>
      forall i :: 0 <= i < |s.headers| && s.headers[i].code == code && s.headers[i].phase in {Completed, CalledOff} ==>
        SetJobs(s, code, j) == Outcome(s, Some(Conflict))
  {
    if CodesUnique(s.headers) {
      forall i | 0 <= i < |s.headers| && s.headers[i].code == code && s.headers[i].phase in {Completed, CalledOff}
        ensures SetJobs(s, code, j) == Outcome(s, Some(Conflict))
      {
        FindsHeader(s.headers, i);
      }
    }
  }

  /** An order joins a shutdown exactly when it is live, on one of its machines, and in
      no other; it is then in it, and planned for the later of the day planned before
      and the first of the shutdown. */
  lemma JoinsExactly(s: State, h: Header, k: nat)
    requires TheOne(s.orders, k)
    ensures var o, w, first := Join(s, h, s.orders[k].num), s.orders[k], h.startsAt / (24 * 3600 * 1_000_000_000);
      var able := w.asset in h.machines && w.status.Live?;
      && (o.error.None? <==> able && (w.shutdown.None? || w.shutdown.value == "" || w.shutdown.value == h.code))
      && (if o.error.Some? then o.state == s && o.error.value == (if able then Conflict else BadInput)
          else
            var day := if w.plannedDay.Some? && w.plannedDay.value > first then w.plannedDay.value else first;
            o.state == s.(orders := s.orders[k := w.(shutdown := Some(h.code), plannedDay := Some(day))]))
  {
    var at := FindOrder(s.orders, s.orders[k].num);
    assert at == Some(k);
  }

  lemma LeavesExactly(s: State, h: Header, k: nat)
    requires TheOne(s.orders, k)
    ensures var w := s.orders[k];
      Leave(s, h, w.num)
      == Outcome(if w.shutdown == Some(h.code) then s.(orders := s.orders[k := w.(shutdown := None)]) else s, None)
  {
    var at := FindOrder(s.orders, s.orders[k].num);
    assert at == Some(k);
  }

  /** The live order of a schedule that was raised last, if any. */
  ghost predicate LastLive(orders: seq<WorkOrder>, id: nat, k: nat) {
    && k < |orders| && orders[k].status.Live? && orders[k].schedule == Some(id)
    && forall j :: k < j < |orders| && orders[j].status.Live? ==> orders[j].schedule != Some(id)
  }

  lemma {:induction false} OpenOrderIsLast(orders: seq<WorkOrder>, id: nat)
    ensures var r := OpenOrderFor(orders, id);
      if r.Some? then LastLive(orders, id, r.value)
      else forall j :: 0 <= j < |orders| && orders[j].status.Live? ==> orders[j].schedule != Some(id)
    decreases |orders|
  {
    if orders != [] { OpenOrderIsLast(orders[..|orders| - 1], id); }
  }

  /** Order `k` is there, and has the number `n`. */
  ghost predicate Numbered(orders: seq<WorkOrder>, k: nat, n: nat) {
    k < |orders| && orders[k].status != Removed && orders[k].num == "WO-" + Decimal(n)
  }

  /** The next number is one more than the greatest of those there, no other text counting
      for anything, or 2281 when there is no order. */
  lemma NumbersExactly(orders: seq<WorkOrder>) returns (n: nat)
    ensures NextNum(orders) == "WO-" + Decimal(n)
    ensures (forall k :: 0 <= k < |orders| ==> orders[k].status == Removed) ==> n == 2281
    ensures forall k: nat, m: nat :: Numbered(orders, k, m) ==> m < n
    ensures (exists k :: 0 <= k < |orders| && orders[k].status != Removed) && n > 1 ==>
              exists k: nat :: k < |orders| && orders[k].status != Removed && NumOf(orders[k].num) == n - 1
  {
    n := (if HasRows(orders) then MaxNum(orders) else FIRST_NUM) + 1;
    MaxIsThere(orders);
    forall k: nat, m: nat | Numbered(orders, k, m) ensures m < n { NumberReadsBack(m); }
  }

  lemma NumberReadsBack(n: nat)
    ensures NumOf("WO-" + Decimal(n)) == n
  {
    var num := "WO-" + Decimal(n);
    DecimalRoundTrip(n);
    assert num[3..] == Decimal(n) && num[..3] == NUM_PREFIX;
  }

  lemma {:induction false} MaxIsThere(orders: seq<WorkOrder>)
    ensures MaxNum(orders) > 0 ==>
              exists k: nat :: k < |orders| && orders[k].status != Removed && NumOf(orders[k].num) == MaxNum(orders)
    decreases |orders|
  {
    if orders != [] {
      var front := orders[..|orders| - 1];
      MaxIsThere(front);
      if MaxNum(orders) > 0 && MaxNum(orders) == MaxNum(front) {
        var k: nat :| k < |front| && front[k].status != Removed && NumOf(front[k].num) == MaxNum(front);
        assert orders[k] == front[k];
      }
    }
  }

  /** A schedule whose machine the shutdown has brings its last live order, or else an
      open one raised for its machine; any other is refused. */
  lemma BringsExactly(s: State, h: Header, id: nat)
    ensures id !in s.schedules || s.schedules[id] !in h.machines ==> Bring(s, h, id) == Outcome(s, Some(BadInput))
    ensures id in s.schedules && s.schedules[id] in h.machines ==>
      && (forall k: nat :: LastLive(s.orders, id, k) ==> Bring(s, h, id) == Join(s, h, s.orders[k].num))
      && ((forall k: nat :: !LastLive(s.orders, id, k)) ==>
            var raised := WorkOrder(NextNum(s.orders), s.schedules[id], Live("open"), Some(id), None, None);
            Bring(s, h, id) == Join(s.(orders := s.orders + [raised]), h, raised.num))
  {
    OpenOrderIsLast(s.orders, id);
  }

  /** A job to put in, a schedule to bring, or a job to take out. */
  datatype JobStep = PutIn(num: string) | BringIn(id: nat) | TakeOut(num: string)

  function Do(s: State, h: Header, step: JobStep): Outcome {
    match step
    case PutIn(num) => Join(s, h, Trim(num))
    case BringIn(id) => Bring(s, h, id)
    case TakeOut(num) => Leave(s, h, Trim(num))
  }

  /** One step after the other, up to the first that is refused; what was done stays. */
  function OneByOne(s: State, h: Header, steps: seq<JobStep>): Outcome
    decreases |steps|
  {
    if steps == [] then Outcome(s, None)
    else
      var o := Do(s, h, steps[0]);
      if o.error.Some? then o else OneByOne(o.state, h, steps[1..])
  }

  lemma {:induction false} OneByOneAppend(s: State, h: Header, a: seq<JobStep>, b: seq<JobStep>)
    ensures var o := OneByOne(s, h, a);
      OneByOne(s, h, a + b) == if o.error.Some? then o else OneByOne(o.state, h, b)
    decreases |a|
  {
    if a == [] {
      assert a + b == b;
    } else {
      assert (a + b)[1..] == a[1..] + b;
      OneByOneAppend(Do(s, h, a[0]).state, h, a[1..], b);
    }
  }

  function PutsIn(nums: seq<string>): (r: seq<JobStep>) {
    seq(|nums|, k requires 0 <= k < |nums| => PutIn(nums[k]))
  }

  function BringsIn(ids: seq<nat>): (r: seq<JobStep>) {
    seq(|ids|, k requires 0 <= k < |ids| => BringIn(ids[k]))
  }

  function TakesOut(nums: seq<string>): (r: seq<JobStep>) {
    seq(|nums|, k requires 0 <= k < |nums| => TakeOut(nums[k]))
  }

  lemma {:induction false} JoinsOneByOne(s: State, h: Header, nums: seq<string>)
    ensures JoinAll(s, h, nums) == OneByOne(s, h, PutsIn(nums))
    decreases |nums|
  {
    if nums != [] {
      assert PutsIn(nums)[1..] == PutsIn(nums[1..]);
      JoinsOneByOne(Join(s, h, Trim(nums[0])).state, h, nums[1..]);
    }
  }

  lemma {:induction false} BringsOneByOne(s: State, h: Header, ids: seq<nat>)
    ensures BringAll(s, h, ids) == OneByOne(s, h, BringsIn(ids))
    decreases |ids|
  {
    if ids != [] {
      assert BringsIn(ids)[1..] == BringsIn(ids[1..]);
      BringsOneByOne(Bring(s, h, ids[0]).state, h, ids[1..]);
    }
  }

  lemma {:induction false} LeavesOneByOne(s: State, h: Header, nums: seq<string>)
    ensures LeaveAll(s, h, nums) == OneByOne(s, h, TakesOut(nums))
    decreases |nums|
  {
    if nums != [] {
      assert TakesOut(nums)[1..] == TakesOut(nums[1..]);
      LeavesOneByOne(Leave(s, h, Trim(nums[0])).state, h, nums[1..]);
    }
  }

  lemma AllOneByOne(s: State, h: Header, j: Jobs)
    ensures var a := JoinAll(s, h, j.add);
      var b := if a.error.Some? then a else BringAll(a.state, h, j.schedules);
      var c := if b.error.Some? then b else LeaveAll(b.state, h, j.remove);
      OneByOne(s, h, PutsIn(j.add) + BringsIn(j.schedules) + TakesOut(j.remove)) == c
  {
    var a := JoinAll(s, h, j.add);
    var b := if a.error.Some? then a else BringAll(a.state, h, j.schedules);
    JoinsOneByOne(s, h, j.add);
    BringsOneByOne(a.state, h, j.schedules);
    LeavesOneByOne(b.state, h, j.remove);
    OneByOneAppend(s, h, PutsIn(j.add), BringsIn(j.schedules));
    OneByOneAppend(s, h, PutsIn(j.add) + BringsIn(j.schedules), TakesOut(j.remove));
  }

  /** The jobs of a shutdown that is planned or in progress are set one by one: first
      those to put in, then the schedules, then those to take out. */
  lemma SetsJobsExactly(s: State, i: nat, j: Jobs)
    requires CodesUnique(s.headers) && i < |s.headers| && s.headers[i].phase in {Planned, InProgress}
    ensures SetJobs(s, s.headers[i].code, j)
         == OneByOne(s, s.headers[i], PutsIn(j.add) + BringsIn(j.schedules) + TakesOut(j.remove))
  {
    FindsHeader(s.headers, i);
    AllOneByOne(s, s.headers[i], j);
  }

  // ---------------------------------------------------------------------------
  // Deletions
  // ---------------------------------------------------------------------------

  /** A factory is deleted exactly when it is named and there, has no machine, and
      nothing else holds it; then its headers are gone, and every other is left. */
  lemma DropsPlantExactly(s: State, name: string, held: bool)
    ensures var o, plant := DropPlant(s, name, held), Trim(name);
      var empty := forall tag :: tag in s.assets ==> s.assets[tag].plant != plant;
      && (o.error.None? <==> plant != "" && plant in s.plants && !held && empty)
      && (if o.error.Some?
          then o == Outcome(s, Some(if plant == "" then BadInput
                                    else if empty && plant !in s.plants then NotFound else Conflict))
          else
            && o.state == s.(headers := o.state.headers, plants := s.plants - {plant})
            && forall h :: h in o.state.headers <==> h in s.headers && h.plant != plant)
  {
    WithoutExactly(s.headers, Trim(name));
  }

  lemma {:induction false} WithoutExactly(headers: seq<Header>, plant: string)
    ensures forall h :: h in HeadersWithout(headers, plant) <==> h in headers && h.plant != plant
    decreases |headers|
  {
    if headers != [] {
      var front, last := headers[..|headers| - 1], headers[|headers| - 1];
      WithoutExactly(front, plant);
      assert headers == front + [last];
    }
  }

  /** An order is deleted exactly when it is there and nothing holds it; a machine,
      exactly when it is there, nothing else holds it, and no stop or order names it. */
  lemma DropsExactly(s: State, k: nat, tag: string, held: bool)
    requires TheOne(s.orders, k) && Trim(s.orders[k].num) == s.orders[k].num != "" && Trim(tag) == tag != ""
    ensures DropOrder(s, s.orders[k].num, held)
         == (if held then Outcome(s, Some(Conflict))
             else Outcome(s.(orders := s.orders[k := s.orders[k].(status := Removed)]), None))
    ensures (DropAsset(s, tag, held).error.None? <==>
               && tag in s.assets && !held
               && (forall d :: d in s.stops && d.state != Deleted ==> d.asset != tag)
               && forall o :: o in s.orders && o.status != Removed ==> o.asset != tag)
    ensures DropAsset(s, tag, held).state
         == (if DropAsset(s, tag, held).error.None? then s.(assets := s.assets - {tag}) else s)
  {
    assert FindOrder(s.orders, s.orders[k].num) == Some(k);
  }
}
