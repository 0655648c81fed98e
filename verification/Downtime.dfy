/**
  The life of one downtime record (internal/store/cmms.go): agreed before it
  happens, or written up as it does; started, ended or dropped. The events a
  record puts on the bus are counted on the record.
 */
module Downtime {
  import opened Wrappers

  /** The zero value of a time; a request that leaves a time out carries it. */
  const ZERO_TIME: int := -62_135_596_800_000_000_000

  /** Records are named by their place in the table; `Deleted` marks the place of
      one that was removed. */
  datatype StopState = Scheduled | Open | Closed | Cancelled | Deleted

  datatype Stop = Stop(asset: string, state: StopState, startedAt: int, endedAt: Option<int>,
                       plannedStart: Option<int>, plannedEnd: Option<int>, shutdown: Option<string>,
                       startedEvents: nat, endedEvents: nat)

  /** A request to record a stop; no state means open. */
  datatype NewStop = NewStop(asset: string, state: Option<StopState>, startedAt: int, endedAt: Option<int>,
                             plannedStart: Option<int>, plannedEnd: Option<int>, shutdown: Option<string>)

  function EventCount(bus: bool): nat { if bus then 1 else 0 }

  /** CreateDowntimeEvent. */
  function Create(n: NewStop, bus: bool): Result<Stop> {
    var state := if n.state.None? then Open else n.state.value;
    if state != Open && state != Scheduled then Err(BadInput)
    else if state == Scheduled then
      if n.plannedStart.None? then Err(BadInput)
      else if n.plannedEnd.Some? && n.plannedEnd.value <= n.plannedStart.value then Err(BadInput)
      else Ok(Stop(n.asset, Scheduled, n.plannedStart.value, None, n.plannedStart, n.plannedEnd, n.shutdown, 0, 0))
    else Ok(Stop(n.asset, Open, n.startedAt, n.endedAt, n.plannedStart, n.plannedEnd, n.shutdown, EventCount(bus), 0))
  }

  /** StartDowntimeEvent at clock time `now`. */
  function Start(d: Stop, now: int, bus: bool): Result<Stop> {
    if d.state == Deleted then Err(NotFound)
    else if d.state != Scheduled then Err(BadInput)
    else Ok(d.(state := Open, startedAt := now, startedEvents := d.startedEvents + EventCount(bus)))
  }

  /** CancelDowntimeEvent. */
  function Cancel(d: Stop): Result<Stop> {
    if d.state == Deleted then Err(NotFound)
    else if d.state != Scheduled then Err(BadInput)
    else Ok(d.(state := Cancelled))
  }

  /** EndDowntimeEvent at clock time `now`; a closed stop is ended again. */
  function End(d: Stop, now: int, bus: bool): Result<Stop> {
    if d.state == Deleted then Err(NotFound)
    else if d.state == Scheduled || d.state == Cancelled then Err(BadInput)
    else Ok(d.(state := Closed, endedAt := Some(now), endedEvents := d.endedEvents + EventCount(bus)))
  }

  /** DeleteDowntimeEvent: a record goes in whatever state it is. */
  function Delete(d: Stop): Result<Stop> {
    if d.state == Deleted then Err(NotFound) else Ok(d.(state := Deleted))
  }

  /** A shutdown moves the window of a stop that has not begun. */
  function Move(d: Stop, start: int, end: int): Stop {
    if d.state != Scheduled then d
    else d.(plannedStart := Some(start), plannedEnd := Some(end), startedAt := start)
  }

  // ---------------------------------------------------------------------------
  // What a record always says
  // ---------------------------------------------------------------------------

  predicate Begun(d: Stop) {
    d.state == Open || d.state == Closed
  }

  /** A stop that has not begun carries its planned start and no end; a closed
      one has an end; and the bus heard of the start exactly once if, and only
      if, the stop began. A record that was deleted says nothing. */
  ghost predicate Consistent(d: Stop, bus: bool) {
    d.state != Deleted ==>
      && (!Begun(d) ==> d.plannedStart == Some(d.startedAt) && d.endedAt == None)
      && (d.state == Closed ==> d.endedAt.Some?)
      && d.startedEvents == (if Begun(d) then EventCount(bus) else 0)
      && (d.endedEvents > 0 ==> bus && d.state == Closed)
  }

  /** The only ways a record changes: it may be moved while scheduled, started,
      dropped, ended, ended again, and deleted. What it is about never changes, and
      starting it keeps the agreed window, so a late start can still be seen. */
  ghost predicate Progress(a: Stop, b: Stop) {
    || b == a.(state := Deleted)
    || (a.state != Deleted && Proceeds(a, b))
  }

  ghost predicate Proceeds(a: Stop, b: Stop) {
    && b.asset == a.asset && b.shutdown == a.shutdown
    && (a.state == b.state
        || (a.state == Scheduled && (b.state == Open || b.state == Cancelled))
        || (a.state == Open && b.state == Closed))
    && (a.state == Cancelled ==> b == a)
    && (a.state == Open && b.state == Open ==> b == a)
    && (a.state != Scheduled ==> b.startedAt == a.startedAt)
    && (a.state != Scheduled || b.state == Open ==> b.plannedStart == a.plannedStart && b.plannedEnd == a.plannedEnd)
    && b.startedEvents >= a.startedEvents && b.endedEvents >= a.endedEvents
  }
}
