/**
  The transactional outbox (internal/outbox/outbox.go): rows are claimed under
  a lease of one second, delivered, and marked. Any number of publishers work
  on one table; each may crash, fail to deliver or fail to mark at any point, and
  a mark it gave up waiting for may still take effect.
  Every statement is one atomic step under the database clock.
 */
module Outbox {
  import opened Backoff

  const LEASE := SECOND
  const BATCH: nat := 32

  datatype Row = Row(event: string, attempts: nat, availableAt: int, dispatched: bool)

  /** What happened to a row: how often it reached the bus, when it was
      claimed, and when the table last moved its due time. */
  datatype Ledger = Ledger(deliveries: nat, claims: seq<int>, touched: int)

  /** What a publisher still has to do with a claimed row. `attempts` is the
      count it read when it claimed the row. */
  datatype Task = ToSend(id: nat, attempts: nat) | Sent(id: nat) | Failed(id: nat, attempts: nat)

  datatype System = System(now: int, rows: seq<Row>, ledgers: seq<Ledger>, work: seq<seq<Task>>)

  datatype Step =
    | Enqueue(event: string)
    | Pass(time: nat)
    /** `locked` are the rows other transactions hold, which a claim skips. */
    | Claim(p: nat, limit: int, locked: set<nat>)
    | Dispatch(p: nat, ok: bool)
    | Mark(p: nat, ok: bool)
    /** A mark is not answered in time. The publisher goes on; the statement is as one
        more publisher with nothing else to do, and may take effect or get lost. */
    | GiveUp(p: nat)
    | Crash(p: nat)

  // ---------------------------------------------------------------------------
  // The statements
  // ---------------------------------------------------------------------------

  predicate Due(r: Row, now: int) {
    !r.dispatched && r.availableAt <= now
  }

  function Limit(limit: int): nat {
    if limit <= 0 then BATCH else limit
  }

  /** The claims of one batch on the first `i` rows: due rows that are not
      locked, oldest first, at most `n`. */
  function Batch(rows: seq<Row>, now: int, locked: set<nat>, n: nat, i: nat): seq<Task>
    requires i <= |rows|
    decreases i, 0
  {
    if i == 0 then []
    else
      var t := Batch(rows, now, locked, n, i - 1);
      if Picked(rows, now, locked, n, i - 1) then t + [ToSend(i - 1, rows[i - 1].attempts + 1)] else t
  }

  predicate Picked(rows: seq<Row>, now: int, locked: set<nat>, n: nat, i: nat)
    requires i < |rows|
    decreases i, 1
  {
    Due(rows[i], now) && i !in locked && |Batch(rows, now, locked, n, i)| < n
  }

  function Leased(r: Row, now: int): Row {
    r.(attempts := r.attempts + 1, availableAt := now + LEASE)
  }

  /** The table once the batch has been taken from the first `i` rows. */
  function ClaimRows(rows: seq<Row>, now: int, locked: set<nat>, n: nat, i: nat): (r: seq<Row>)
    ensures |r| == |rows|
  {
    seq(|rows|, k requires 0 <= k < |rows| =>
      if k < i && Picked(rows, now, locked, n, k) then Leased(rows[k], now) else rows[k])
  }

  /** The outbox table as the program uses it. */
  class Table {
    var rows: seq<Row>

    constructor ()
      ensures rows == []
    {
      rows := [];
    }

    method Append(event: string, now: int)
      modifies this
      ensures rows == old(rows) + [Row(event, 0, now, false)]
    {
      rows := rows + [Row(event, 0, now, false)];
    }

    /** ClaimBatch: lease the oldest due rows that no other transaction holds. */
    method ClaimBatch(limit: int, now: int, locked: set<nat>) returns (out: seq<Task>)
      modifies this
      ensures rows == ClaimRows(old(rows), now, locked, Limit(limit), |old(rows)|)
      ensures out == Batch(old(rows), now, locked, Limit(limit), |old(rows)|)
    {
      out := [];
      var n := Limit(limit);
      var i := 0;
      ghost var was := rows;
      while i < |rows|
        invariant 0 <= i <= |was| && |rows| == |was|
        invariant rows == ClaimRows(was, now, locked, n, i) && out == Batch(was, now, locked, n, i)
      {
        assert rows[i] == was[i];
        ghost var next := ClaimRows(was, now, locked, n, i + 1);
        if |out| < n && Due(rows[i], now) && i !in locked {
          out := out + [ToSend(i, rows[i].attempts + 1)];
          rows := rows[i := Leased(rows[i], now)];
        }
        assert rows == next;
        i := i + 1;
      }
    }

    method MarkDispatched(id: nat)
      modifies this
      ensures rows == (if id < |old(rows)| then old(rows)[id := old(rows)[id].(dispatched := true)] else old(rows))
    {
      if id < |rows| {
        rows := rows[id := rows[id].(dispatched := true)];
      }
    }

    method MarkFailed(id: nat, retryDelay: int, now: int)
      modifies this
      ensures var due := now + Milliseconds(retryDelay) * MILLISECOND;
        rows == (if id < |old(rows)| then old(rows)[id := old(rows)[id].(availableAt := due)] else old(rows))
    {
      if id < |rows| {
        rows := rows[id := rows[id].(availableAt := now + Milliseconds(retryDelay) * MILLISECOND)];
      }
    }
  }

  // ---------------------------------------------------------------------------
  // All interleavings
  // ---------------------------------------------------------------------------

  /** A new table and `n` idle publishers. */
  function Init(now: int, n: nat): System {
    System(now, [], [], seq(n, _ => []))
  }

  function Busy(s: System, p: nat): bool {
    p < |s.work| && s.work[p] != []
  }

  function Charge(l: Ledger, now: int): Ledger {
    l.(claims := l.claims + [now], touched := now)
  }

  function ClaimLedgers(ls: seq<Ledger>, rows: seq<Row>, now: int, locked: set<nat>, n: nat): (r: seq<Ledger>)
    ensures |r| == |ls|
  {
    seq(|ls|, k requires 0 <= k < |ls| =>
      if k < |rows| && Picked(rows, now, locked, n, k) then Charge(ls[k], now) else ls[k])
  }

  /** One statement, one delivery attempt or one crash. A step that cannot
      happen changes nothing. */
  function Next(s: System, step: Step): System {
    match step
    case Enqueue(e) =>
      s.(rows := s.rows + [Row(e, 0, s.now, false)], ledgers := s.ledgers + [Ledger(0, [], s.now)])
    case Pass(t) => s.(now := s.now + t)
    case Claim(p, limit, locked) =>
      if p >= |s.work| || s.work[p] != [] then s
      else
        s.(rows := ClaimRows(s.rows, s.now, locked, Limit(limit), |s.rows|),
           ledgers := ClaimLedgers(s.ledgers, s.rows, s.now, locked, Limit(limit)),
           work := s.work[p := Batch(s.rows, s.now, locked, Limit(limit), |s.rows|)])
    case Dispatch(p, ok) =>
      if !Busy(s, p) || !s.work[p][0].ToSend? then s
      else
        var t := s.work[p][0];
        var s' := s.(work := s.work[p := [if ok then Sent(t.id) else Failed(t.id, t.attempts)] + s.work[p][1..]]);
        if !ok || t.id >= |s.ledgers| then s'
        else s'.(ledgers := s.ledgers[t.id := s.ledgers[t.id].(deliveries := s.ledgers[t.id].deliveries + 1)])
    case Mark(p, ok) =>
      if !Busy(s, p) || s.work[p][0].ToSend? then s
      else
        var t := s.work[p][0];
        var s' := s.(work := s.work[p := s.work[p][1..]]);
        if !ok || t.id >= |s.rows| || t.id >= |s.ledgers| then s'
        else if t.Sent? then s'.(rows := s.rows[t.id := s.rows[t.id].(dispatched := true)])
        else s'.(rows := s.rows[t.id := s.rows[t.id].(availableAt := s.now + RetryDelay(t.attempts))],
                 ledgers := s.ledgers[t.id := s.ledgers[t.id].(touched := s.now)])
    case GiveUp(p) =>
      if !Busy(s, p) || s.work[p][0].ToSend? then s
      else s.(work := s.work[p := s.work[p][1..]] + [[s.work[p][0]]])
    case Crash(p) =>
      if p < |s.work| then s.(work := s.work[p := []]) else s
  }

  function Run(s: System, steps: seq<Step>): System
    decreases |steps|
  {
    if steps == [] then s else Next(Run(s, steps[..|steps| - 1]), steps[|steps| - 1])
  }

  /** Claims of row `i` still to be delivered by this publisher. */
  ghost function Pending(tasks: seq<Task>, i: nat): nat {
    if tasks == [] then 0
    else (if tasks[0].ToSend? && tasks[0].id == i then 1 else 0) + Pending(tasks[1..], i)
  }

  ghost function Outstanding(work: seq<seq<Task>>, i: nat): nat {
    if work == [] then 0 else Pending(work[0], i) + Outstanding(work[1..], i)
  }

  ghost predicate RowOk(now: int, r: Row, l: Ledger, outstanding: nat) {
    && l.deliveries + outstanding <= r.attempts == |l.claims|
    && (r.dispatched ==> l.deliveries >= 1)
    && l.touched <= now && r.availableAt <= l.touched + MAX_BACKOFF
    && (forall j :: 0 <= j < |l.claims| ==> l.claims[j] <= now)
    && (0 < r.attempts <= 33 ==> r.availableAt >= l.claims[r.attempts - 1] + LEASE)
    && (forall j :: 0 < j < |l.claims| && j <= 33 ==> l.claims[j] >= l.claims[j - 1] + LEASE)
  }

  ghost predicate TaskOk(rows: seq<Row>, ledgers: seq<Ledger>, t: Task) {
    && t.id < |rows| && t.id < |ledgers|
    && (t.Sent? ==> ledgers[t.id].deliveries >= 1)
    && (!t.Sent? ==> 1 <= t.attempts <= rows[t.id].attempts)
  }

  ghost predicate Inv(s: System) {
    && |s.rows| == |s.ledgers|
    && (forall i :: 0 <= i < |s.rows| ==> RowOk(s.now, s.rows[i], s.ledgers[i], Outstanding(s.work, i)))
    && (forall p, x :: 0 <= p < |s.work| && 0 <= x < |s.work[p]| ==> TaskOk(s.rows, s.ledgers, s.work[p][x]))
  }

  lemma {:induction false} OutstandingUpdate(work: seq<seq<Task>>, p: nat, w: seq<Task>, i: nat)
    requires p < |work|
    ensures Outstanding(work[p := w], i) + Pending(work[p], i) == Outstanding(work, i) + Pending(w, i)
    decreases |work|
  {
    if p == 0 {
      assert work[p := w][1..] == work[1..];
    } else {
      assert work[p := w][1..] == work[1..][p - 1 := w];
      OutstandingUpdate(work[1..], p - 1, w, i);
    }
  }

  lemma {:induction false} PendingAppend(tasks: seq<Task>, t: Task, i: nat)
    ensures Pending(tasks + [t], i) == Pending(tasks, i) + Pending([t], i)
    decreases |tasks|
  {
    if tasks == [] {
      assert [] + [t] == [t];
    } else {
      PendingAppend(tasks[1..], t, i);
      assert (tasks + [t])[1..] == tasks[1..] + [t];
    }
  }

  /** A batch holds one task for each row it picks, and nothing else. */
  lemma {:induction false} BatchTasks(rows: seq<Row>, now: int, locked: set<nat>, n: nat, i: nat, k: nat)
    requires i <= |rows|
    ensures Pending(Batch(rows, now, locked, n, i), k) == (if k < i && Picked(rows, now, locked, n, k) then 1 else 0)
    ensures |Batch(rows, now, locked, n, i)| <= n
    ensures forall t :: t in Batch(rows, now, locked, n, i) ==>
              t.ToSend? && t.id < i && Picked(rows, now, locked, n, t.id) && t.attempts == rows[t.id].attempts + 1
    decreases i
  {
    if i > 0 {
      BatchTasks(rows, now, locked, n, i - 1, k);
      PendingAppend(Batch(rows, now, locked, n, i - 1), ToSend(i - 1, rows[i - 1].attempts + 1), k);
    }
  }

  /** How many of the first `i` rows could be claimed: undispatched, due and not locked. */
  function FreeBefore(rows: seq<Row>, now: int, locked: set<nat>, i: nat): nat
    requires i <= |rows|
  {
    if i == 0 then 0
    else FreeBefore(rows, now, locked, i - 1) + (if FreeAt(rows, now, locked, i - 1) then 1 else 0)
  }

  predicate FreeAt(rows: seq<Row>, now: int, locked: set<nat>, i: nat)
    requires i < |rows|
  {
    !rows[i].dispatched && rows[i].availableAt <= now && i !in locked
  }

  lemma {:induction false} BatchCounts(rows: seq<Row>, now: int, locked: set<nat>, n: nat, i: nat)
    requires i <= |rows|
    ensures var free := FreeBefore(rows, now, locked, i);
      |Batch(rows, now, locked, n, i)| == if free < n then free else n
    decreases i
  {
    if i > 0 { BatchCounts(rows, now, locked, n, i - 1); }
  }

  /** Row `k` is claimed by a batch of at most `limit`, or 32 if that is no number of rows. */
  predicate ClaimedAt(rows: seq<Row>, now: int, locked: set<nat>, limit: int, k: nat)
    requires k < |rows|
  {
    FreeAt(rows, now, locked, k) && FreeBefore(rows, now, locked, k) < (if limit <= 0 then 32 else limit)
  }

  /** A claim takes exactly the first rows it could: each gets one attempt more and is
      due again in a second, and is for the publisher to deliver under that attempt. */
  lemma ClaimsExactly(s: System, p: nat, limit: int, locked: set<nat>, k: nat)
    requires p < |s.work| && s.work[p] == [] && k < |s.rows|
    ensures var s', r := Next(s, Claim(p, limit, locked)), s.rows[k];
      && |s'.rows| == |s.rows| && s'.now == s.now
      && s'.rows[k] == (if ClaimedAt(s.rows, s.now, locked, limit, k)
                        then Row(r.event, r.attempts + 1, s.now + 1_000_000_000, false) else r)
      && s'.work == s.work[p := s'.work[p]]
      && (ToSend(k, r.attempts + 1) in s'.work[p] <==> ClaimedAt(s.rows, s.now, locked, limit, k))
      && (forall t :: t in s'.work[p] ==> t.ToSend? && t.id < |s.rows| && t.attempts == s.rows[t.id].attempts + 1)
  {
    BatchCounts(s.rows, s.now, locked, Limit(limit), k);
    BatchHolds(s.rows, s.now, locked, Limit(limit), |s.rows|, k);
    BatchTasks(s.rows, s.now, locked, Limit(limit), |s.rows|, k);
  }

  lemma {:induction false} BatchHolds(rows: seq<Row>, now: int, locked: set<nat>, n: nat, i: nat, k: nat)
    requires k < i <= |rows|
    ensures ToSend(k, rows[k].attempts + 1) in Batch(rows, now, locked, n, i) <==> Picked(rows, now, locked, n, k)
    decreases i
  {
    BatchTasks(rows, now, locked, n, i - 1, k);
    if k < i - 1 { BatchHolds(rows, now, locked, n, i - 1, k); }
  }

  lemma LeaseKeepsRowOk(now: int, r: Row, l: Ledger, outstanding: nat)
    requires RowOk(now, r, l, outstanding) && Due(r, now)
    ensures RowOk(now, Leased(r, now), Charge(l, now), outstanding + 1)
  {
    var c := Charge(l, now).claims;
    forall j | 0 < j < |c| && j <= 33 ensures c[j] >= c[j - 1] + LEASE {
      if j < |l.claims| { assert l.claims[j] >= l.claims[j - 1] + LEASE; }
    }
  }

  lemma ClaimKeepsInv(s: System, p: nat, limit: int, locked: set<nat>)
    requires Inv(s) && p < |s.work| && s.work[p] == []
    ensures Inv(Next(s, Claim(p, limit, locked)))
  {
    var n, s' := Limit(limit), Next(s, Claim(p, limit, locked));
    var w := Batch(s.rows, s.now, locked, n, |s.rows|);
    forall i | 0 <= i < |s.rows| ensures RowOk(s'.now, s'.rows[i], s'.ledgers[i], Outstanding(s'.work, i)) {
      OutstandingUpdate(s.work, p, w, i);
      BatchTasks(s.rows, s.now, locked, n, |s.rows|, i);
      if Picked(s.rows, s.now, locked, n, i) {
        LeaseKeepsRowOk(s.now, s.rows[i], s.ledgers[i], Outstanding(s.work, i));
      }
    }
    BatchTasks(s.rows, s.now, locked, n, |s.rows|, 0);
    forall q, x | 0 <= q < |s'.work| && 0 <= x < |s'.work[q]| ensures TaskOk(s'.rows, s'.ledgers, s'.work[q][x]) {
      if q != p {
        assert TaskOk(s.rows, s.ledgers, s.work[q][x]);
      } else {
        assert w[x] in w;
      }
    }
  }

  lemma DispatchKeepsInv(s: System, p: nat, ok: bool)
    requires Inv(s)
    ensures Inv(Next(s, Dispatch(p, ok)))
  {
    if Busy(s, p) && s.work[p][0].ToSend? {
      var s' := Next(s, Dispatch(p, ok));
      var t, w := s.work[p][0], s'.work[p];
      assert TaskOk(s.rows, s.ledgers, t);
      assert w[1..] == s.work[p][1..];
      forall i | 0 <= i < |s.rows| ensures RowOk(s'.now, s'.rows[i], s'.ledgers[i], Outstanding(s'.work, i)) {
        OutstandingUpdate(s.work, p, w, i);
        assert RowOk(s.now, s.rows[i], s.ledgers[i], Outstanding(s.work, i));
      }
      forall q, x | 0 <= q < |s'.work| && 0 <= x < |s'.work[q]| ensures TaskOk(s'.rows, s'.ledgers, s'.work[q][x]) {
        assert TaskOk(s.rows, s.ledgers, s.work[q][x]);
      }
    }
  }

  lemma MarkKeepsTasks(s: System, p: nat, ok: bool)
    requires Inv(s) && Busy(s, p) && !s.work[p][0].ToSend?
    ensures var s' := Next(s, Mark(p, ok));
      forall q, x :: 0 <= q < |s'.work| && 0 <= x < |s'.work[q]| ==> TaskOk(s'.rows, s'.ledgers, s'.work[q][x])
  {
    var s' := Next(s, Mark(p, ok));
    assert TaskOk(s.rows, s.ledgers, s.work[p][0]);
    assert forall i :: 0 <= i < |s.rows| ==> s'.rows[i].attempts == s.rows[i].attempts;
    forall q, x | 0 <= q < |s'.work| && 0 <= x < |s'.work[q]| ensures TaskOk(s'.rows, s'.ledgers, s'.work[q][x]) {
      assert TaskOk(s.rows, s.ledgers, s.work[q][if q == p then x + 1 else x]);
    }
  }

  lemma MarkKeepsInv(s: System, p: nat, ok: bool)
    requires Inv(s)
    ensures Inv(Next(s, Mark(p, ok)))
  {
    if Busy(s, p) && !s.work[p][0].ToSend? {
      var s' := Next(s, Mark(p, ok));
      var t := s.work[p][0];
      assert TaskOk(s.rows, s.ledgers, t);
      if t.Failed? { RetryDelayBounds(t.attempts); }
      forall i | 0 <= i < |s.rows| ensures RowOk(s'.now, s'.rows[i], s'.ledgers[i], Outstanding(s'.work, i)) {
        OutstandingUpdate(s.work, p, s.work[p][1..], i);
        assert RowOk(s.now, s.rows[i], s.ledgers[i], Outstanding(s.work, i));
      }
      MarkKeepsTasks(s, p, ok);
    }
  }

  lemma {:induction false} OutstandingAppend(work: seq<seq<Task>>, w: seq<Task>, i: nat)
    ensures Outstanding(work + [w], i) == Outstanding(work, i) + Pending(w, i)
    decreases |work|
  {
    if work == [] {
      assert [] + [w] == [w];
    } else {
      OutstandingAppend(work[1..], w, i);
      assert (work + [w])[1..] == work[1..] + [w];
    }
  }

  lemma GiveUpKeepsInv(s: System, p: nat)
    requires Inv(s)
    ensures Inv(Next(s, GiveUp(p)))
  {
    if Busy(s, p) && !s.work[p][0].ToSend? {
      var s' := Next(s, GiveUp(p));
      var t, rest := s.work[p][0], s.work[p := s.work[p][1..]];
      forall i | 0 <= i < |s.rows| ensures RowOk(s.now, s.rows[i], s.ledgers[i], Outstanding(s'.work, i)) {
        OutstandingUpdate(s.work, p, s.work[p][1..], i);
        OutstandingAppend(rest, [t], i);
        assert RowOk(s.now, s.rows[i], s.ledgers[i], Outstanding(s.work, i));
      }
      forall q, x | 0 <= q < |s'.work| && 0 <= x < |s'.work[q]| ensures TaskOk(s.rows, s.ledgers, s'.work[q][x]) {
        if q == |s.work| {
          assert s'.work[q][x] == s.work[p][0];
        } else {
          assert s'.work[q][x] == s.work[q][if q == p then x + 1 else x];
        }
      }
    }
  }

  lemma StepKeepsInv(s: System, step: Step)
    requires Inv(s)
    ensures Inv(Next(s, step))
  {
    match step
    case Claim(p, limit, locked) =>
      if p < |s.work| && s.work[p] == [] { ClaimKeepsInv(s, p, limit, locked); }
    case Dispatch(p, ok) => DispatchKeepsInv(s, p, ok);
    case Mark(p, ok) => MarkKeepsInv(s, p, ok);
    case GiveUp(p) => GiveUpKeepsInv(s, p);
    case Crash(p) =>
      if p < |s.work| {
        forall i | 0 <= i < |s.rows|
          ensures RowOk(s.now, s.rows[i], s.ledgers[i], Outstanding(s.work[p := []], i))
        {
          OutstandingUpdate(s.work, p, [], i);
          assert RowOk(s.now, s.rows[i], s.ledgers[i], Outstanding(s.work, i));
        }
      }
    case Pass(t) =>
      forall i | 0 <= i < |s.rows|
        ensures RowOk(s.now + t, s.rows[i], s.ledgers[i], Outstanding(s.work, i))
      {
        assert RowOk(s.now, s.rows[i], s.ledgers[i], Outstanding(s.work, i));
      }
    case Enqueue(e) =>
      var n := |s.rows|;
      NobodyHolds(s.work, s.rows, s.ledgers, n);
      var s' := Next(s, step);
      forall i | 0 <= i < |s'.rows| ensures RowOk(s'.now, s'.rows[i], s'.ledgers[i], Outstanding(s'.work, i)) {
        if i < n { assert RowOk(s.now, s.rows[i], s.ledgers[i], Outstanding(s.work, i)); }
      }
      forall q, x | 0 <= q < |s'.work| && 0 <= x < |s'.work[q]| ensures TaskOk(s'.rows, s'.ledgers, s'.work[q][x]) {
        assert TaskOk(s.rows, s.ledgers, s.work[q][x]);
      }
  }

  /** No task names a row that does not exist yet. */
  lemma {:induction false} NobodyHolds(work: seq<seq<Task>>, rows: seq<Row>, ledgers: seq<Ledger>, n: nat)
    requires forall p, x :: 0 <= p < |work| && 0 <= x < |work[p]| ==> TaskOk(rows, ledgers, work[p][x])
    requires n >= |rows|
    ensures Outstanding(work, n) == 0
    decreases |work|
  {
    if work != [] {
      forall x | 0 <= x < |work[0]| ensures work[0][x].id < n {
        assert TaskOk(rows, ledgers, work[0][x]);
      }
      NotPending(work[0], n);
      forall p, x | 0 <= p < |work[1..]| && 0 <= x < |work[1..][p]| ensures TaskOk(rows, ledgers, work[1..][p][x]) {
        assert TaskOk(rows, ledgers, work[p + 1][x]);
      }
      NobodyHolds(work[1..], rows, ledgers, n);
    }
  }

  lemma {:induction false} NotPending(tasks: seq<Task>, n: nat)
    requires forall x :: 0 <= x < |tasks| ==> tasks[x].id != n
    ensures Pending(tasks, n) == 0
    decreases |tasks|
  {
    if tasks != [] {
      NotPending(tasks[1..], n);
    }
  }

  lemma {:induction false} RunKeepsInv(s: System, steps: seq<Step>)
    requires Inv(s)
    ensures Inv(Run(s, steps))
    decreases |steps|
  {
    if steps != [] {
      RunKeepsInv(s, steps[..|steps| - 1]);
      StepKeepsInv(Run(s, steps[..|steps| - 1]), steps[|steps| - 1]);
    }
  }

  lemma {:induction false} NoWorkAtFirst(work: seq<seq<Task>>, i: nat)
    requires forall p :: 0 <= p < |work| ==> work[p] == []
    ensures Outstanding(work, i) == 0
    decreases |work|
  {
    if work != [] {
      NoWorkAtFirst(work[1..], i);
    }
  }

  ghost predicate Reachable(s: System) {
    exists now: int, n: nat, steps: seq<Step> :: s == Run(Init(now, n), steps)
  }

  lemma ReachableIsSafe(s: System)
    requires Reachable(s)
    ensures Inv(s)
  {
    var now: int, n: nat, steps: seq<Step> :| s == Run(Init(now, n), steps);
    RunKeepsInv(Init(now, n), steps);
  }

  // ---------------------------------------------------------------------------
  // What the outbox promises
  // ---------------------------------------------------------------------------

  /** At least once, and bounded: in every reachable state a dispatched row has
      been delivered, no row was delivered more often than it was claimed, and
      a row not dispatched is due again within five minutes of the last time
      the table moved it. */
  lemma AtLeastOnce(s: System, i: nat)
    requires Reachable(s) && i < |s.rows| && i < |s.ledgers|
    ensures s.rows[i].dispatched ==> s.ledgers[i].deliveries >= 1
    ensures s.ledgers[i].deliveries <= s.rows[i].attempts == |s.ledgers[i].claims|
    ensures !s.rows[i].dispatched ==> Due(s.rows[i], s.ledgers[i].touched + MAX_BACKOFF)
  {
    ReachableIsSafe(s);
    assert RowOk(s.now, s.rows[i], s.ledgers[i], Outstanding(s.work, i));
  }

  /** The first 34 claims of a row are at least a second apart, however many
      publishers race for it and however stale their failures are. */
  lemma ClaimsAreSpaced(s: System, i: nat, j: nat)
    requires Reachable(s) && i < |s.rows| && i < |s.ledgers|
    requires 0 < j < |s.ledgers[i].claims| && j <= 33
    ensures s.ledgers[i].claims[j] - s.ledgers[i].claims[j - 1] >= SECOND
  {
    ReachableIsSafe(s);
    assert RowOk(s.now, s.rows[i], s.ledgers[i], Outstanding(s.work, i));
  }

  /** A row told of a delivery under attempt `a`: one that reached the bus is dispatched,
      and one that did not is due after the wait of that attempt. */
  ghost predicate Told(r: Row, r': Row, a: nat, ok: bool, now: int) {
    && r'.event == r.event && r'.attempts == r.attempts
    && (if ok then r'.dispatched && r'.availableAt == r.availableAt
        else
          && r'.dispatched == r.dispatched
          && (if a <= 33 then r'.availableAt == now + Wait(a)
              else if a in {37, 41, 42, 45, 47, 50, 51, 53} then r'.availableAt == now + 300_000_000_000
              else r'.availableAt <= now))
  }

  lemma DelayExactly(now: int, a: nat)
    ensures Told(Row("", a, 0, false), Row("", a, now + RetryDelay(a), false), a, false, now)
  {
    RetryDelayDoubles(a);
    if a <= 33 { EarlyDelay(a); }
  }

  /** What the publisher tells the table of a delivery, however long that took: it is done
      with the row, which is told as above, and no other row changes. */
  lemma DeliveryExactly(s: System, p: nat, ok: bool, took: nat)
    requires Reachable(s) && p < |s.work| && s.work[p] != [] && s.work[p][0].ToSend?
    ensures var t, s' := s.work[p][0], Next(Next(Next(s, Dispatch(p, ok)), Pass(took)), Mark(p, true));
      && t.id < |s.rows| == |s'.rows| && s'.now == s.now + took && s'.work == s.work[p := s.work[p][1..]]
      && s'.rows == s.rows[t.id := s'.rows[t.id]] && Told(s.rows[t.id], s'.rows[t.id], t.attempts, ok, s'.now)
  {
    ReachableIsSafe(s);
    var t := s.work[p][0];
    assert TaskOk(s.rows, s.ledgers, t);
    DelayExactly(s.now + took, t.attempts);
    var w := [if ok then Sent(t.id) else Failed(t.id, t.attempts)] + s.work[p][1..];
    assert w[1..] == s.work[p][1..];
  }

  lemma StepOnlyProgresses(s: System, step: Step, i: nat)
    requires |s.rows| == |s.ledgers| && i < |s.rows|
    ensures var s' := Next(s, step);
      && |s'.rows| == |s'.ledgers| && |s'.rows| >= |s.rows|
      && s'.rows[i].event == s.rows[i].event
      && s'.ledgers[i].deliveries >= s.ledgers[i].deliveries
      && (s.rows[i].dispatched ==>
            && s'.rows[i].dispatched
            && s'.rows[i].attempts == s.rows[i].attempts
            && s'.ledgers[i].claims == s.ledgers[i].claims)
  {}

  /** Rows are never lost or rewritten, and a dispatched one is never claimed again. */
  lemma {:induction false} RowsOnlyProgress(s: System, steps: seq<Step>, i: nat)
    requires |s.rows| == |s.ledgers| && i < |s.rows|
    ensures var s' := Run(s, steps);
      && |s'.rows| == |s'.ledgers| && |s'.rows| >= |s.rows|
      && s'.rows[i].event == s.rows[i].event
      && s'.ledgers[i].deliveries >= s.ledgers[i].deliveries
      && (s.rows[i].dispatched ==>
            && s'.rows[i].dispatched
            && s'.rows[i].attempts == s.rows[i].attempts
            && s'.ledgers[i].claims == s.ledgers[i].claims)
    decreases |steps|
  {
    if steps != [] {
      RowsOnlyProgress(s, steps[..|steps| - 1], i);
      StepOnlyProgresses(Run(s, steps[..|steps| - 1]), steps[|steps| - 1], i);
    }
  }

  lemma RunOne(s: System, steps: seq<Step>, step: Step)
    ensures Run(s, steps + [step]) == Next(Run(s, steps), step)
  {
    assert (steps + [step])[..|steps|] == steps;
  }

  lemma {:induction false} OnlyRowFree(rows: seq<Row>, now: int, locked: set<nat>, n: nat, i: nat, upto: nat)
    requires i < |rows| && upto <= |rows| && n > 0 && Due(rows[i], now) && i !in locked
    requires forall k: nat :: k < |rows| && k != i ==> k in locked
    ensures Batch(rows, now, locked, n, upto) == if i < upto then [ToSend(i, rows[i].attempts + 1)] else []
    decreases upto
  {
    if upto > 0 {
      OnlyRowFree(rows, now, locked, n, i, upto - 1);
    }
  }

  /** Every row but `i` among the first `n`. */
  ghost function Others(n: nat, i: nat): (r: set<nat>)
    ensures forall k: nat :: k in r <==> k < n && k != i
  {
    if n == 0 then {} else Others(n - 1, i) + (if n - 1 == i then {} else {n - 1})
  }

  /** A free publisher takes row `i` alone and succeeds. */
  ghost function Taken(s: System, i: nat): System {
    Next(Next(Next(s, Crash(0)), Pass(MAX_BACKOFF)), Claim(0, 0, Others(|s.rows|, i)))
  }

  lemma TakenEffect(s: System, i: nat)
    requires |s.rows| == |s.ledgers| && |s.work| >= 1 && i < |s.rows| && !s.rows[i].dispatched
    requires s.rows[i].availableAt <= s.now + MAX_BACKOFF
    ensures var t := Taken(s, i);
      && |t.rows| == |t.ledgers| == |s.rows| && |t.work| == |s.work| && t.now == s.now + MAX_BACKOFF
      && t.work[0] == [ToSend(i, s.rows[i].attempts + 1)]
  {
    var free := Next(Next(s, Crash(0)), Pass(MAX_BACKOFF));
    OnlyRowFree(free.rows, free.now, Others(|s.rows|, i), BATCH, i, |s.rows|);
  }

  lemma SentEffect(t: System, i: nat, attempts: nat)
    requires |t.rows| == |t.ledgers| && |t.work| >= 1 && i < |t.rows| && t.work[0] == [ToSend(i, attempts)]
    ensures var u := Next(Next(t, Dispatch(0, true)), Mark(0, true));
      u.now == t.now && |u.rows| == |t.rows| && u.rows[i].dispatched
  {
    var m := Next(t, Dispatch(0, true));
    assert m.work[0] == [Sent(i)];
  }

  lemma ThreeSteps(s: System, steps: seq<Step>, a: Step, b: Step, c: Step)
    ensures Run(s, steps + [a] + [b] + [c]) == Next(Next(Next(Run(s, steps), a), b), c)
  {
    RunOne(s, steps, a);
    RunOne(s, steps + [a], b);
    RunOne(s, steps + [a] + [b], c);
  }

  lemma TwoSteps(s: System, steps: seq<Step>, a: Step, b: Step)
    ensures Run(s, steps + [a] + [b]) == Next(Next(Run(s, steps), a), b)
  {
    RunOne(s, steps, a);
    RunOne(s, steps + [a], b);
  }

  lemma TakenAndSent(s: System, i: nat) returns (steps: seq<Step>)
    requires |s.rows| == |s.ledgers| && |s.work| >= 1 && i < |s.rows| && !s.rows[i].dispatched
    requires s.rows[i].availableAt <= s.now + MAX_BACKOFF
    ensures var t := Run(s, steps); i < |t.rows| && t.rows[i].dispatched && t.now == s.now + MAX_BACKOFF
  {
    TakenEffect(s, i);
    SentEffect(Taken(s, i), i, s.rows[i].attempts + 1);
    ThreeSteps(s, [], Crash(0), Pass(MAX_BACKOFF), Claim(0, 0, Others(|s.rows|, i)));
    var take := [] + [Crash(0)] + [Pass(MAX_BACKOFF)] + [Claim(0, 0, Others(|s.rows|, i))];
    TwoSteps(s, take, Dispatch(0, true), Mark(0, true));
    steps := take + [Dispatch(0, true)] + [Mark(0, true)];
  }

  /** No row is stuck: from every reachable state with a publisher, whatever
      crashed or failed before, some run dispatches it, five minutes from now
      at the latest. */
  lemma EveryRowCanStillGo(s: System, i: nat)
    requires Reachable(s) && |s.work| >= 1 && i < |s.rows| && !s.rows[i].dispatched
    ensures exists steps :: i < |Run(s, steps).rows| && Run(s, steps).rows[i].dispatched
                            && Run(s, steps).now == s.now + MAX_BACKOFF
  {
    ReachableIsSafe(s);
    assert RowOk(s.now, s.rows[i], s.ledgers[i], Outstanding(s.work, i));
    var steps := TakenAndSent(s, i);
  }

  // ---------------------------------------------------------------------------
  // The bound of 34 claims is sharp
  // ---------------------------------------------------------------------------

  /** One row, two publishers, `k` claims so far. */
  ghost predicate Outage(s: System, k: nat) {
    && |s.rows| == |s.ledgers| == 1 && |s.work| == 2
    && !s.rows[0].dispatched && s.rows[0].attempts == |s.ledgers[0].claims| == k
    && s.rows[0].availableAt <= s.now + MAX_BACKOFF
  }

  lemma ClaimEffect(s: System, k: nat, p: nat)
    requires Outage(s, k) && p < 2 && s.work[p] == [] && Due(s.rows[0], s.now)
    ensures var t := Next(s, Claim(p, 0, {}));
      && Outage(t, k + 1) && t.now == s.now && t.work == s.work[p := [ToSend(0, k + 1)]]
      && t.ledgers[0].claims == s.ledgers[0].claims + [s.now]
  {
    OnlyRowFree(s.rows, s.now, {}, BATCH, 0, 0);
    OnlyRowFree(s.rows, s.now, {}, BATCH, 0, 1);
  }

  /** Claimed, the row is left alone, or the bus is down and it fails. */
  lemma NotDelivered(s: System, k: nat, p: nat, last: Step)
    requires p < 2 && Outage(s, k + 1) && s.work[p] == [ToSend(0, k + 1)]
    requires last == Crash(p) || last == Dispatch(p, false)
    ensures Next(s, last) == s.(work := s.work[p := if last == Crash(p) then [] else [Failed(0, k + 1)]])
  {
    assert [Failed(0, k + 1)] + s.work[p][1..] == [Failed(0, k + 1)];
  }

  /** The row is claimed once more, by publisher `p`, who then dies or, with the bus
      down, fails to deliver. */
  lemma ClaimOnceMore(steps: seq<Step>, k: nat, p: nat, last: Step) returns (more: seq<Step>)
    requires p < 2 && Outage(Run(Init(0, 2), steps), k) && Run(Init(0, 2), steps).work[p] == []
    requires last == Crash(p) || last == Dispatch(p, false)
    ensures var s, t := Run(Init(0, 2), steps), Run(Init(0, 2), more);
      && Outage(t, k + 1) && t.ledgers[0].claims[k] == t.now
      && t.work == s.work[p := if last == Crash(p) then [] else [Failed(0, k + 1)]]
  {
    var s := Run(Init(0, 2), steps);
    var later := s.(now := s.now + MAX_BACKOFF);
    assert Next(s, Pass(MAX_BACKOFF)) == later;
    ClaimEffect(later, k, p);
    NotDelivered(Next(later, Claim(p, 0, {})), k, p, last);
    ThreeSteps(Init(0, 2), steps, Pass(MAX_BACKOFF), Claim(p, 0, {}), last);
    more := steps + [Pass(MAX_BACKOFF)] + [Claim(p, 0, {})] + [last];
  }

  /** `k` claims, none delivered, and both publishers idle. */
  lemma {:induction false} ClaimsPile(k: nat) returns (steps: seq<Step>)
    ensures Outage(Run(Init(0, 2), steps), k) && Run(Init(0, 2), steps).work == [[], []]
    decreases k
  {
    if k == 0 {
      steps := [] + [Enqueue("")];
      RunOne(Init(0, 2), [], Enqueue(""));
    } else {
      steps := ClaimsPile(k - 1);
      steps := ClaimOnceMore(steps, k - 1, 1, Crash(1));
    }
  }

  /** `k` claims, the 34th of them failed and not yet marked as such, the last just now. */
  lemma {:induction false} StaleFailure(k: nat) returns (steps: seq<Step>)
    requires k >= 34
    ensures var s := Run(Init(0, 2), steps);
      Outage(s, k) && s.work == [[Failed(0, 34)], []] && s.ledgers[0].claims[k - 1] == s.now
    decreases k
  {
    if k == 34 {
      steps := ClaimsPile(33);
      steps := ClaimOnceMore(steps, 33, 0, Dispatch(0, false));
    } else {
      steps := StaleFailure(k - 1);
      steps := ClaimOnceMore(steps, k - 1, 1, Crash(1));
    }
  }

  /** After the 34th failed delivery the delay wraps below zero. Marked late, it makes
      the row due at once, however often it was claimed since: claims `j` and `j - 1`
      happen at one instant. */
  lemma TwoClaimsAtOnce(j: nat) returns (s: System)
    requires j >= 34
    ensures Reachable(s) && |s.rows| == |s.ledgers| == 1 && |s.ledgers[0].claims| == j + 1
    ensures s.ledgers[0].claims[j] == s.ledgers[0].claims[j - 1]
  {
    var steps := StaleFailure(j);
    var before := Run(Init(0, 2), steps);
    RetryDelayBounds(34);
    var marked := Next(before, Mark(0, true));
    assert Outage(marked, j) && marked.now == before.now && marked.work[1] == [];
    ClaimEffect(marked, j, 1);
    RunOne(Init(0, 2), steps, Mark(0, true));
    RunOne(Init(0, 2), steps + [Mark(0, true)], Claim(1, 0, {}));
    s := Run(Init(0, 2), steps + [Mark(0, true)] + [Claim(1, 0, {})]);
  }

  /** Claim `j` of a row comes at least a second after the one before it. */
  ghost predicate SpacedAt(s: System, i: nat, j: nat) {
    i < |s.rows| && i < |s.ledgers| && 0 < j < |s.ledgers[i].claims| ==>
      s.ledgers[i].claims[j] - s.ledgers[i].claims[j - 1] >= SECOND
  }

  /** It does so in every reachable state, whatever the publishers do, for exactly
      the claims up to the 34th. */
  lemma ClaimsAreSpacedExactlyTo34(j: nat)
    requires j > 0
    ensures (forall s, i: nat :: Reachable(s) ==> SpacedAt(s, i, j)) <==> j <= 33
  {
    if j <= 33 {
      forall s, i: nat | Reachable(s) ensures SpacedAt(s, i, j) {
        if i < |s.rows| && i < |s.ledgers| && j < |s.ledgers[i].claims| { ClaimsAreSpaced(s, i, j); }
      }
    } else {
      var s := TwoClaimsAtOnce(j);
      assert !SpacedAt(s, 0, j);
    }
  }

  // ---------------------------------------------------------------------------
  // The publisher's program
  // ---------------------------------------------------------------------------

  /** How one delivery went: the time it took, whether the bus took the row,
      and whether the table could be told. */
  datatype Outcome = Outcome(took: nat, delivered: bool, marked: bool)

  function DrainSteps(locked: set<nat>, outcome: nat -> Outcome, n: nat): seq<Step> {
    if n == 0 then [Claim(0, BATCH, locked)]
    else DrainSteps(locked, outcome, n - 1)
         + [Pass(outcome(n - 1).took)] + [Dispatch(0, outcome(n - 1).delivered)] + [Mark(0, outcome(n - 1).marked)]
  }

  /** The table after one delivery of a claimed row. */
  function Handled(rows: seq<Row>, r: Task, o: Outcome, now: int): seq<Row>
    requires r.ToSend?
  {
    if !o.marked || r.id >= |rows| then rows
    else if o.delivered then rows[r.id := rows[r.id].(dispatched := true)]
    else rows[r.id := rows[r.id].(availableAt := now + RetryDelay(r.attempts))]
  }

  method Handle(table: Table, r: Task, o: Outcome, now: int)
    requires r.ToSend?
    modifies table
    ensures table.rows == Handled(old(table.rows), r, o, now)
  {
    if !o.delivered {
      var delay := BackoffFor(r.attempts);
      if o.marked { table.MarkFailed(r.id, delay, now); }
    } else {
      if o.marked { table.MarkDispatched(r.id); }
    }
  }

  lemma HandleOne(s: System, r: Task, rest: seq<Task>, o: Outcome)
    requires s.work == [[r] + rest] && r.ToSend? && |s.rows| == |s.ledgers|
    ensures var t := Next(Next(Next(s, Pass(o.took)), Dispatch(0, o.delivered)), Mark(0, o.marked));
      && t.now == s.now + o.took && t.work == [rest] && |t.rows| == |t.ledgers| == |s.rows|
      && t.rows == Handled(s.rows, r, o, t.now)
  {
    var a := Next(s, Pass(o.took));
    var b := Next(a, Dispatch(0, o.delivered));
    assert a.work[0][1..] == rest && a.work[0][0] == r;
    assert b.work[0][0] == (if o.delivered then Sent(r.id) else Failed(r.id, r.attempts)) && b.work[0][1..] == rest;
  }

  lemma DrainOneMore(s0: System, locked: set<nat>, outcome: nat -> Outcome, n: nat)
    ensures var s := Run(s0, DrainSteps(locked, outcome, n));
      Run(s0, DrainSteps(locked, outcome, n + 1))
      == Next(Next(Next(s, Pass(outcome(n).took)), Dispatch(0, outcome(n).delivered)), Mark(0, outcome(n).marked))
  {
    var o := outcome(n);
    ThreeSteps(s0, DrainSteps(locked, outcome, n), Pass(o.took), Dispatch(0, o.delivered), Mark(0, o.marked));
  }

  /** The machine after the claim, and after one more row is handled. */
  lemma DrainStart(s0: System, locked: set<nat>, outcome: nat -> Outcome) returns (s: System)
    requires |s0.rows| == |s0.ledgers| && s0.work == [[]]
    ensures s == Run(s0, DrainSteps(locked, outcome, 0))
    ensures s.rows == ClaimRows(s0.rows, s0.now, locked, BATCH, |s0.rows|)
    ensures s.work == [Batch(s0.rows, s0.now, locked, BATCH, |s0.rows|)]
    ensures s.now == s0.now && |s.ledgers| == |s.rows|
  {
    s := Next(s0, Claim(0, BATCH, locked));
    RunOne(s0, [], Claim(0, BATCH, locked));
    assert Run(s0, []) == s0 && [] + [Claim(0, BATCH, locked)] == DrainSteps(locked, outcome, 0);
  }

  /** After `n` rows the machine has the table and the clock of the program, and
      the rest of the batch to do. */
  ghost predicate Drained(s0: System, locked: set<nat>, outcome: nat -> Outcome, n: nat, s: System,
                          rows: seq<Row>, now: int, rest: seq<Task>) {
    && s == Run(s0, DrainSteps(locked, outcome, n))
    && s.rows == rows && s.now == now && s.work == [rest] && |s.rows| == |s.ledgers|
  }

  lemma DrainNext(s0: System, locked: set<nat>, outcome: nat -> Outcome, n: nat, s: System,
                  rows: seq<Row>, now: int, r: Task, rest: seq<Task>)
    returns (t: System)
    requires Drained(s0, locked, outcome, n, s, rows, now, [r] + rest) && r.ToSend?
    ensures var later := now + outcome(n).took;
      Drained(s0, locked, outcome, n + 1, t, Handled(rows, r, outcome(n), later), later, rest)
  {
    HandleOne(s, r, rest, outcome(n));
    DrainOneMore(s0, locked, outcome, n);
    t := Run(s0, DrainSteps(locked, outcome, n + 1));
  }

  lemma BatchToSend(rows: seq<Row>, now: int, locked: set<nat>)
    ensures forall x :: 0 <= x < |Batch(rows, now, locked, BATCH, |rows|)| ==>
              Batch(rows, now, locked, BATCH, |rows|)[x].ToSend?
    ensures |Batch(rows, now, locked, BATCH, |rows|)| <= BATCH
  {
    BatchTasks(rows, now, locked, BATCH, |rows|, 0);
  }

  /** The loop of drainOnce over the claimed rows. */
  method DeliverAll(table: Table, claimed: seq<Task>, start: int, locked: set<nat>, outcome: nat -> Outcome,
                    ghost s0: System, ghost first: System) returns (ghost s: System, ghost now: int)
    requires Drained(s0, locked, outcome, 0, first, table.rows, start, claimed)
    requires forall x :: 0 <= x < |claimed| ==> claimed[x].ToSend?
    modifies table
    ensures Drained(s0, locked, outcome, |claimed|, s, table.rows, now, [])
  {
    var clock, i := start, 0;
    s := first;
    assert claimed[0..] == claimed;
    while i < |claimed|
      invariant 0 <= i <= |claimed| && Drained(s0, locked, outcome, i, s, table.rows, clock, claimed[i..])
    {
      var r, o := claimed[i], outcome(i);
      assert claimed[i..] == [r] + claimed[i + 1..];
      s := DrainNext(s0, locked, outcome, i, s, table.rows, clock, r, claimed[i + 1..]);
      clock := clock + o.took;
      Handle(table, r, o, clock);
      i := i + 1;
    }
    assert claimed[i..] == [];
    now := clock;
  }

  /** drainOnce: claim a batch and handle its rows one after the other. What it
      does to the table is a run of the machine above in which no other
      publisher steps in, and it leaves nothing behind to do. */
  method DrainOnce(table: Table, start: int, locked: set<nat>, outcome: nat -> Outcome, ghost ledgers: seq<Ledger>)
    returns (n: nat)
    requires |ledgers| == |table.rows|
    modifies table
    ensures n == |Batch(old(table.rows), start, locked, BATCH, |old(table.rows)|)| <= 32
    ensures var s := Run(System(start, old(table.rows), ledgers, [[]]), DrainSteps(locked, outcome, n));
      table.rows == s.rows && s.work == [[]]
  {
    ghost var s0 := System(start, table.rows, ledgers, [[]]);
    ghost var first := DrainStart(s0, locked, outcome);
    BatchToSend(s0.rows, start, locked);
    var claimed := table.ClaimBatch(BATCH, start, locked);
    ghost var _, _ := DeliverAll(table, claimed, start, locked, outcome, s0, first);
    n := |claimed|;
  }
}
