/**
  Shift timetables that arrive as snapshots, in any order and more than once
  (internal/store/production_shifts.go), and what is in force on a day.
 */
module Shifts {
  import opened Wrappers
  import opened Text

  /** Dates and times of day are text, compared as text. */
  datatype Shift = Shift(name: string, startTime: string, endTime: string, effectiveFrom: string, effectiveTo: string,
                         active: bool)

  datatype Snapshot = Snapshot(plant: string, shifts: seq<Shift>, publishedAt: int)

  datatype Plant = Plant(code: string, held: Option<Snapshot>)

  // ---------------------------------------------------------------------------
  // Snapshots
  // ---------------------------------------------------------------------------

  predicate For(d: Snapshot, code: string) {
    EqualFold(code, d.plant)
  }

  /** Publication times are nanoseconds. The time held is read back in microseconds,
      rounded, a half to the even one; the time of the event is cut off to them. */
  function HeldMicros(ns: int): (us: int)
    ensures 1000 * us - 500 <= ns <= 1000 * us + 500
    ensures ns == 1000 * us - 500 || ns == 1000 * us + 500 ==> us % 2 == 0
  {
    var us, rest := ns / 1000, ns % 1000;
    if rest < 500 || (rest == 500 && us % 2 == 0) then us else us + 1
  }

  function SentMicros(ns: int): (us: int)
    ensures 1000 * us <= ns < 1000 * us + 1000
  {
    ns / 1000
  }

  /** A snapshot replaces one that reads as published no later. */
  predicate Replaces(h: Snapshot, d: Snapshot) {
    HeldMicros(h.publishedAt) <= SentMicros(d.publishedAt)
  }

  predicate Takes(p: Plant, d: Snapshot) {
    For(d, p.code) && (p.held.None? || Replaces(p.held.value, d))
  }

  function Taken(held: Option<Snapshot>, code: string, d: Snapshot): Option<Snapshot> {
    if Takes(Plant(code, held), d) then Some(d) else held
  }

  function TakenBy(plants: seq<Plant>, d: Snapshot): (r: seq<Plant>)
    ensures |r| == |plants|
  {
    seq(|plants|, i requires 0 <= i < |plants| => plants[i].(held := Taken(plants[i].held, plants[i].code, d)))
  }

  /** The rule: the snapshot is for the plant, case aside, which holds none or one that
      reads, rounded, no later than this one does, cut off. */
  predicate Accepts(p: Plant, d: Snapshot) {
    && Lower(p.code) == Lower(d.plant)
    && (p.held.None? || HeldMicros(p.held.value.publishedAt) <= SentMicros(d.publishedAt))
  }

  class Plants {
    var rows: seq<Plant>

    /** ApplyProductionShifts: every row of the plant takes the snapshot unless it
        holds a later one. */
    method ApplyProductionShifts(d: Snapshot) returns (applied: bool)
      modifies this
      ensures rows == TakenBy(old(rows), d)
      ensures applied <==> exists i :: 0 <= i < |rows| && Takes(old(rows)[i], d)
      ensures forall i :: 0 <= i < |rows| ==>
                rows[i] == if Accepts(old(rows)[i], d) then old(rows)[i].(held := Some(d)) else old(rows)[i]
    {
      applied := false;
      var i := 0;
      ghost var was := rows;
      while i < |rows|
        invariant 0 <= i <= |rows| == |was|
        invariant forall k :: 0 <= k < i ==> rows[k] == TakenBy(was, d)[k]
        invariant forall k :: i <= k < |rows| ==> rows[k] == was[k]
        invariant applied <==> exists k :: 0 <= k < i && Takes(was[k], d)
      {
        var p := rows[i];
        assert p == was[i];
        if EqualFold(p.code, d.plant) && (p.held.None? || Replaces(p.held.value, d)) {
          rows := rows[i := p.(held := Some(d))];
          applied := true;
        }
        i := i + 1;
      }
    }
  }

  /** What a plant holds once the snapshots were delivered, one after the other. */
  function Delivered(held: Option<Snapshot>, code: string, ds: seq<Snapshot>): Option<Snapshot> {
    if ds == [] then held else Taken(Delivered(held, code, ds[..|ds| - 1]), code, ds[|ds| - 1])
  }

  /** One more delivery is held exactly when the rule accepts it. */
  lemma DeliversExactly(code: string, ds: seq<Snapshot>, d: Snapshot)
    ensures var before := Delivered(None, code, ds);
      Delivered(None, code, ds + [d]) == if Accepts(Plant(code, before), d) then Some(d) else before
  {
    assert (ds + [d])[..|ds|] == ds;
  }

  ghost predicate Sent(ds: seq<Snapshot>, code: string, d: Snapshot) {
    exists k :: 0 <= k < |ds| && ds[k] == d && For(d, code)
  }

  /** `d` is one of the plant's snapshots, and none of them was published later. */
  ghost predicate Newest(ds: seq<Snapshot>, code: string, d: Snapshot) {
    Sent(ds, code, d) && forall o :: Sent(ds, code, o) ==> o.publishedAt <= d.publishedAt
  }

  lemma SentMore(ds: seq<Snapshot>, last: Snapshot, code: string, d: Snapshot)
    ensures Sent(ds + [last], code, d) <==> Sent(ds, code, d) || (d == last && For(d, code))
  {
    var all := ds + [last];
    assert all[|ds|] == last;
    if Sent(ds, code, d) {
      var k :| 0 <= k < |ds| && ds[k] == d;
      assert all[k] == d;
    }
    if Sent(all, code, d) && d != last {
      var k :| 0 <= k < |all| && all[k] == d;
      assert ds[k] == d;
    }
  }

  /** `w` replaces `d`, and is not replaced by it. */
  predicate Beats(w: Snapshot, d: Snapshot) {
    Replaces(d, w) && !Replaces(w, d)
  }

  /** `w` is one of the plant's snapshots, and beats every other. */
  ghost predicate Wins(ds: seq<Snapshot>, code: string, w: Snapshot) {
    Sent(ds, code, w) && forall d :: Sent(ds, code, d) && d != w ==> Beats(w, d)
  }

  /** The comparison in microseconds is never the wrong way round. */
  lemma WinnerIsLater(w: Snapshot, d: Snapshot)
    requires Beats(w, d)
    ensures w.publishedAt > d.publishedAt
  {}

  lemma {:induction false} HeldWasSent(code: string, ds: seq<Snapshot>)
    ensures var held := Delivered(None, code, ds);
      if held.Some? then Sent(ds, code, held.value) else forall d :: !Sent(ds, code, d)
    decreases |ds|
  {
    if ds != [] {
      var front, last := ds[..|ds| - 1], ds[|ds| - 1];
      assert ds == front + [last];
      HeldWasSent(code, front);
      forall d ensures Sent(ds, code, d) <==> Sent(front, code, d) || (d == last && For(d, code)) {
        SentMore(front, last, code, d);
      }
    }
  }

  /** Once it is sent, a snapshot that beats every other is held. */
  lemma {:induction false} WinnerIsHeld(code: string, ds: seq<Snapshot>, w: Snapshot)
    requires Sent(ds, code, w) && forall d :: Sent(ds, code, d) && d != w ==> Beats(w, d)
    ensures Delivered(None, code, ds) == Some(w)
    decreases |ds|
  {
    var front, last := ds[..|ds| - 1], ds[|ds| - 1];
    assert ds == front + [last];
    forall d ensures Sent(ds, code, d) <==> Sent(front, code, d) || (d == last && For(d, code)) {
      SentMore(front, last, code, d);
    }
    if Sent(front, code, w) {
      WinnerIsHeld(code, front, w);
    } else {
      HeldWasSent(code, front);
    }
  }

  /** In whatever order they came, and however often: if one snapshot beats every
      other, the plant ends with it, and it is the newest. */
  lemma EndsWithTheNewest(code: string, ds: seq<Snapshot>, w: Snapshot)
    requires Wins(ds, code, w)
    ensures Delivered(None, code, ds) == Some(w) && Newest(ds, code, w)
    ensures forall d :: Newest(ds, code, d) ==> d == w
  {
    WinnerIsHeld(code, ds, w);
    forall d | Sent(ds, code, d) && d != w ensures d.publishedAt < w.publishedAt { WinnerIsLater(w, d); }
  }

  ghost predicate SameSent(ds: seq<Snapshot>, es: seq<Snapshot>, code: string) {
    forall d :: Sent(ds, code, d) <==> Sent(es, code, d)
  }

  /** However the same snapshots are delivered, the plant ends alike. */
  ghost predicate Converges(ds: seq<Snapshot>, code: string) {
    forall es :: SameSent(ds, es, code) ==> Delivered(None, code, es) == Delivered(None, code, ds)
  }

  lemma FirstDelivery(code: string, d: Snapshot)
    requires For(d, code)
    ensures Delivered(None, code, [d]) == Some(d)
  {
    assert [d][..0] == [];
  }

  /** Two snapshots end alike in both orders exactly when they are one, or the
      comparison in microseconds tells them apart. */
  lemma TwoDeliveriesExactly(code: string, a: Snapshot, b: Snapshot)
    requires For(a, code) && For(b, code)
    ensures Delivered(None, code, [a, b]) == Delivered(None, code, [b, a])
       <==> a == b || Replaces(a, b) != Replaces(b, a)
  {
    assert [a, b][..1] == [a] && [b, a][..1] == [b];
    FirstDelivery(code, a);
    FirstDelivery(code, b);
  }

  /** The plant held `d` first, `w` came, and then came the rest without `w`. */
  lemma LosesEarly(code: string, d: Snapshot, w: Snapshot, rest: seq<Snapshot>)
    requires For(d, code) && For(w, code) && d != w && !Replaces(d, w) && w !in rest
    ensures Delivered(None, code, [d, w] + rest) != Some(w)
    decreases |rest|
  {
    if rest == [] {
      FirstDelivery(code, d);
      assert [d, w] + rest == [d, w] && [d, w][..1] == [d];
    } else {
      var n := |rest| - 1;
      LosesEarly(code, d, w, rest[..n]);
      assert ([d, w] + rest)[..n + 2] == [d, w] + rest[..n];
    }
  }

  /** The snapshots without `w`. */
  function Without(ds: seq<Snapshot>, w: Snapshot): (r: seq<Snapshot>)
    ensures forall d :: d in r <==> d in ds && d != w
  {
    if ds == [] then []
    else
      var last := ds[|ds| - 1];
      Without(ds[..|ds| - 1], w) + (if last == w then [] else [last])
  }

  lemma SentIsIn(ds: seq<Snapshot>, code: string, d: Snapshot)
    ensures Sent(ds, code, d) <==> d in ds && For(d, code)
  {}

  /** If all deliveries of the snapshots end with `w`, it beats every other one. */
  lemma HeldAlwaysWins(code: string, ds: seq<Snapshot>, w: Snapshot, d: Snapshot)
    requires Converges(ds, code) && Delivered(None, code, ds) == Some(w) && Sent(ds, code, d) && d != w
    ensures Beats(w, d)
  {
    HeldWasSent(code, ds);
    var again := ds + [d];
    forall x ensures Sent(ds, code, x) <==> Sent(again, code, x) { SentMore(ds, d, code, x); }
    assert SameSent(ds, again, code) && again[..|ds|] == ds;
    if !Replaces(d, w) {
      var early := [d, w] + Without(ds, w);
      forall x ensures Sent(ds, code, x) <==> Sent(early, code, x) {
        SentIsIn(ds, code, x);
        SentIsIn(early, code, x);
      }
      LosesEarly(code, d, w, Without(ds, w));
      assert SameSent(ds, early, code);
    }
  }

  /** Deliveries of the same snapshots converge, whatever their order and repetition,
      if and only if there are none or one beats every other. */
  lemma DeliveriesConvergeExactly(code: string, ds: seq<Snapshot>)
    ensures Converges(ds, code) <==> (forall d :: !Sent(ds, code, d)) || exists w :: Wins(ds, code, w)
  {
    HeldWasSent(code, ds);
    if Converges(ds, code) {
      var held := Delivered(None, code, ds);
      if held.Some? {
        forall d | Sent(ds, code, d) && d != held.value ensures Beats(held.value, d) {
          HeldAlwaysWins(code, ds, held.value, d);
        }
        assert Wins(ds, code, held.value);
      }
    } else {
      var es :| SameSent(ds, es, code) && Delivered(None, code, es) != Delivered(None, code, ds);
      HeldWasSent(code, es);
      forall w ensures !Wins(ds, code, w) {
        if Wins(ds, code, w) {
          WinnerIsHeld(code, ds, w);
          WinnerIsHeld(code, es, w);
        }
      }
    }
  }

  /** The comparison in microseconds tells any two of the plant's snapshots apart. */
  ghost predicate ToldApart(ds: seq<Snapshot>, code: string) {
    forall a, b :: Sent(ds, code, a) && Sent(ds, code, b) && a != b ==> Replaces(a, b) != Replaces(b, a)
  }

  /** Then one beats every other. */
  lemma {:induction false} ToldApartConverges(code: string, ds: seq<Snapshot>)
    requires ToldApart(ds, code)
    ensures (forall d :: !Sent(ds, code, d)) || exists w :: Wins(ds, code, w)
    decreases |ds|
  {
    if ds != [] {
      var front, last := ds[..|ds| - 1], ds[|ds| - 1];
      assert ds == front + [last];
      forall d ensures Sent(ds, code, d) <==> Sent(front, code, d) || (d == last && For(d, code)) {
        SentMore(front, last, code, d);
      }
      ToldApartConverges(code, front);
      if !For(last, code) {
        if w :| Wins(front, code, w) { assert Wins(ds, code, w); }
      } else if w :| Wins(front, code, w) {
        if w == last || Beats(w, last) {
          assert Wins(ds, code, w);
        } else {
          forall d | Sent(front, code, d) && d != last ensures Beats(last, d) {
            if d != w { WinnerIsLater(w, d); BeatsOnward(last, w, d); }
          }
          assert Wins(ds, code, last);
        }
      } else {
        assert Wins(ds, code, last);
      }
    }
  }

  lemma BeatsOnward(a: Snapshot, b: Snapshot, c: Snapshot)
    requires Beats(a, b) && Beats(b, c)
    ensures Beats(a, c)
  {}

  // ---------------------------------------------------------------------------
  // Text order
  // ---------------------------------------------------------------------------

  /** Comparison of text, character by character. */
  predicate Less(a: string, b: string) {
    b != "" && (a == "" || a[0] < b[0] || (a[0] == b[0] && Less(a[1..], b[1..])))
  }

  /** The order of the alphabet: where the texts differ first, or the beginning of a longer one. */
  lemma {:induction false} LessExactly(a: string, b: string)
    ensures Less(a, b) <==>
      exists k :: 0 <= k <= |a| && k < |b| && a[..k] == b[..k] && (k == |a| || a[k] < b[k])
    decreases |a|
  {
    if a != "" && b != "" && a[0] == b[0] {
      LessExactly(a[1..], b[1..]);
      var x, y := a[1..], b[1..];
      if k :| 0 <= k <= |x| && k < |y| && x[..k] == y[..k] && (k == |x| || x[k] < y[k]) {
        assert a[..k + 1] == [a[0]] + x[..k] && b[..k + 1] == [b[0]] + y[..k];
      }
      if k :| 0 <= k <= |a| && k < |b| && a[..k] == b[..k] && (k == |a| || a[k] < b[k]) {
        assert x[..k - 1] == a[..k][1..] && y[..k - 1] == b[..k][1..];
      }
    } else if a == "" && b != "" {
      assert a[..0] == b[..0];
    } else if b != "" {
      assert a[..0] == b[..0];
      if k :| 0 <= k <= |a| && k < |b| && a[..k] == b[..k] && (k == |a| || a[k] < b[k]) {
        assert k > 0 ==> a[..k][0] == b[..k][0];
      }
    }
  }

  lemma {:induction false} LessIsTotal(a: string, b: string)
    ensures a == b || Less(a, b) || Less(b, a)
    ensures !(Less(a, b) && Less(b, a)) && !Less(a, a)
    decreases |a|
  {
    if a != "" {
      LessIsTotal(a[1..], a[1..]);
      if b != "" {
        LessIsTotal(a[1..], b[1..]);
        assert a == [a[0]] + a[1..] && b == [b[0]] + b[1..];
      }
    }
  }

  lemma {:induction false} LessIsTransitive(a: string, b: string, c: string)
    requires Less(a, b) && Less(b, c)
    ensures Less(a, c)
    decreases |a|
  {
    if a != "" && a[0] == b[0] && b[0] == c[0] {
      LessIsTransitive(a[1..], b[1..], c[1..]);
    }
  }

  // ---------------------------------------------------------------------------
  // The timetable of a day
  // ---------------------------------------------------------------------------

  predicate Covers(s: Shift, date: string) {
    s.active && !Less(date, s.effectiveFrom) && !(s.effectiveTo != "" && Less(s.effectiveTo, date))
  }

  function NameKey(s: Shift): string {
    Lower(s.name)
  }

  /** Row `k` of the first `n` is the version of its shift that counts: none of them
      that covers the day took effect later, and none before it in the list as late. */
  ghost predicate Counts(shifts: seq<Shift>, date: string, n: nat, k: nat)
    requires n <= |shifts|
  {
    k < n && Covers(shifts[k], date)
    && forall m :: 0 <= m < n && Covers(shifts[m], date) && NameKey(shifts[m]) == NameKey(shifts[k]) ==>
         !Less(shifts[k].effectiveFrom, shifts[m].effectiveFrom)
         && (m < k ==> Less(shifts[m].effectiveFrom, shifts[k].effectiveFrom))
  }

  ghost predicate CoveredName(shifts: seq<Shift>, date: string, n: nat, key: string)
    requires n <= |shifts|
  {
    exists k :: 0 <= k < n && Covers(shifts[k], date) && NameKey(shifts[k]) == key
  }

  /** The version that counts of every name that some row covers the day under, and of no other. */
  ghost predicate NewestOf(shifts: seq<Shift>, date: string, n: nat, newest: map<string, Shift>)
    requires n <= |shifts|
  {
    && (forall key :: key in newest <==> CoveredName(shifts, date, n, key))
    && (forall key :: key in newest ==> NameKey(newest[key]) == key && CountsAs(shifts, date, n, newest[key]))
  }

  ghost predicate CountsAs(shifts: seq<Shift>, date: string, n: nat, s: Shift)
    requires n <= |shifts|
  {
    exists k :: 0 <= k < n && shifts[k] == s && Counts(shifts, date, n, k)
  }

  ghost predicate SortedByStart(out: seq<Shift>) {
    forall i, j :: 0 <= i < j < |out| ==> !Less(out[j].startTime, out[i].startTime)
  }

  ghost predicate NamesOnce(out: seq<Shift>) {
    forall i, j :: 0 <= i < j < |out| ==> NameKey(out[i]) != NameKey(out[j])
  }

  ghost predicate HasName(out: seq<Shift>, key: string) {
    exists i :: 0 <= i < |out| && NameKey(out[i]) == key
  }

  /** The day's timetable: one row a name, up to case, present exactly when some
      active row covers the day; the version that counts; sorted by start time. */
  ghost predicate InForce(shifts: seq<Shift>, date: string, out: seq<Shift>) {
    && SortedByStart(out) && NamesOnce(out)
    && (forall key :: HasName(out, key) <==> CoveredName(shifts, date, |shifts|, key))
    && (forall i :: 0 <= i < |out| ==> CountsAs(shifts, date, |shifts|, out[i]))
  }

  lemma CountsOnce(shifts: seq<Shift>, date: string, n: nat, j: nat, k: nat)
    requires n <= |shifts| && Counts(shifts, date, n, j) && Counts(shifts, date, n, k)
    requires NameKey(shifts[j]) == NameKey(shifts[k])
    ensures j == k
  {}

  /** The timetable of a day is determined, but for the order of shifts that start together. */
  lemma InForceIsDetermined(shifts: seq<Shift>, date: string, a: seq<Shift>, b: seq<Shift>, s: Shift)
    requires InForce(shifts, date, a) && InForce(shifts, date, b) && s in a
    ensures s in b
  {
    var i :| 0 <= i < |a| && a[i] == s;
    assert HasName(a, NameKey(s));
    assert HasName(b, NameKey(s));
    var j :| 0 <= j < |b| && NameKey(b[j]) == NameKey(s);
    var k :| 0 <= k < |shifts| && shifts[k] == a[i] && Counts(shifts, date, |shifts|, k);
    var l :| 0 <= l < |shifts| && shifts[l] == b[j] && Counts(shifts, date, |shifts|, l);
    CountsOnce(shifts, date, |shifts|, k, l);
  }

  /** A row is active, and the day is from the first to the last of its version, both of
      them included; an empty last day is none. */
  predicate OnDay(s: Shift, date: string) {
    s.active && !Less(date, s.effectiveFrom) && (s.effectiveTo == "" || !Less(s.effectiveTo, date))
  }

  /** Of the rows of one name, case aside, that are on the day, row `k` took effect last,
      and before any other in the list that took effect with it. */
  ghost predicate LatestOnDay(shifts: seq<Shift>, date: string, k: nat) {
    && k < |shifts| && OnDay(shifts[k], date)
    && (forall m :: 0 <= m < |shifts| && OnDay(shifts[m], date) && Lower(shifts[m].name) == Lower(shifts[k].name) ==>
          && !Less(shifts[k].effectiveFrom, shifts[m].effectiveFrom)
          && (m < k ==> Less(shifts[m].effectiveFrom, shifts[k].effectiveFrom)))
  }

  /** A shift is on the timetable of the day exactly when it is such a row. */
  lemma InForceExactly(shifts: seq<Shift>, date: string, out: seq<Shift>, s: Shift)
    requires InForce(shifts, date, out)
    ensures s in out <==> exists k: nat :: LatestOnDay(shifts, date, k) && shifts[k] == s
  {
    var n := |shifts|;
    forall k: nat ensures Counts(shifts, date, n, k) <==> LatestOnDay(shifts, date, k) {}
    if k: nat :| LatestOnDay(shifts, date, k) && shifts[k] == s {
      assert CoveredName(shifts, date, n, NameKey(s)) && HasName(out, NameKey(s));
      var i :| 0 <= i < |out| && NameKey(out[i]) == NameKey(s);
      var l :| 0 <= l < n && shifts[l] == out[i] && Counts(shifts, date, n, l);
      CountsOnce(shifts, date, n, k, l);
    }
  }

  // ---------------------------------------------------------------------------
  // Finding it
  // ---------------------------------------------------------------------------

  lemma CoveredMore(shifts: seq<Shift>, date: string, n: nat)
    requires n < |shifts|
    ensures forall key :: CoveredName(shifts, date, n + 1, key) <==>
              CoveredName(shifts, date, n, key) || (Covers(shifts[n], date) && NameKey(shifts[n]) == key)
  {
    forall key | CoveredName(shifts, date, n + 1, key) && !CoveredName(shifts, date, n, key)
      ensures Covers(shifts[n], date) && NameKey(shifts[n]) == key
    {
      var k :| 0 <= k < n + 1 && Covers(shifts[k], date) && NameKey(shifts[k]) == key;
      assert k == n;
    }
  }

  /** A row that does not cover the day, or is of another shift, changes nothing. */
  lemma CountsStill(shifts: seq<Shift>, date: string, n: nat, s: Shift)
    requires n < |shifts| && CountsAs(shifts, date, n, s)
    requires
      || !Covers(shifts[n], date)
      || NameKey(shifts[n]) != NameKey(s)
      || !Less(s.effectiveFrom, shifts[n].effectiveFrom)
    ensures CountsAs(shifts, date, n + 1, s)
  {
    var k :| 0 <= k < n && shifts[k] == s && Counts(shifts, date, n, k);
    assert Counts(shifts, date, n + 1, k);
  }

  lemma CountsNow(shifts: seq<Shift>, date: string, n: nat, newest: map<string, Shift>)
    requires n < |shifts| && Covers(shifts[n], date) && NewestOf(shifts, date, n, newest)
    requires var key := NameKey(shifts[n]); key !in newest || Less(newest[key].effectiveFrom, shifts[n].effectiveFrom)
    ensures CountsAs(shifts, date, n + 1, shifts[n])
  {
    var key := NameKey(shifts[n]);
    forall m | 0 <= m < n && Covers(shifts[m], date) && NameKey(shifts[m]) == key
      ensures Less(shifts[m].effectiveFrom, shifts[n].effectiveFrom)
      ensures !Less(shifts[n].effectiveFrom, shifts[m].effectiveFrom)
    {
      assert CoveredName(shifts, date, n, key);
      var k :| 0 <= k < n && shifts[k] == newest[key] && Counts(shifts, date, n, k);
      var a, b, c := shifts[m].effectiveFrom, shifts[k].effectiveFrom, shifts[n].effectiveFrom;
      assert !Less(b, a);
      LessIsTotal(a, b);
      if a != b { LessIsTransitive(a, b, c); }
      LessIsTotal(a, c);
    }
    LessIsTotal(shifts[n].effectiveFrom, shifts[n].effectiveFrom);
    assert Counts(shifts, date, n + 1, n);
  }

  /** The versions after one more row is looked at. */
  function Seen(newest: map<string, Shift>, s: Shift, date: string): map<string, Shift> {
    if Covers(s, date) && (NameKey(s) !in newest || Less(newest[NameKey(s)].effectiveFrom, s.effectiveFrom))
    then newest[NameKey(s) := s] else newest
  }

  lemma NewestOfMore(shifts: seq<Shift>, date: string, n: nat, newest: map<string, Shift>)
    requires n < |shifts| && NewestOf(shifts, date, n, newest)
    ensures NewestOf(shifts, date, n + 1, Seen(newest, shifts[n], date))
  {
    var s, newest' := shifts[n], Seen(newest, shifts[n], date);
    CoveredMore(shifts, date, n);
    forall key | key in newest' ensures NameKey(newest'[key]) == key && CountsAs(shifts, date, n + 1, newest'[key]) {
      if key in newest && newest'[key] == newest[key] {
        if Covers(s, date) && NameKey(s) == key && Less(newest[key].effectiveFrom, s.effectiveFrom) {
          CountsNow(shifts, date, n, newest);
        } else {
          CountsStill(shifts, date, n, newest[key]);
        }
      } else {
        CountsNow(shifts, date, n, newest);
      }
    }
  }

  /** A row put in at a place. */
  function Inserted(out: seq<Shift>, at: nat, s: Shift): (r: seq<Shift>)
    requires at <= |out|
    ensures |r| == |out| + 1 && r[at] == s
    ensures forall i :: 0 <= i < at ==> r[i] == out[i]
    ensures forall i :: at <= i < |out| ==> r[i + 1] == out[i]
    ensures forall i :: at < i < |r| ==> r[i] == out[i - 1]
  {
    out[..at] + [s] + out[at..]
  }

  /** A row put where it belongs by its start time. */
  method Insert(out: seq<Shift>, s: Shift) returns (r: seq<Shift>, at: nat)
    requires SortedByStart(out)
    ensures at <= |out| && r == Inserted(out, at, s) && SortedByStart(r)
  {
    at := |out|;
    while at > 0 && Less(s.startTime, out[at - 1].startTime)
      invariant 0 <= at <= |out|
      invariant forall k :: at <= k < |out| ==> Less(s.startTime, out[k].startTime)
    {
      at := at - 1;
    }
    InsertKeepsSorted(out, s, at);
    r := out[..at] + [s] + out[at..];
  }

  lemma InsertKeepsSorted(out: seq<Shift>, s: Shift, at: nat)
    requires SortedByStart(out) && at <= |out|
    requires at > 0 ==> !Less(s.startTime, out[at - 1].startTime)
    requires forall k :: at <= k < |out| ==> Less(s.startTime, out[k].startTime)
    ensures SortedByStart(Inserted(out, at, s))
  {
    forall k | 0 <= k < at ensures !Less(s.startTime, out[k].startTime) {
      if k < at - 1 && Less(s.startTime, out[k].startTime) {
        var a, b, c := s.startTime, out[k].startTime, out[at - 1].startTime;
        LessIsTotal(b, c);
        if b != c { LessIsTransitive(a, b, c); }
      }
    }
    forall k | at <= k < |out| ensures !Less(out[k].startTime, s.startTime) {
      LessIsTotal(s.startTime, out[k].startTime);
    }
  }

  /** The rows taken out of the map so far, in order. */
  ghost predicate Laid(newest: map<string, Shift>, todo: set<string>, out: seq<Shift>) {
    && todo <= newest.Keys && SortedByStart(out) && NamesOnce(out)
    && (forall key :: HasName(out, key) <==> key in newest && key !in todo)
    && (forall i :: 0 <= i < |out| ==> NameKey(out[i]) in newest && newest[NameKey(out[i])] == out[i])
  }

  lemma NamesAfterInsert(out: seq<Shift>, at: nat, s: Shift, key: string)
    requires at <= |out|
    ensures HasName(Inserted(out, at, s), key) <==> HasName(out, key) || key == NameKey(s)
  {
    var r := Inserted(out, at, s);
    if HasName(out, key) {
      var i :| 0 <= i < |out| && NameKey(out[i]) == key;
      if i < at { assert r[i] == out[i]; } else { assert r[i + 1] == out[i]; }
    }
    if HasName(r, key) && key != NameKey(s) {
      var i :| 0 <= i < |r| && NameKey(r[i]) == key;
      if i < at { assert r[i] == out[i]; } else { assert r[i] == out[i - 1]; }
    }
  }

  lemma NamesStayOnce(out: seq<Shift>, at: nat, s: Shift)
    requires at <= |out| && NamesOnce(out) && !HasName(out, NameKey(s))
    ensures NamesOnce(Inserted(out, at, s))
  {}

  lemma LaidMore(newest: map<string, Shift>, todo: set<string>, out: seq<Shift>, key: string, at: nat)
    requires Laid(newest, todo, out) && key in todo && NameKey(newest[key]) == key && at <= |out|
    requires SortedByStart(Inserted(out, at, newest[key]))
    ensures Laid(newest, todo - {key}, Inserted(out, at, newest[key]))
  {
    NamesStayOnce(out, at, newest[key]);
    forall k ensures HasName(Inserted(out, at, newest[key]), k) <==> HasName(out, k) || k == key {
      NamesAfterInsert(out, at, newest[key], k);
    }
  }

  lemma AllLaid(shifts: seq<Shift>, date: string, newest: map<string, Shift>, out: seq<Shift>)
    requires NewestOf(shifts, date, |shifts|, newest) && Laid(newest, {}, out)
    ensures InForce(shifts, date, out)
  {}

  /** One row looked at. */
  method Look(newest: map<string, Shift>, sh: Shift, date: string) returns (r: map<string, Shift>)
    ensures r == Seen(newest, sh, date)
  {
    r := newest;
    if !sh.active || Less(date, sh.effectiveFrom) {
      return;
    }
    if sh.effectiveTo != "" && Less(sh.effectiveTo, date) {
      return;
    }
    var key := Lower(sh.name);
    if key !in newest || Less(newest[key].effectiveFrom, sh.effectiveFrom) {
      r := newest[key := sh];
    }
  }

  /** The loop over the rows: of each name the version that counts. */
  method NewestVersions(shifts: seq<Shift>, date: string) returns (newest: map<string, Shift>)
    ensures NewestOf(shifts, date, |shifts|, newest)
  {
    newest := map[];
    var i := 0;
    while i < |shifts|
      invariant 0 <= i <= |shifts| && NewestOf(shifts, date, i, newest)
    {
      NewestOfMore(shifts, date, i, newest);
      newest := Look(newest, shifts[i], date);
      i := i + 1;
    }
  }

  /** ShiftsInForceOn; the rows come out of the map in any order. */
  method ShiftsInForceOn(shifts: seq<Shift>, date: string) returns (out: seq<Shift>)
    ensures InForce(shifts, date, out)
  {
    var newest := NewestVersions(shifts, date);
    out := [];
    var todo := newest.Keys;
    while todo != {}
      invariant Laid(newest, todo, out)
      decreases |todo|
    {
      var key :| key in todo;
      var at: nat;
      ghost var before := out;
      out, at := Insert(out, newest[key]);
      LaidMore(newest, todo, before, key, at);
      todo := todo - {key};
    }
    AllLaid(shifts, date, newest, out);
  }
}
