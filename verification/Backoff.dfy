/**
  Retry delays of the outbox publisher (internal/outbox/outbox.go). Durations
  are nanoseconds in a signed 64-bit integer, so products wrap around.
 */
module Backoff {

  const SECOND: int := 1_000_000_000
  const MILLISECOND: int := 1_000_000
  const TWO64: int := 0x1_0000_0000_0000_0000
  const TWO63: int := 0x8000_0000_0000_0000
  const MAX_BACKOFF: int := 5 * 60 * SECOND
  const TICK: int := 2 * SECOND
  const IDLE_MAX: int := 8 * SECOND

  function Wrap64(x: int): (r: int)
    ensures -TWO63 <= r < TWO63
  {
    (x + TWO63) % TWO64 - TWO63
  }

  function Pow2(n: nat): (r: int)
    ensures r >= 1
  {
    if n == 0 then 1 else 2 * Pow2(n - 1)
  }

  /** A power of two as a float converted to a 64-bit integer; out of range
      gives the smallest integer. */
  function FloatPow2ToInt64(n: nat): int {
    if n < 63 then Pow2(n) else -TWO63
  }

  /** backoffFor with the publisher's ceiling of five minutes. */
  function BackoffFor(attempts: int): int {
    var a := if attempts < 1 then 1 else attempts;
    var d := Wrap64(FloatPow2ToInt64(a) * SECOND);
    if d > MAX_BACKOFF then MAX_BACKOFF else d
  }

  /** A duration in whole milliseconds, truncated toward zero. */
  function Milliseconds(d: int): int {
    if d >= 0 then d / MILLISECOND else -((-d) / MILLISECOND)
  }

  /** How much later a failed row is due again. */
  function RetryDelay(attempts: int): int {
    Milliseconds(BackoffFor(attempts)) * MILLISECOND
  }

  lemma {:induction false} Pow2Monotone(a: nat, b: nat)
    requires a <= b
    ensures Pow2(a) <= Pow2(b)
    decreases b
  {
    if a < b {
      Pow2Monotone(a, b - 1);
    }
  }

  lemma WrapSmall(x: int)
    requires -TWO63 <= x < TWO63
    ensures Wrap64(x) == x
  {}

  /** The attempts whose delay is at least a second: the first 33, and eight
      later ones whose wrapped product happens to be large. */
  predicate BacksOff(attempts: int) {
    attempts <= 33 || attempts in {37, 41, 42, 45, 47, 50, 51, 53}
  }

  lemma Pow2Values()
    ensures Pow2(33) == 0x200000000
    ensures Pow2(34) == 0x400000000
    ensures Pow2(35) == 0x800000000
    ensures Pow2(36) == 0x1000000000
    ensures Pow2(37) == 0x2000000000
    ensures Pow2(38) == 0x4000000000
    ensures Pow2(39) == 0x8000000000
    ensures Pow2(40) == 0x10000000000
    ensures Pow2(41) == 0x20000000000
    ensures Pow2(42) == 0x40000000000
    ensures Pow2(43) == 0x80000000000
    ensures Pow2(44) == 0x100000000000
    ensures Pow2(45) == 0x200000000000
    ensures Pow2(46) == 0x400000000000
    ensures Pow2(47) == 0x800000000000
    ensures Pow2(48) == 0x1000000000000
    ensures Pow2(49) == 0x2000000000000
    ensures Pow2(50) == 0x4000000000000
    ensures Pow2(51) == 0x8000000000000
    ensures Pow2(52) == 0x10000000000000
    ensures Pow2(53) == 0x20000000000000
    ensures Pow2(54) == 0x40000000000000
    ensures Pow2(55) == 0x80000000000000
  {
    Pow2Plus8(0);
    Pow2Plus8(8);
    Pow2Plus8(16);
    Pow2Plus8(24);
    Pow2Plus8(32);
    Pow2Plus8(40);
    assert Pow2(33) == 2 * Pow2(32);
    assert Pow2(49) == 2 * Pow2(48);
  }

  lemma Pow2Plus8(n: nat)
    ensures Pow2(n + 1) == 2 * Pow2(n) && Pow2(n + 2) == 4 * Pow2(n) && Pow2(n + 3) == 8 * Pow2(n)
    ensures Pow2(n + 4) == 16 * Pow2(n) && Pow2(n + 5) == 32 * Pow2(n) && Pow2(n + 6) == 64 * Pow2(n)
    ensures Pow2(n + 7) == 128 * Pow2(n) && Pow2(n + 8) == 256 * Pow2(n)
  {}

  lemma EarlyBackoff(attempts: int)
    requires attempts <= 33
    ensures 2 * SECOND <= BackoffFor(attempts) <= MAX_BACKOFF
  {
    var a := if attempts < 1 then 1 else attempts;
    Pow2Monotone(1, a);
    Pow2Monotone(a, 33);
    Pow2Values();
    WrapSmall(Pow2(a) * SECOND);
  }

  /** From 2^55 on the product is a multiple of 2^64. */
  lemma {:induction false} Pow2Multiple(n: nat) returns (q: int)
    requires n >= 55
    ensures Pow2(n) == q * 0x80_0000_0000_0000
    decreases n
  {
    Pow2Values();
    if n == 55 {
      q := 1;
    } else {
      var h := Pow2Multiple(n - 1);
      q := 2 * h;
    }
  }

  lemma LateBackoff(attempts: int)
    requires attempts >= 55
    ensures BackoffFor(attempts) == 0
  {
    if attempts < 63 {
      var q := Pow2Multiple(attempts);
      assert FloatPow2ToInt64(attempts) * SECOND == (q * 1953125) * TWO64;
      WrapMultiple(q * 1953125);
    } else {
      WrapMultiple(-500_000_000);
    }
  }

  lemma WrapMultiple(q: int)
    ensures Wrap64(q * TWO64) == 0
  {}

  lemma WrapTo(a: nat, q: int, r: int)
    requires a < 63 && Pow2(a) * SECOND == q * TWO64 + r && -TWO63 <= r < TWO63
    ensures Wrap64(FloatPow2ToInt64(a) * SECOND) == r
  {}

  lemma MiddleBackoff(a: int)
    requires 34 <= a <= 54
    ensures if BacksOff(a) then BackoffFor(a) == MAX_BACKOFF else BackoffFor(a) < 0
  {
    Pow2Values();
    if a == 34 { WrapTo(a, 1, -1266874889709551616); } else
    if a == 35 { WrapTo(a, 2, -2533749779419103232); } else
    if a == 36 { WrapTo(a, 4, -5067499558838206464); } else
    if a == 37 { WrapTo(a, 7, 8311744956033138688); } else
    if a == 38 { WrapTo(a, 15, -1823254161643274240); } else
    if a == 39 { WrapTo(a, 30, -3646508323286548480); } else
    if a == 40 { WrapTo(a, 60, -7293016646573096960); } else
    if a == 41 { WrapTo(a, 119, 3860710780563357696); } else
    if a == 42 { WrapTo(a, 238, 7721421561126715392); } else
    if a == 43 { WrapTo(a, 477, -3003900951456120832); } else
    if a == 44 { WrapTo(a, 954, -6007801902912241664); } else
    if a == 45 { WrapTo(a, 1907, 6431140267885068288); } else
    if a == 46 { WrapTo(a, 3815, -5584463537939415040); } else
    if a == 47 { WrapTo(a, 7629, 7277816997830721536); } else
    if a == 48 { WrapTo(a, 15259, -3891110078048108544); } else
    if a == 49 { WrapTo(a, 30518, -7782220156096217088); } else
    if a == 50 { WrapTo(a, 61035, 2882303761517117440); } else
    if a == 51 { WrapTo(a, 122070, 5764607523034234880); } else
    if a == 52 { WrapTo(a, 244141, -6917529027641081856); } else
    if a == 53 { WrapTo(a, 488281, 4611686018427387904); } else
    if a == 54 { WrapTo(a, 976563, -9223372036854775808); }
  }

  /** A failed row waits at most five minutes, always; and at least a second
      exactly for the attempts that back off. The others are due at once. */
  lemma RetryDelayBounds(attempts: int)
    ensures RetryDelay(attempts) <= MAX_BACKOFF
    ensures BacksOff(attempts) <==> RetryDelay(attempts) >= SECOND
    ensures !BacksOff(attempts) ==> RetryDelay(attempts) <= 0
  {
    if attempts <= 33 {
      EarlyBackoff(attempts);
    } else if attempts <= 54 {
      MiddleBackoff(attempts);
    } else {
      LateBackoff(attempts);
    }
  }

  /** Two seconds, and twice as long after each further failure, up to five minutes. */
  function Wait(attempts: int): int {
    if attempts <= 1 then 2_000_000_000
    else if 2 * Wait(attempts - 1) <= 300_000_000_000 then 2 * Wait(attempts - 1)
    else 300_000_000_000
  }

  lemma {:induction false} WaitIsPow2(attempts: nat)
    requires attempts >= 1
    ensures Wait(attempts) == (if Pow2(attempts) * SECOND <= MAX_BACKOFF then Pow2(attempts) * SECOND else MAX_BACKOFF)
    decreases attempts
  {
    if attempts > 1 {
      WaitIsPow2(attempts - 1);
    }
  }

  lemma EarlyDelay(attempts: int)
    requires attempts <= 33
    ensures RetryDelay(attempts) == Wait(attempts)
  {
    var a := if attempts < 1 then 1 else attempts;
    Pow2Monotone(a, 33);
    Pow2Values();
    WrapSmall(Pow2(a) * SECOND);
    WaitIsPow2(a);
  }

  /** A failed row waits two seconds, and twice as long with each further attempt up to
      five minutes; from the 34th on it waits those or, when the product wrapped, not
      at all. */
  lemma RetryDelayDoubles(attempts: int)
    ensures attempts <= 1 ==> RetryDelay(attempts) == 2_000_000_000
    ensures 1 <= attempts < 33 ==>
      RetryDelay(attempts + 1)
      == if 2 * RetryDelay(attempts) < 300_000_000_000 then 2 * RetryDelay(attempts) else 300_000_000_000
    ensures attempts in {37, 41, 42, 45, 47, 50, 51, 53} ==> RetryDelay(attempts) == 300_000_000_000
    ensures attempts > 33 && attempts !in {37, 41, 42, 45, 47, 50, 51, 53} ==> RetryDelay(attempts) <= 0
  {
    RetryDelayBounds(attempts);
    if attempts <= 33 {
      EarlyDelay(attempts);
      if attempts < 33 { EarlyDelay(attempts + 1); }
    } else if attempts <= 54 {
      MiddleBackoff(attempts);
    }
  }

  // ---------------------------------------------------------------------------
  // The poll interval
  // ---------------------------------------------------------------------------

  /** nextOutboxInterval: the poll interval after a poll that found nothing. */
  function NextInterval(current: int, base: int): int {
    var c := if current < base then base else current;
    if c * 2 < IDLE_MAX then c * 2 else IDLE_MAX
  }

  /** The interval after some polls, each of which found work or did not. */
  function IntervalAfter(polls: seq<bool>): int {
    if polls == [] || polls[|polls| - 1] then TICK else NextInterval(IntervalAfter(polls[..|polls| - 1]), TICK)
  }

  /** A publisher polls again after two seconds when it found work, and after four and
      then eight seconds, and no more, when it finds none. */
  lemma {:induction false} IdlePollsSettle(polls: seq<bool>)
    ensures IntervalAfter(polls)
         == (if polls == [] || polls[|polls| - 1] then 2_000_000_000
             else if |polls| == 1 || polls[|polls| - 2] then 4_000_000_000
             else 8_000_000_000)
    decreases |polls|
  {
    if polls != [] {
      IdlePollsSettle(polls[..|polls| - 1]);
    }
  }
}
