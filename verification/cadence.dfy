/**
  The cadence policies of src/ecs/scheduler.rs and the test `dispatch`
  applies to them at a given tick.

  `EveryNTicks(n)` is tested as written, `n % tick == 0`: the system runs when
  the tick divides `n`, not when `n` divides the tick. The evidently intended
  test, `tick % n == 0`, is `ShouldRunIntended`.
*/
module Cadence {

  /** One more than the largest `u32`. */
  const U32_LIMIT: int := 0x1_0000_0000

  type U32 = n: nat | n < U32_LIMIT

  /** `ExecutionPolicy`. */
  datatype ExecutionPolicy = EveryTick | EveryNTicks(n: U32) | OnInitOnly | DontExecute | EventOnly

  /** `ExecutionTime`: an advisory cost class that `dispatch` never reads. */
  datatype ExecutionTime = VeryShort | Short | Average | Long | VeryLong

  /** `d` divides `m`. */
  ghost predicate Divides(d: nat, m: nat)
  {
    exists k: nat :: k * d == m
  }

  /** A positive multiple of `d` is at least `d`. */
  lemma {:induction false} AtLeastOnce(c: nat, d: nat)
    requires c >= 1
    ensures c * d >= d
    decreases c
  {
    if c > 1 {
      AtLeastOnce(c - 1, d);
      assert c * d == (c - 1) * d + d;
    }
  }

  /** Euclidean division is unique: a quotient and an in-range remainder are the ones `/` and `%` give. */
  lemma RemainderIsUnique(m: int, d: int, q: int, r: int)
    requires d > 0 && 0 <= r < d
    requires m == q * d + r
    ensures m % d == r
  {
    var q', r' := m / d, m % d;
    assert m == q' * d + r';
    assert (q - q') * d == r' - r;
    if q > q' {
      AtLeastOnce(q - q', d);
    } else if q < q' {
      AtLeastOnce(q' - q, d);
    }
  }

  /** A multiple of `d` leaves no remainder. */
  lemma MultipleHasNoRemainder(k: nat, d: nat)
    requires d > 0
    ensures (k * d) % d == 0
  {
    RemainderIsUnique(k * d, d, k, 0);
  }

  /** Divisibility is a zero remainder. */
  lemma DividesIffNoRemainder(d: nat, m: nat)
    requires d > 0
    ensures Divides(d, m) <==> m % d == 0
  {
    if Divides(d, m) {
      var k: nat :| k * d == m;
      MultipleHasNoRemainder(k, d);
    }
    if m % d == 0 {
      assert (m / d) * d == m;
    }
  }

  /**
    The gate of `dispatch` (scheduler.rs lines 40-50) at the already
    incremented tick. `%` by zero would panic, so the tick is at least 1.
  */
  function ShouldRun(policy: ExecutionPolicy, tick: nat): bool
    requires tick >= 1
  {
    match policy
    case EveryTick => true
    case EveryNTicks(n) => n % tick == 0
    case OnInitOnly => false
    case EventOnly => false
    case DontExecute => false
  }

  /** `EveryTick` always passes; `OnInitOnly`, `EventOnly` and `DontExecute` never do. */
  lemma PoliciesWithoutCadence(tick: nat)
    requires tick >= 1
    ensures ShouldRun(EveryTick, tick)
    ensures !ShouldRun(OnInitOnly, tick) && !ShouldRun(EventOnly, tick) && !ShouldRun(DontExecute, tick)
  {
  }

  /** As written, `EveryNTicks(n)` passes exactly at the ticks that divide `n`. */
  lemma LiteralCadenceIsTickDividesN(n: U32, tick: nat)
    requires tick >= 1
    ensures ShouldRun(EveryNTicks(n), tick) <==> Divides(tick, n)
  {
    DividesIffNoRemainder(tick, n);
  }

  /** As written, `EveryNTicks(n)` with `n > 0` never passes once the tick exceeds `n`. */
  lemma LiteralCadenceStopsAfterN(n: U32, tick: nat)
    requires 0 < n < tick
    ensures !ShouldRun(EveryNTicks(n), tick)
  {
  }

  /** As written, `EveryNTicks(0)` passes at every tick. */
  lemma LiteralCadenceZeroAlwaysRuns(tick: nat)
    requires tick >= 1
    ensures ShouldRun(EveryNTicks(0), tick)
  {
  }

  /** The gate as evidently intended: run on the ticks that are multiples of `n`, never for `n == 0`. */
  function ShouldRunIntended(policy: ExecutionPolicy, tick: nat): bool
    requires tick >= 1
  {
    match policy
    case EveryTick => true
    case EveryNTicks(n) => n > 0 && tick % n == 0
    case OnInitOnly => false
    case EventOnly => false
    case DontExecute => false
  }

  /**
    The intended gate passes exactly at the multiples of `n`, so it repeats
    with period `n`, and agrees with the written gate on every other policy.
  */
  lemma IntendedCadenceIsEveryNthTick(p: ExecutionPolicy, n: U32, tick: nat)
    requires tick >= 1
    ensures ShouldRunIntended(EveryNTicks(n), tick) <==> n > 0 && Divides(n, tick)
    ensures n > 0 ==> (ShouldRunIntended(EveryNTicks(n), tick) <==> ShouldRunIntended(EveryNTicks(n), tick + n))
    ensures n > 0 ==> ShouldRunIntended(EveryNTicks(n), n * tick)
    ensures !p.EveryNTicks? ==> ShouldRunIntended(p, tick) == ShouldRun(p, tick)
  {
    if n > 0 {
      DividesIffNoRemainder(n, tick);
      DividesIffNoRemainder(n, tick + n);
      DividesIffNoRemainder(n, n * tick);
      if Divides(n, tick) {
        var k: nat :| k * n == tick;
        assert (k + 1) * n == tick + n;
      }
      if Divides(n, tick + n) {
        var k: nat :| k * n == tick + n;
        assert k >= 1;
        assert (k - 1) * n == tick;
      }
      assert tick * n == n * tick;
    }
  }

  /**
    The written and intended gates disagree: with `n == 2` the written one
    passes at tick 1 and not at tick 4, the intended one the other way round.
  */
  lemma LiteralCadenceDisagreesWithIntent()
    ensures ShouldRun(EveryNTicks(2), 1) && !ShouldRunIntended(EveryNTicks(2), 1)
    ensures !ShouldRun(EveryNTicks(2), 4) && ShouldRunIntended(EveryNTicks(2), 4)
  {
  }
}
