// The retry delay of internal/queue/postgres.go, in 64-bit two's complement.
module Backoff {
  import opened Common

  const TWO63: int := 0x8000_0000_0000_0000
  const TWO64: int := 0x1_0000_0000_0000_0000

  function Pow2(k: nat): (p: nat)
    ensures p >= 1
  {
    if k == 0 then 1 else 2 * Pow2(k - 1)
  }

  /** The int64 congruent to `x` modulo 2^64. */
  function Wrap(x: int): int {
    (x + TWO63) % TWO64 - TWO63
  }

  /** Go's `x << k` on an int64. */
  function Shl(x: int, k: nat): int {
    Wrap(x * Pow2(k))
  }

  /** A duration setting: positive and an int64. */
  predicate Duration(d: int) {
    0 < d < TWO63
  }

  /** The value `d` after the guard. */
  function Ceiling(base: int, max: int, attempts: int): int
    requires attempts >= 1
  {
    var d := Shl(base, attempts - 1);
    if d <= 0 || d > max then max else d
  }

  /** The delay for a draw `jitter`, uniform in 0..d/2. */
  function Delay(base: int, max: int, attempts: int, jitter: int): int
    requires attempts >= 1
  {
    Ceiling(base, max, attempts) / 2 + jitter
  }

  predicate IsJitter(base: int, max: int, attempts: int, jitter: int)
    requires attempts >= 1
  {
    0 <= jitter <= Ceiling(base, max, attempts) / 2
  }

  /** The promised ceiling, over unbounded integers. */
  function Ideal(base: int, max: int, attempts: int): int
    requires attempts >= 1
  {
    Min(base * Pow2(attempts - 1), max)
  }

  // ---------- powers of two ----------

  lemma {:induction false} Pow2Adds(a: nat, b: nat)
    ensures Pow2(a + b) == Pow2(a) * Pow2(b)
  {
    if b != 0 {
      Pow2Adds(a, b - 1);
      assert a + b - 1 == a + (b - 1);
      var p, q := Pow2(a), Pow2(b - 1);
      assert 2 * (p * q) == p * (2 * q);
    }
  }

  lemma Pow2Grows(a: nat, b: nat)
    requires a <= b
    ensures Pow2(a) <= Pow2(b)
  {
    Pow2Adds(a, b - a);
    var p, q := Pow2(a), Pow2(b - a);
    assert p * q >= p * 1;
  }

  lemma SmallPowers()
    ensures Pow2(10) == 0x400 && Pow2(16) == 0x1_0000
  {
    assert Pow2(5) == 32;
    Pow2Adds(5, 5);
    Pow2Adds(10, 5);
    Pow2Adds(15, 1);
  }

  lemma Pow2Values()
    ensures Pow2(10) == 0x400 && Pow2(32) == 0x1_0000_0000
    ensures Pow2(43) == 0x800_0000_0000 && Pow2(64) == TWO64
  {
    SmallPowers();
    Pow2Adds(16, 16);
    assert Pow2(1) == 2;
    Pow2Adds(32, 1);
    Pow2Adds(33, 10);
    Pow2Adds(32, 32);
  }

  lemma Multiply(a: int, b: int, c: int)
    requires a <= b && c >= 0
    ensures a * c <= b * c
  {
  }

  // ---------- wrap-around ----------

  /** Two's complement: the result is an int64, and off by a multiple of 2^64. */
  lemma WrapIsInt64(x: int)
    ensures -TWO63 <= Wrap(x) < TWO63
    ensures exists q :: Wrap(x) == x - q * TWO64
  {
    WrapSubtracts(x);
  }

  lemma WrapKeepsSmall(x: int)
    requires 0 <= x < TWO63
    ensures Wrap(x) == x
  {
  }

  lemma WrapSubtracts(x: int)
    ensures Wrap(x) == x - (x + TWO63) / TWO64 * TWO64
  {
  }

  lemma FactorOut(o: int, p: int, t: int, r: int)
    ensures o * p - t * (p * r) == (o - t * r) * p
  {
    assert t * (p * r) == (t * r) * p;
  }

  /** A wrapped multiple of 2^j is still one. */
  lemma WrapKeepsFactor(o: int, j: nat) returns (q: int)
    requires j <= 64
    ensures Wrap(o * Pow2(j)) == q * Pow2(j)
  {
    var x := o * Pow2(j);
    var t := (x + TWO63) / TWO64;
    WrapSubtracts(x);
    Pow2Adds(j, 64 - j);
    Pow2Values();
    FactorOut(o, Pow2(j), t, Pow2(64 - j));
    q := o - t * Pow2(64 - j);
  }

  lemma FarShiftsVanish(x: int, k: nat)
    requires k >= 64
    ensures Shl(x, k) == 0
  {
    Pow2Adds(k - 64, 64);
    Pow2Values();
    var p, q := Pow2(k - 64), x * Pow2(k - 64);
    assert x * (p * TWO64) == q * TWO64;
    assert (q * TWO64 + TWO63) % TWO64 == TWO63;
  }

  // ---------- the delay ----------

  /** Unconditionally the delay is between 0 and the cap. */
  lemma DelayIsCapped(base: int, max: int, attempts: int, jitter: int)
    requires attempts >= 1 && Duration(max) && IsJitter(base, max, attempts, jitter)
    ensures 0 <= Delay(base, max, attempts, jitter) <= max
    ensures var c := Ceiling(base, max, attempts);
            c / 2 <= Delay(base, max, attempts, jitter) <= c
  {
  }

  /** Over all legal draws the delay takes each value from half of the ceiling up to twice
      that half, each for exactly one draw, and no other. */
  lemma DrawsCoverTheUpperHalf(base: int, max: int, attempts: int, delay: int)
    requires attempts >= 1 && Duration(max)
    ensures var half := Ceiling(base, max, attempts) / 2;
            half <= delay <= 2 * half <==>
              exists j :: IsJitter(base, max, attempts, j) && Delay(base, max, attempts, j) == delay
    ensures forall j, k :: Delay(base, max, attempts, j) == Delay(base, max, attempts, k) ==> j == k
  {
    var half := Ceiling(base, max, attempts) / 2;
    if half <= delay <= 2 * half {
      assert IsJitter(base, max, attempts, delay - half);
    }
  }

  /** The shift by `k` either does not overflow, or overflows to a value the guard
      replaces by the cap. */
  predicate ShiftIsSafe(base: int, max: int, k: nat) {
    base * Pow2(k) >= TWO63 ==> Shl(base, k) <= 0 || Shl(base, k) >= max
  }

  /** The guard catches every overflow of these settings. */
  predicate GuardCatchesOverflow(base: int, max: int) {
    forall k :: 0 <= k < 64 ==> ShiftIsSafe(base, max, k)
  }

  lemma CeilingAtShift(base: int, max: int, k: nat)
    requires Duration(base) && Duration(max)
    ensures Ceiling(base, max, k + 1) == Ideal(base, max, k + 1) <==> ShiftIsSafe(base, max, k)
  {
    var x := base * Pow2(k);
    Multiply(1, Pow2(k), base);
    if x < TWO63 {
      WrapKeepsSmall(x);
    }
  }

  /** The ceiling is min(base * 2^(attempts-1), max) at every attempt if and only if the
      guard catches the overflows among the first 64 shifts. */
  lemma BackoffIsExponentialExactlyWhenGuarded(base: int, max: int)
    requires Duration(base) && Duration(max)
    ensures (forall n :: n >= 1 ==> Ceiling(base, max, n) == Ideal(base, max, n)) <==> GuardCatchesOverflow(base, max)
  {
    if GuardCatchesOverflow(base, max) {
      forall n | n >= 1 ensures Ceiling(base, max, n) == Ideal(base, max, n) {
        CeilingAtShift(base, max, n - 1);
        if n - 1 >= 64 {
          FarShiftsVanish(base, n - 1);
        }
      }
    }
    if forall n :: n >= 1 ==> Ceiling(base, max, n) == Ideal(base, max, n) {
      forall k | 0 <= k < 64 ensures ShiftIsSafe(base, max, k) {
        CeilingAtShift(base, max, k);
        assert Ceiling(base, max, k + 1) == Ideal(base, max, k + 1);
      }
    }
  }

  /** A sufficient condition: base is a multiple of 2^v, `first` is the first shift that
      overflows, and the cap does not exceed 2^(first + v). */
  lemma EvenBasesAreGuarded(base: int, max: int, odd: int, v: nat, first: nat)
    requires Duration(base) && Duration(max) && base == odd * Pow2(v)
    requires forall k: nat :: base * Pow2(k) >= TWO63 ==> k >= first
    requires max <= Pow2(first + v)
    ensures GuardCatchesOverflow(base, max)
  {
    forall k | 0 <= k < 64 ensures ShiftIsSafe(base, max, k) {
      if base * Pow2(k) >= TWO63 {
        EvenShiftIsSafe(base, max, odd, v, first, k);
      }
    }
  }

  lemma EvenShiftIsSafe(base: int, max: int, odd: int, v: nat, first: nat, k: nat)
    requires base == odd * Pow2(v) && first <= k && max <= Pow2(first + v)
    ensures Shl(base, k) <= 0 || Shl(base, k) >= max
  {
    Pow2Adds(v, k);
    Regroup(odd, Pow2(v), Pow2(k));
    assert Shl(base, k) == Shl(odd, v + k);
    if v + k >= 64 {
      FarShiftsVanish(odd, v + k);
    } else {
      var q := WrapKeepsFactor(odd, v + k);
      if q >= 1 {
        Multiply(1, q, Pow2(v + k));
        Pow2Grows(first + v, v + k);
      } else {
        Multiply(q, 0, Pow2(v + k));
      }
    }
  }

  lemma Regroup(a: int, b: int, c: int)
    ensures a * b * c == a * (b * c)
  {
  }

  const SECOND := 1_000_000_000

  /** The default settings, 2s doubling up to 5m. */
  lemma DefaultsAreGuarded()
    ensures GuardCatchesOverflow(2 * SECOND, 300 * SECOND)
  {
    Pow2Values();
    forall k: nat | 2 * SECOND * Pow2(k) >= TWO63 ensures k >= 33 {
      if k < 33 {
        Pow2Grows(k, 32);
      }
    }
    EvenBasesAreGuarded(2 * SECOND, 300 * SECOND, 1_953_125, 10, 33);
  }

  /** Settings that break the promise: with a base of 4.294967297s and a cap of 5m, attempt
      33 wraps around to 4.29s. */
  lemma OverflowCanSlipThrough()
    ensures Ceiling(4_294_967_297, 300 * SECOND, 33) == 4_294_967_296
    ensures Ideal(4_294_967_297, 300 * SECOND, 33) == 300 * SECOND
  {
    Pow2Values();
  }

  lemma {:induction false} IdealIsMonotone(base: int, max: int, a: int, b: int)
    requires Duration(base) && 1 <= a <= b
    ensures Ideal(base, max, a) <= Ideal(base, max, b)
  {
    Pow2Grows(a - 1, b - 1);
    Multiply(Pow2(a - 1), Pow2(b - 1), base);
  }

  /** With guarded settings the delay is at least half of, and at most, the promised
      ceiling, which never falls from one attempt to the next. */
  lemma DelayFollowsTheIdeal(base: int, max: int, attempts: int, jitter: int)
    requires Duration(base) && Duration(max) && GuardCatchesOverflow(base, max)
    requires attempts >= 1 && IsJitter(base, max, attempts, jitter)
    ensures var c := Ideal(base, max, attempts);
            c / 2 <= Delay(base, max, attempts, jitter) <= c <= Ideal(base, max, attempts + 1)
  {
    BackoffIsExponentialExactlyWhenGuarded(base, max);
    assert Ceiling(base, max, attempts) == Ideal(base, max, attempts);
    IdealIsMonotone(base, max, attempts, attempts + 1);
  }
}
