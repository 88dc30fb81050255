/**
  The delay between polls (internal/controller/backoff.go).

  Durations are int64 nanoseconds; every product the loop forms is shown to stay in range. A float64
  operation is its real result rounded by a parameter, with the relative error float64 allows.
 */
module Backoff {
  import opened Powers

  const MAX_INT64 := 0x7fff_ffff_ffff_ffff

  predicate IsDuration(d: int) { -MAX_INT64 - 1 <= d <= MAX_INT64 }

  /** The configuration is validated to have a positive MaxBackoff; the poll interval is positive too. */
  predicate ValidConfig(poll: int, maxBackoff: int) {
    0 < poll <= MAX_INT64 && 0 < maxBackoff <= MAX_INT64
  }

  function Min(a: int, b: int): int { if a <= b then a else b }

  /** The uncapped delay after `n` errors in a row: the poll interval doubled n - 1 times. */
  function Doubled(poll: nat, n: nat): nat
    requires n >= 1
  {
    poll * Pow2(n - 1)
  }

  /** The delay before jitter: capped doubling, except that one nanosecond short of the cap counts as the cap. */
  function Delay(poll: nat, maxBackoff: int, n: nat): int
    requires n >= 1
  {
    if n >= 2 && Doubled(poll, n) == maxBackoff - 1 then maxBackoff else Min(Doubled(poll, n), maxBackoff)
  }

  lemma DoubledStep(poll: nat, n: nat)
    requires n >= 1
    ensures Doubled(poll, n + 1) == 2 * Doubled(poll, n)
  {
    assert Pow2(n) == 2 * Pow2(n - 1);
  }

  lemma {:induction false} DoubledGrows(poll: nat, m: nat, n: nat)
    requires 1 <= m < n && poll > 0
    ensures 2 * Doubled(poll, m) <= Doubled(poll, n)
    ensures exists h: nat :: Doubled(poll, n) == 2 * h
    decreases n
  {
    DoubledStep(poll, n - 1);
    if m < n - 1 { DoubledGrows(poll, m, n - 1); }
  }

  /** The doubling loop; `d *= 2` never leaves the range of int64. */
  method ComputeBase(poll: int, maxBackoff: int, errorCount: int) returns (d: int)
    requires ValidConfig(poll, maxBackoff)
    ensures IsDuration(d)
    ensures errorCount <= 0 ==> d == poll
    ensures errorCount >= 1 ==> d == Delay(poll, maxBackoff, errorCount)
  {
    d := poll;
    if errorCount <= 0 { return; }
    var i := 1;
    while i < errorCount
      invariant 1 <= i <= errorCount
      invariant d == Doubled(poll, i) && 0 < d <= MAX_INT64
      invariant i > 1 ==> d <= maxBackoff && d != maxBackoff - 1
    {
      DoubledStep(poll, i);
      if d >= maxBackoff / 2 {
        ReachedTheCap(poll, maxBackoff, i, errorCount);
        d := maxBackoff;
        break;
      }
      assert IsDuration(d * 2);
      d := d * 2;
      i := i + 1;
    }
    if d > maxBackoff { d := maxBackoff; }
  }

  /** Once half the cap is reached every longer streak of errors waits for the cap. */
  lemma ReachedTheCap(poll: nat, maxBackoff: int, i: nat, n: nat)
    requires poll > 0 && 1 <= i < n && Doubled(poll, i) >= maxBackoff / 2
    ensures Delay(poll, maxBackoff, n) == maxBackoff
  {
    DoubledGrows(poll, i, n);
  }

  // ---------------------------------------------------------------------------------------------
  // Jitter in float64

  /** Half a unit in the last place: 2^-53. */
  const EPSILON := 1.0 / 9007199254740992.0

  /** The range of the jittered delay, as multiples of the delay, once every operation has rounded. */
  const LOW := 0.8 * (1.0 - 8.0 * EPSILON)
  const HIGH := 1.2 * (1.0 + 8.0 * EPSILON)

  /** The same for the factor alone. */
  const FACTOR_LOW := 0.8 * (1.0 - 4.0 * EPSILON)
  const FACTOR_HIGH := 1.2 * (1.0 + 4.0 * EPSILON)

  predicate Near(x: real, y: real) { x * (1.0 - EPSILON) <= y <= x * (1.0 + EPSILON) }

  ghost predicate RoundsWell(f: real -> real) { forall x :: x >= 0.0 ==> Near(x, f(x)) }

  /** The rounding of a float64 operation, to nearest or any other way within the allowed error. */
  type Rounding = f: real -> real | RoundsWell(f) ghost witness (x => x)

  /** 0.8 + r * 0.4, with the constants and both operations rounded. */
  function Factor(fl: Rounding, r: real): real {
    fl(fl(0.8) + fl(r * fl(0.4)))
  }

  lemma FactorBounds(fl: Rounding, r: real)
    requires 0.0 <= r <= 1.0
    ensures FACTOR_LOW <= Factor(fl, r) <= FACTOR_HIGH
  {
    var q := fl(r * fl(0.4));
    ScaledJitter(fl, r);
    assert Near(0.8, fl(0.8)) && Near(fl(0.8) + q, fl(fl(0.8) + q));
    SumBounds(fl(0.8), q, Factor(fl, r));
  }

  lemma ScaledJitter(fl: Rounding, r: real)
    requires 0.0 <= r <= 1.0
    ensures 0.0 <= fl(r * fl(0.4)) <= 0.4 * (1.0 + 2.5 * EPSILON)
  {
    assert Near(0.4, fl(0.4)) && 0.0 <= fl(0.4);
    assert 0.0 <= r * fl(0.4) by { ProductBounds(r, 0.0, 1.0, fl(0.4), 0.0, fl(0.4)); }
    RoundedJitter(r, fl(0.4), r * fl(0.4), fl(r * fl(0.4)));
  }

  lemma RoundedJitter(r: real, c: real, p: real, q: real)
    requires 0.0 <= r <= 1.0 && Near(0.4, c) && p == r * c && Near(p, q)
    ensures 0.0 <= q <= 0.4 * (1.0 + 2.5 * EPSILON)
  {
    assert 0.0 <= c <= 0.4 * (1.0 + EPSILON);
    assert 0.0 <= p <= c by { ProductBounds(r, 0.0, 1.0, c, 0.0, c); }
    ProductBounds(p, 0.0, c, 1.0 - EPSILON, 0.0, 1.0 - EPSILON);
  }

  lemma SumBounds(c: real, q: real, f: real)
    requires Near(0.8, c) && 0.0 <= q <= 0.4 * (1.0 + 2.5 * EPSILON) && Near(c + q, f)
    ensures FACTOR_LOW <= f <= FACTOR_HIGH
  {
  }

  /** The jittered delay, before it is cut to whole nanoseconds. */
  function Jittered(fl: Rounding, base: nat, r: real): real {
    RoundedProduct(fl, base as real, Factor(fl, r))
  }

  /** A number converted to float64 and multiplied. */
  function RoundedProduct(fl: Rounding, b: real, y: real): real { fl(fl(b) * y) }

  lemma ProductBounds(x: real, lo: real, hi: real, y: real, ylo: real, yhi: real)
    requires 0.0 <= lo <= x <= hi && 0.0 <= ylo <= y <= yhi
    ensures lo * ylo <= x * y <= hi * yhi
  {
    assert lo * ylo <= x * ylo <= x * y;
    assert x * y <= hi * y <= hi * yhi;
  }

  /** `z` lies between two multiples of `b`. */
  predicate Within(b: real, lo: real, hi: real, z: real) { b * lo <= z <= b * hi }

  lemma RoundedWithin(fl: Rounding, b: real, lo: real, hi: real, z: real, lo': real, hi': real)
    requires b >= 0.0 && lo >= 0.0 && Within(b, lo, hi, z) && lo' <= lo * (1.0 - EPSILON) && hi * (1.0 + EPSILON) <= hi'
    ensures Within(b, lo', hi', fl(z))
  {
    assert b * lo >= 0.0;
    assert Near(z, fl(z));
    assert b * (lo * (1.0 - EPSILON)) == (b * lo) * (1.0 - EPSILON) <= fl(z);
    assert b * (hi * (1.0 + EPSILON)) == (b * hi) * (1.0 + EPSILON) >= fl(z);
    assert b * lo' <= b * (lo * (1.0 - EPSILON)) && b * (hi * (1.0 + EPSILON)) <= b * hi';
  }

  lemma ProductWithin(b: real, lo: real, hi: real, x: real, ylo: real, yhi: real, y: real, zlo: real, zhi: real)
    requires b >= 0.0 && lo >= 0.0 && Within(b, lo, hi, x) && 0.0 <= ylo <= y <= yhi
    requires zlo <= lo * ylo && hi * yhi <= zhi
    ensures Within(b, zlo, zhi, x * y)
  {
    assert b * lo >= 0.0;
    ProductBounds(x, b * lo, b * hi, y, ylo, yhi);
    assert (b * lo) * ylo == b * (lo * ylo) >= b * zlo;
    assert (b * hi) * yhi == b * (hi * yhi) <= b * zhi;
  }

  lemma TwoRoundings(fl: Rounding, b: real, ylo: real, yhi: real, y: real, lo: real, hi: real)
    requires b >= 0.0 && 0.0 <= ylo <= y <= yhi
    requires lo <= (1.0 - EPSILON) * ylo * (1.0 - EPSILON) && (1.0 + EPSILON) * yhi * (1.0 + EPSILON) <= hi
    ensures Within(b, lo, hi, RoundedProduct(fl, b, y))
  {
    var d, u := 1.0 - EPSILON, 1.0 + EPSILON;
    assert Within(b, d, u, fl(b)) by { assert Near(b, fl(b)); }
    assert Within(b, d * ylo, u * yhi, fl(b) * y) by { ProductWithin(b, d, u, fl(b), ylo, yhi, y, d * ylo, u * yhi); }
    RoundedWithin(fl, b, d * ylo, u * yhi, fl(b) * y, lo, hi);
  }

  lemma RoomForTwo()
    ensures LOW <= (1.0 - EPSILON) * FACTOR_LOW * (1.0 - EPSILON)
    ensures (1.0 + EPSILON) * FACTOR_HIGH * (1.0 + EPSILON) <= HIGH
  {
  }

  lemma JitterBounds(fl: Rounding, base: nat, r: real)
    requires 0.0 <= r <= 1.0
    ensures Within(base as real, LOW, HIGH, Jittered(fl, base, r))
  {
    FactorBounds(fl, r);
    RoomForTwo();
    TwoRoundings(fl, base as real, FACTOR_LOW, FACTOR_HIGH, Factor(fl, r), LOW, HIGH);
  }

  /** computeBackoffDuration with jitter `r` in [0, 1]: the delay before jitter and the wait in whole nanoseconds. */
  method ComputeBackoff(fl: Rounding, poll: int, maxBackoff: int, errorCount: int, r: real)
    returns (base: int, wait: int)
    requires ValidConfig(poll, maxBackoff) && 0.0 <= r <= 1.0
    ensures errorCount <= 0 ==> base == poll && wait == poll
    // the conversion to a duration drops a fraction of a nanosecond
    ensures errorCount >= 1 ==>
              && base == Delay(poll, maxBackoff, errorCount) && 0 < base <= maxBackoff
              && (base as real) * LOW - 1.0 < wait as real <= (base as real) * HIGH
    ensures wait >= 0
    // the wait fits a duration unless the cap is itself within about a fifth of the limit
    ensures errorCount >= 1 && (maxBackoff as real) * HIGH <= MAX_INT64 as real ==> wait <= MAX_INT64
  {
    base := ComputeBase(poll, maxBackoff, errorCount);
    if errorCount <= 0 { return base, base; }
    DelayBounds(poll, maxBackoff, errorCount);
    JitterBounds(fl, base, r);
    ProductBounds(base as real, 0.0, maxBackoff as real, HIGH, 0.0, HIGH);
    assert 0.0 <= (base as real) * LOW;
    wait := Jittered(fl, base, r).Floor;
  }

  lemma DelayBounds(poll: nat, maxBackoff: int, n: nat)
    requires poll > 0 && maxBackoff > 0 && n >= 1
    ensures 0 < Delay(poll, maxBackoff, n) <= maxBackoff
  {
    assert poll * Pow2(n - 1) >= poll;
  }

  /** More errors never mean a shorter wait. */
  lemma Monotone(poll: nat, maxBackoff: int, m: nat, n: nat)
    requires poll > 0 && maxBackoff > 0 && 1 <= m <= n
    ensures Delay(poll, maxBackoff, m) <= Delay(poll, maxBackoff, n)
  {
    DelayBounds(poll, maxBackoff, m);
    if m < n { DoubledGrows(poll, m, n); }
  }

  /**
    The delay is the textbook one, min(poll * 2^(n-1), max), exactly when that power is not one
    nanosecond short of the cap; otherwise it is one nanosecond longer. An even cap is never missed.
   */
  lemma ExactlyCappedDoubling(poll: nat, maxBackoff: int, n: nat)
    requires poll > 0 && maxBackoff > 0 && n >= 1
    ensures Delay(poll, maxBackoff, n) == Min(Doubled(poll, n), maxBackoff) <==>
              !(n >= 2 && Doubled(poll, n) == maxBackoff - 1)
    ensures Min(Doubled(poll, n), maxBackoff) <= Delay(poll, maxBackoff, n) <= Min(Doubled(poll, n), maxBackoff) + 1
    ensures maxBackoff % 2 == 0 ==> Delay(poll, maxBackoff, n) == Min(Doubled(poll, n), maxBackoff)
  {
    if n >= 2 { DoubledGrows(poll, 1, n); }
  }

  /** The one-nanosecond case exists: 2 ns doubled is 4 ns, but with a cap of 5 ns the wait is 5 ns. */
  lemma OddCapOvershoots()
    ensures Delay(2, 5, 2) == 5 && Min(Doubled(2, 2), 5) == 4
  {
    assert Pow2(1) == 2 * Pow2(0);
  }
}
