/** The incremental sine/cosine generator `rotate` (src/main.rs:5-12).

    A pair (cos, sin) is held in fixed point with 1024 standing for 1.0. One
    call advances the angle by about multiplier / 2^shift radians with the
    angle-sum identities (cos -= m*sin >> s; sin += m*cos_before >> s), then
    pulls the pair back toward magnitude 1024 with one Newton step on the
    squared magnitude: temp = (3*2^20 - cos^2 - sin^2) >> 11, and both
    components are scaled by temp / 1024.

    The property that matters is the magnitude band: a pair whose squared
    magnitude lies in [MinNorm, MaxNorm] stays there after every call, so the
    unbounded repetition of the program never leaves the range in which every
    i32 operation of `rotate` and of the projection is safe. */
module Rotation {
  import opened FixedPoint

  /** A (cos, sin) pair of fixed-point components. */
  datatype Pair = Pair(cos: i32, sin: i32)

  /** The band of squared magnitudes every pair of the program stays in. */
  const MinNorm: int := 1_000_000
  const MaxNorm: int := 1_060_000
  /** A bound on each component of a pair in the band: 1030^2 > MaxNorm. */
  const Reach: int := 1030
  /** Components up to this size keep every intermediate of `rotate` in i32. */
  const Limit: int := 4096

  /** Where the local pairs restart (src/main.rs:30-31, 34-35): angle 0. */
  const Start: Pair := Pair(1024, 0)
  /** The initial orientation pairs (src/main.rs:21-24): a quarter turn. */
  const QuarterTurn: Pair := Pair(0, 1024)

  function Norm(p: Pair): int
  {
    (p.cos as int) * (p.cos as int) + (p.sin as int) * (p.sin as int)
  }

  /** The band: the squared magnitude within [MinNorm, MaxNorm], and with it
      each component within Reach. */
  predicate InBand(p: Pair)
  {
    MinNorm <= Norm(p) <= MaxNorm && -Reach <= p.cos as int <= Reach && -Reach <= p.sin as int <= Reach
  }

  /** Each component within Reach, as in every pair of the band. */
  predicate Within(p: Pair)
  {
    -Reach <= p.cos as int <= Reach && -Reach <= p.sin as int <= Reach
  }

  predicate Bounded(p: Pair)
  {
    -Limit <= p.cos as int <= Limit && -Limit <= p.sin as int <= Limit
  }

  /** The steps the program takes, (5, 8), (9, 7) and (5, 7), all lie in this
      range; the band is closed under every step in it. */
  predicate StepInRange(multiplier: int, shift: int)
  {
    -9 <= multiplier <= 9 && 7 <= shift <= 8
  }

  /** One call of `rotate`, as a value: the pair after the call. Any pair with
      components within 4096 goes through without an overflow; a pair in the
      band comes out in the band. */
  function Rotated(multiplier: i32, shift: i32, p: Pair): (r: Pair)
    requires StepInRange(multiplier as int, shift as int) && Bounded(p)
    ensures InBand(p) ==> InBand(r)
  {
    var d := Divisor(shift);
    RotateSafe(multiplier as int, d as int, p.cos as int, p.sin as int);
    var x := p.cos - multiplier * p.sin / d;
    var y := p.sin + multiplier * p.cos / d;
    var temp := (3145728 - x * x - y * y) / 2048;
    var r := Pair(x * temp / 1024, y * temp / 1024);
    if InBand(p) then
      RotateRanges(multiplier as int, d as int, p.cos as int, p.sin as int);
      r
    else
      r
  }

  /** `rotate` itself: the caller's two variables go in, their new values come
      out, and nothing else is touched. The body follows the source statement
      by statement, including the reuse of `temp`, first for the cosine before
      the step and then for the renormalisation factor. */
  method Rotate(multiplier: i32, shift: i32, x: i32, y: i32) returns (nx: i32, ny: i32)
    requires StepInRange(multiplier as int, shift as int) && Bounded(Pair(x, y))
    ensures Pair(nx, ny) == Rotated(multiplier, shift, Pair(x, y))
    ensures InBand(Pair(x, y)) ==> InBand(Pair(nx, ny))
  {
    var d := Divisor(shift);
    RotateSafe(multiplier as int, d as int, x as int, y as int);
    nx, ny := x, y;
    var temp := nx;
    nx := nx - multiplier * ny / d;
    ny := ny + multiplier * temp / d;
    temp := (3145728 - nx * nx - ny * ny) / 2048;
    nx := nx * temp / 1024;
    ny := ny * temp / 1024;
  }

  /** n calls of `rotate` with the same step, starting from p. */
  function Iterate(multiplier: i32, shift: i32, p: Pair, n: nat): (r: Pair)
    requires StepInRange(multiplier as int, shift as int) && InBand(p)
    ensures InBand(r)
    decreases n
  {
    if n == 0 then p else Rotated(multiplier, shift, Iterate(multiplier, shift, p, n - 1))
  }

  /** `>> shift` for the two shifts in use. */
  function Divisor(shift: i32): (d: i32)
    requires 7 <= shift <= 8
    ensures d as int == Pow2(shift as nat) && (d == 128 || d == 256)
  {
    assert Pow2(7) == 128 && Pow2(8) == 256;
    if shift == 7 then 128 else 256
  }

  // ---------------------------------------------------------------------------
  // Facts about single calls

  /** Starting at angle 0 with the tube step (5, 8), the first call gives
      (1023, 19): the sine grows by 5 * 1024 >> 8 = 20 and the renormalisation
      factor 1023 trims both components. */
  lemma FirstTubeStep()
    ensures Rotated(5, 8, Start) == Pair(1023, 19)
  {
    assert Divisor(8) == 256;
    assert (3145728 - 1024 * 1024 - 20 * 20) / 2048 == 1023;
  }

  /** The new sine is computed from the cosine saved BEFORE the step. From a
      quarter turn, rotate(9, 7) first moves the cosine to 0 - (9 * 1024 >> 7)
      = -72, while the sine grows by 9 * 0 >> 7 = 0; renormalising (-72, 1024)
      with temp = 1021 gives (-72, 1021). Advancing the sine from the new
      cosine -72 would give (-73, 1020) instead. */
  lemma SineUsesOldCosine()
    ensures Rotated(9, 7, QuarterTurn) == Pair(-72, 1021)
  {
    assert Divisor(7) == 128;
    assert (3145728 - 72 * 72 - 1024 * 1024) / 2048 == 1021;
    assert (-72 * 1021) / 1024 == -72 && (1024 * 1021) / 1024 == 1021;
  }

  lemma StartsInBand()
    ensures InBand(Start) && InBand(QuarterTurn)
  {}

  lemma ComponentBounds(x: int, y: int)
    requires x * x + y * y <= MaxNorm
    ensures -Reach <= x <= Reach && -Reach <= y <= Reach
  {
    SquareNonNeg(x); SquareNonNeg(y);
    RootBound(x, 1030); RootBound(y, 1030);
  }

  // ---------------------------------------------------------------------------
  // Overflow freedom

  /** Every intermediate value of one call, bounded, for components within
      4096: the largest, x1 * temp, stays below 76 million. */
  lemma RotateSafe(m: int, d: int, x: int, y: int)
    requires -9 <= m <= 9 && (d == 128 || d == 256)
    requires -Limit <= x <= Limit && -Limit <= y <= Limit
    ensures -9 * Limit <= m * y <= 9 * Limit && -9 * Limit <= m * x <= 9 * Limit
    ensures var x1, y1 := x - m * y / d, y + m * x / d;
            var temp := (3145728 - x1 * x1 - y1 * y1) / 2048;
            && -4384 <= x1 <= 4384 && -4384 <= y1 <= 4384
            && 0 <= x1 * x1 <= 4384 * 4384 && 0 <= y1 * y1 <= 4384 * 4384
            && -17234 <= temp <= 1536
            && -4384 * 17234 <= x1 * temp <= 4384 * 17234
            && -4384 * 17234 <= y1 * temp <= 4384 * 17234
  {
    MulBound(m, y, 9, Limit);
    MulBound(m, x, 9, Limit);
    var x1, y1 := x - m * y / d, y + m * x / d;
    var temp := (3145728 - x1 * x1 - y1 * y1) / 2048;
    SquareLe(x1, 4384); SquareLe(y1, 4384);
    SquareNonNeg(x1); SquareNonNeg(y1);
    MulBound(x1, temp, 4384, 17234);
    MulBound(y1, temp, 4384, 17234);
  }

  // ---------------------------------------------------------------------------
  // The band is closed under `rotate`

  /** Every intermediate value of one call, bounded: each fits comfortably in
      an i32, and the result is back in the band. */
  lemma RotateRanges(m: int, d: int, x: int, y: int)
    requires -9 <= m <= 9 && (d == 128 || d == 256)
    requires MinNorm <= x * x + y * y <= MaxNorm
    ensures -Reach <= x <= Reach && -Reach <= y <= Reach
    ensures -9 * Reach <= m * y <= 9 * Reach && -9 * Reach <= m * x <= 9 * Reach
    ensures var x1, y1 := x - m * y / d, y + m * x / d;
            var temp := (3145728 - x1 * x1 - y1 * y1) / 2048;
            && 990_000 <= x1 * x1 + y1 * y1 <= 1_070_000
            && 0 <= x1 * x1 && 0 <= y1 * y1
            && -1035 <= x1 <= 1035 && -1035 <= y1 <= 1035
            && 0 <= temp <= 1053
            && -1035 * 1053 <= x1 * temp <= 1035 * 1053
            && -1035 * 1053 <= y1 * temp <= 1035 * 1053
            && MinNorm <= (x1 * temp / 1024) * (x1 * temp / 1024) + (y1 * temp / 1024) * (y1 * temp / 1024) <= MaxNorm
            && -Reach <= x1 * temp / 1024 <= Reach && -Reach <= y1 * temp / 1024 <= Reach
  {
    ComponentBounds(x, y);
    MulBound(m, y, 9, Reach); MulBound(m, x, 9, Reach);
    AdvanceBounds(m, d, x, y);
    var x1, y1 := x - m * y / d, y + m * x / d;
    var temp := (3145728 - x1 * x1 - y1 * y1) / 2048;
    SquareNonNeg(x1); SquareNonNeg(y1);
    RootBound(x1, 1035); RootBound(y1, 1035);
    MulBound(x1, temp, 1035, 1053); MulBound(y1, temp, 1035, 1053);
    RenormBounds(x1, y1);
    ComponentBounds(x1 * temp / 1024, y1 * temp / 1024);
  }

  /** The angle step moves the squared magnitude of a pair in the band by less
      than the renormalisation can correct. */
  lemma AdvanceBounds(m: int, d: int, x: int, y: int)
    requires -9 <= m <= 9 && (d == 128 || d == 256)
    requires MinNorm <= x * x + y * y <= MaxNorm
    ensures var x1, y1 := x - m * y / d, y + m * x / d;
            990_000 <= x1 * x1 + y1 * y1 <= 1_070_000
  {
    if d == 128 {
      AdvanceBounds128(m, x, y, x - m * y / 128, y + m * x / 128);
    } else {
      AdvanceBounds256(m, x, y, x - m * y / 256, y + m * x / 256);
    }
  }

  /** The angle step for shift 7. */
  lemma AdvanceBounds128(m: int, x: int, y: int, x1: int, y1: int)
    requires -9 <= m <= 9
    requires MinNorm <= x * x + y * y <= MaxNorm
    requires x1 == x - m * y / 128 && y1 == y + m * x / 128
    ensures 990_000 <= x1 * x1 + y1 * y1 <= 1_070_000
  {
    var n, n1, g := x * x + y * y, x1 * x1 + y1 * y1, m * m * (x * x + y * y);
    assert 0 <= g <= 81 * MaxNorm by {
      SquareNonNeg(m);
      MulBound(m, m, 9, 9);
      MulLe(0, 0, m * m, x * x + y * y);
      MulLe(m * m, x * x + y * y, 81, MaxNorm);
    }
    assert 16384 * n - 72_248_320 <= 16384 * n1 <= 16384 * n + g + 72_248_320 + 2 * 16384 by {
      AdvanceScaled(m, 128, x, y);
    }
    AdvanceLinear(16384, 72_248_320, n, n1, g);
  }

  /** The angle step for shift 8. */
  lemma AdvanceBounds256(m: int, x: int, y: int, x1: int, y1: int)
    requires -9 <= m <= 9
    requires MinNorm <= x * x + y * y <= MaxNorm
    requires x1 == x - m * y / 256 && y1 == y + m * x / 256
    ensures 990_000 <= x1 * x1 + y1 * y1 <= 1_070_000
  {
    var n, n1, g := x * x + y * y, x1 * x1 + y1 * y1, m * m * (x * x + y * y);
    assert 0 <= g <= 81 * MaxNorm by {
      SquareNonNeg(m);
      MulBound(m, m, 9, 9);
      MulLe(0, 0, m * m, x * x + y * y);
      MulLe(m * m, x * x + y * y, 81, MaxNorm);
    }
    assert 65536 * n - 279_500_800 <= 65536 * n1 <= 65536 * n + g + 279_500_800 + 2 * 65536 by {
      AdvanceScaled(m, 256, x, y);
    }
    AdvanceLinear(65536, 279_500_800, n, n1, g);
  }

  /** The last, linear step of the two lemmas above, with the squared
      magnitudes n before and n1 after the step, g = m^2 n and e = 4 slack as
      plain unknowns, for dd = d^2 with d = 128 or 256. */
  lemma AdvanceLinear(dd: int, e: int, n: int, n1: int, g: int)
    requires (dd == 16384 && e == 72_248_320) || (dd == 65536 && e == 279_500_800)
    requires MinNorm <= n <= MaxNorm && 0 <= g <= 81 * MaxNorm
    requires dd * n1 <= dd * n + g + e + 2 * dd
    requires dd * n1 >= dd * n - e
    ensures 990_000 <= n1 <= 1_070_000
  {
    if dd == 16384 {
      assert 16384 * n1 <= 16384 * n + g + e + 2 * 16384;
    } else {
      assert 65536 * n1 <= 65536 * n + g + e + 2 * 65536;
    }
  }

  /** With the floors written out, the angle step multiplies the squared
      magnitude by (d^2 + m^2) / d^2 up to an error linear in the components. */
  lemma AdvanceScaled(m: int, d: int, x: int, y: int)
    requires -9 <= m <= 9 && d > 0
    requires x * x + y * y <= MaxNorm
    ensures var x1, y1 := x - m * y / d, y + m * x / d;
            var slack := ((d + 9) * Reach) * d;
            && d * d * (x1 * x1 + y1 * y1)
               <= d * d * (x * x + y * y) + m * m * (x * x + y * y) + 4 * slack + 2 * (d * d)
            && d * d * (x1 * x1 + y1 * y1) >= d * d * (x * x + y * y) - 4 * slack
  {
    ComponentBounds(x, y);
    AdvanceExact(m, d, x, y);
    AdvanceError(m, d, x, y, m * y - d * (m * y / d), m * x - d * (m * x / d));
    SquareNonNeg(m); SquareNonNeg(x); SquareNonNeg(y);
    MulLe(0, 0, m * m, x * x + y * y);
  }

  lemma AdvanceExact(m: int, d: int, x: int, y: int)
    requires d > 0
    ensures var x1, y1 := x - m * y / d, y + m * x / d;
            var d1, d2 := m * y - d * (m * y / d), m * x - d * (m * x / d);
            && 0 <= d1 < d && 0 <= d2 < d
            && d * d * (x1 * x1 + y1 * y1)
               == d * d * (x * x + y * y) + m * m * (x * x + y * y)
                  + 2 * ((d * x - m * y) * d1) - 2 * ((d * y + m * x) * d2) + d1 * d1 + d2 * d2
  {
    FloorRemainder(m * y, d); FloorRemainder(m * x, d);
    AdvanceSquares(m, d, x, y, m * y / d, m * x / d);
  }

  lemma AdvanceSquares(m: int, d: int, x: int, y: int, qy: int, qx: int)
    ensures var x1, y1 := x - qy, y + qx;
            var d1, d2 := m * y - d * qy, m * x - d * qx;
            d * d * (x1 * x1 + y1 * y1)
            == d * d * (x * x + y * y) + m * m * (x * x + y * y)
               + 2 * ((d * x - m * y) * d1) - 2 * ((d * y + m * x) * d2) + d1 * d1 + d2 * d2
  {
    var x1, y1 := x - qy, y + qx;
    var d1, d2 := m * y - d * qy, m * x - d * qx;
    assert d * x1 == d * x - m * y + d1 && d * y1 == d * y + m * x - d2;
    ScaledSquares(d, x1, y1);
    AdvanceIdentity(m, d, x, y, d1, d2);
  }

  lemma ScaledSquares(d: int, x: int, y: int)
    ensures (d * x) * (d * x) + (d * y) * (d * y) == d * d * (x * x + y * y)
  {}

  /** The angle-sum step without floors is an exact rotation scaled by
      sqrt(d^2 + m^2): the cross terms cancel. */
  lemma AdvanceIdentity(m: int, d: int, x: int, y: int, d1: int, d2: int)
    ensures (d * x - m * y + d1) * (d * x - m * y + d1) + (d * y + m * x - d2) * (d * y + m * x - d2)
         == d * d * (x * x + y * y) + m * m * (x * x + y * y)
            + 2 * ((d * x - m * y) * d1) - 2 * ((d * y + m * x) * d2) + d1 * d1 + d2 * d2
  {
    var a, b := d * x - m * y, d * y + m * x;
    assert a * a + b * b == (d * d + m * m) * (x * x + y * y);
  }

  lemma AdvanceError(m: int, d: int, x: int, y: int, d1: int, d2: int)
    requires -9 <= m <= 9 && d > 0 && 0 <= d1 < d && 0 <= d2 < d
    requires -Reach <= x <= Reach && -Reach <= y <= Reach
    ensures var slack := ((d + 9) * Reach) * d;
            && -(4 * slack) <= 2 * ((d * x - m * y) * d1) - 2 * ((d * y + m * x) * d2) <= 4 * slack
            && 0 <= d1 * d1 + d2 * d2 <= 2 * (d * d)
  {
    var a, b := d * x - m * y, d * y + m * x;
    var k := (d + 9) * Reach;
    assert -k <= a <= k && -k <= b <= k by {
      MulBound(m, y, 9, Reach); MulBound(m, x, 9, Reach);
      MulBound(d, x, d, Reach); MulBound(d, y, d, Reach);
    }
    CrossError(a, b, d1, d2, k, d);
    RemainderSquares(d1, d2, d);
  }

  /** The cross terms of the floor remainders, with the two exact components
      a and b as plain unknowns. */
  lemma CrossError(a: int, b: int, d1: int, d2: int, k: int, d: int)
    requires -k <= a <= k && -k <= b <= k && 0 <= d1 < d && 0 <= d2 < d
    ensures -(4 * (k * d)) <= 2 * (a * d1) - 2 * (b * d2) <= 4 * (k * d)
  {
    MulBound(a, d1, k, d);
    MulBound(b, d2, k, d);
  }

  lemma RemainderSquares(d1: int, d2: int, d: int)
    requires 0 <= d1 < d && 0 <= d2 < d
    ensures 0 <= d1 * d1 + d2 * d2 <= 2 * (d * d)
  {
    SquareLe(d1, d); SquareLe(d2, d);
    SquareNonNeg(d1); SquareNonNeg(d2);
  }

  /** One Newton step on the squared magnitude brings a pair whose squared
      magnitude is within about 7% of 2^20 back into the band. */
  lemma RenormBounds(x1: int, y1: int)
    requires 990_000 <= x1 * x1 + y1 * y1 <= 1_070_000
    ensures var temp := (3145728 - x1 * x1 - y1 * y1) / 2048;
            var x2, y2 := x1 * temp / 1024, y1 * temp / 1024;
            MinNorm <= x2 * x2 + y2 * y2 <= MaxNorm
  {
    var temp := (3145728 - x1 * x1 - y1 * y1) / 2048;
    GainBounds(x1 * x1 + y1 * y1, temp);
    SquareNonNeg(x1); SquareNonNeg(y1);
    RootBound(x1, 1035); RootBound(y1, 1035);
    RenormExact(x1, y1, temp);
    RenormError(x1, y1, temp, x1 * temp - 1024 * (x1 * temp / 1024), y1 * temp - 1024 * (y1 * temp / 1024));
  }

  /** `4 P^3 - (3 P - q)^2 q == (P - q)^2 (4 P - q)` for P = 2^20: the gain of
      the renormalisation, as a function of the squared magnitude q, peaks at
      magnitude one and falls off quadratically around it. */
  lemma GainIdentity(q: int)
    ensures 4 * 1048576 * 1048576 * 1048576 - (3145728 - q) * (3145728 - q) * q
         == (1048576 - q) * (1048576 - q) * (4194304 - q)
  {}

  /** temp^2 * q1, the squared magnitude after scaling by temp (times 2^20), is
      at most 2^40 and falls short of it by the floor of `>> 11` and the
      quadratic fall-off only. */
  lemma GainBounds(q1: int, temp: int)
    requires 990_000 <= q1 <= 1_070_000 && temp == (3145728 - q1) / 2048
    ensures 0 <= temp <= 1053
    ensures 1099511627776 - 5_100_000_000 <= temp * temp * q1 <= 1099511627776
  {
    var w := 3145728 - q1;
    assert 2048 * temp <= w < 2048 * temp + 2048;
    assert ((2048 * temp) * (2048 * temp)) * q1 == 4194304 * (temp * temp * q1);
    GainUpper(q1, w, 2048 * temp);
    GainLower(q1, w, 2048 * temp);
  }

  /** From above: t <= w gives t^2 q1 <= w^2 q1 <= 4 * 2^60. */
  lemma GainUpper(q1: int, w: int, t: int)
    requires 990_000 <= q1 <= 1_070_000 && w == 3145728 - q1 && 0 <= t <= w
    ensures (t * t) * q1 <= 4 * 1048576 * 1048576 * 1048576
  {
    MulLe(t, t, w, w);
    MulLe(t * t, q1, w * w, q1);
    GainIdentity(q1);
    SquareNonNeg(1048576 - q1);
    MulLe(0, 0, (1048576 - q1) * (1048576 - q1), 4194304 - q1);
  }

  /** From below: t > w - 2048 gives t^2 q1 >= (w - 2047)^2 q1, which falls short
      of 4 * 2^60 by the quadratic fall-off and a term linear in w. */
  lemma GainLower(q1: int, w: int, t: int)
    requires 990_000 <= q1 <= 1_070_000 && w == 3145728 - q1 && w - 2047 <= t
    ensures (t * t) * q1 >= 4 * 1048576 * 1048576 * 1048576 - 4194304 * 5_100_000_000
  {
    MulLe(w - 2047, w - 2047, t, t);
    assert (w - 2047) * (w - 2047) == w * w - 4094 * w + 2047 * 2047;
    MulLe((w - 2047) * (w - 2047), q1, t * t, q1);
    assert (w * w - 4094 * w + 2047 * 2047) * q1 == w * w * q1 - 4094 * (w * q1) + 2047 * 2047 * q1;
    GainIdentity(q1);
    SquareLe(1048576 - q1, 60000);
    SquareNonNeg(1048576 - q1);
    MulLe((1048576 - q1) * (1048576 - q1), 4194304 - q1, 60000 * 60000, 3204304);
    MulLe(w, q1, 2155728, 1070000);
  }

  lemma RenormExact(x1: int, y1: int, temp: int)
    ensures var x2, y2 := x1 * temp / 1024, y1 * temp / 1024;
            var e1, e2 := x1 * temp - 1024 * x2, y1 * temp - 1024 * y2;
            && 0 <= e1 < 1024 && 0 <= e2 < 1024
            && 1048576 * (x2 * x2 + y2 * y2)
               == temp * temp * (x1 * x1 + y1 * y1) - 2 * ((x1 * temp) * e1) - 2 * ((y1 * temp) * e2)
                  + e1 * e1 + e2 * e2
  {
    var x2, y2 := x1 * temp / 1024, y1 * temp / 1024;
    var e1, e2 := x1 * temp - 1024 * x2, y1 * temp - 1024 * y2;
    assert (1024 * x2) * (1024 * x2) == (x1 * temp - e1) * (x1 * temp - e1);
    assert (1024 * y2) * (1024 * y2) == (y1 * temp - e2) * (y1 * temp - e2);
    assert (x1 * temp) * (x1 * temp) + (y1 * temp) * (y1 * temp) == temp * temp * (x1 * x1 + y1 * y1);
  }

  lemma RenormError(x1: int, y1: int, temp: int, e1: int, e2: int)
    requires -1035 <= x1 <= 1035 && -1035 <= y1 <= 1035 && 0 <= temp <= 1053
    requires 0 <= e1 < 1024 && 0 <= e2 < 1024
    ensures -4_459_686_660 <= 2 * ((x1 * temp) * e1) + 2 * ((y1 * temp) * e2) <= 4_459_686_660
    ensures 0 <= e1 * e1 + e2 * e2 <= 2_093_058
  {
    MulBound(x1, temp, 1035, 1053);
    MulBound(y1, temp, 1035, 1053);
    MulBound(x1 * temp, e1, 1035 * 1053, 1023);
    MulBound(y1 * temp, e2, 1035 * 1053, 1023);
    SquareLe(e1, 1023); SquareLe(e2, 1023);
    SquareNonNeg(e1); SquareNonNeg(e2);
  }
}
