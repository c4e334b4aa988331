/** The per-sample kernel of one frame (src/main.rs:38-66).

    For one point of the torus, given the orientation pairs A = (cos_A, sin_A)
    and B = (cos_B, sin_B) and the two local angles, theta = (cos_j, sin_j)
    around the tube and phi = (cos_i, sin_i) around the axis, the kernel works
    out the screen column `x`, the screen row `y`, the luminance score and its
    glyph index, and the depth `zz`. All of it is i32 arithmetic in fixed
    point (1024 stands for 1.0).

    Every intermediate is given as a function whose contract bounds it; those
    bounds are what make the kernel free of overflow panics, of a division by
    zero in the projection, of a failing `i8::try_from` and of an out-of-range
    glyph lookup, for every input whose pairs lie in the magnitude band of
    module Rotation. The two bounds that do not follow from component ranges
    alone, the depth and the luminance, are proved with the Cauchy-Schwarz
    inequality in two and three dimensions. */
module Projection {
  import opened FixedPoint
  import opened Rotation

  const R1: i32 := 1
  const R2: i32 := 2048
  const K2: i32 := 5120 * 1024

  /** Width, height and size of the character grid (src/main.rs:14). */
  const Width: int := 80
  const Height: int := 22
  const BufferSize: int := 1760

  /** The glyphs from dimmest to brightest (src/main.rs:15). */
  const LuminanceChars: seq<char> := ['.', ',', '-', '~', ':', ';', '=', '!', '*', '#', '$', '@']

  /** An index into the glyph table: the kernel's `luminance_index` never
      reaches 12. */
  type Shade = n: nat | n < 12

  /** A depth strictly below `i8::MAX`, the value that marks an empty cell: the
      kernel's `zz` always is one. */
  type Near = z: i8 | z < I8Max

  /** What the kernel makes of one sample: column, row, glyph index and depth.
      The last two carry the ranges `Project` proves for them. */
  datatype Sample = Sample(x: i32, y: i32, lum: Shade, zz: Near)

  /** Every pair the kernel reads lies in the band. */
  predicate Steady(a: Pair, b: Pair, theta: Pair, phi: Pair)
  {
    InBand(a) && InBand(b) && InBand(theta) && InBand(phi)
  }

  // ---------------------------------------------------------------------------
  // The intermediates x0 .. x7 (src/main.rs:42-49)

  /** Distance of the sample from the axis of the torus. */
  function X0(theta: Pair): (r: i32)
    requires Within(theta)
    ensures 1018 <= r as int <= 3078
  {
    R1 * theta.cos + R2
  }

  function X1(theta: Pair, phi: Pair): (r: i32)
    requires Within(theta) && Within(phi)
    ensures -3100 <= r as int <= 3100
  {
    var x0 := X0(theta);
    MulBound(phi.cos as int, x0 as int, Reach, 3078);
    phi.cos * x0 / 1024
  }

  function X2(a: Pair, theta: Pair): (r: i32)
    requires Within(a) && Within(theta)
    ensures -1040 <= r as int <= 1040
  {
    MulBound(a.cos as int, theta.sin as int, Reach, Reach);
    a.cos * theta.sin / 1024
  }

  function X3(theta: Pair, phi: Pair): (r: i32)
    requires Within(theta) && Within(phi)
    ensures -3100 <= r as int <= 3100
  {
    var x0 := X0(theta);
    MulBound(phi.sin as int, x0 as int, Reach, 3078);
    phi.sin * x0 / 1024
  }

  function X4(a: Pair, theta: Pair, phi: Pair): (r: i32)
    requires Within(a) && Within(theta) && Within(phi)
    ensures -4160 <= r as int <= 4160
  {
    var x3 := X3(theta, phi);
    MulBound(a.sin as int, x3 as int, Reach, 3100);
    R1 * X2(a, theta) - a.sin * x3 / 1024
  }

  function X5(a: Pair, theta: Pair): (r: i32)
    requires Within(a) && Within(theta)
    ensures -1040 <= r as int <= 1040
  {
    MulBound(a.sin as int, theta.sin as int, Reach, Reach);
    a.sin * theta.sin / 1024
  }

  /** The depth of the sample, shifted by K2. Component bounds alone keep it
      positive, so the divisions of lines 51-52 are safe; for pairs in the band
      it stays within 105 * 2^15 of K2. */
  function X6(a: Pair, theta: Pair, phi: Pair): (r: i32)
    requires Within(a) && Within(theta) && Within(phi)
    ensures K2 as int - 4_257_960 <= r as int <= K2 as int + 4_257_960
    ensures r > 0
    ensures InBand(a) && InBand(theta) && InBand(phi) ==> K2 as int - 105 * 32768 <= r as int < K2 as int + 105 * 32768
  {
    var x3 := X3(theta, phi);
    var x5 := X5(a, theta);
    MulBound(a.cos as int, x3 as int, Reach, 3100);
    var r := K2 + R1 * 1024 * x5 + a.cos * x3;
    if InBand(a) && InBand(theta) && InBand(phi) then
      DepthSpan(a, theta, phi);
      r
    else
      r
  }

  function X7(theta: Pair, phi: Pair): (r: i32)
    requires Within(theta) && Within(phi)
    ensures -1040 <= r as int <= 1040
  {
    MulBound(theta.cos as int, phi.sin as int, Reach, Reach);
    theta.cos * phi.sin / 1024
  }

  // ---------------------------------------------------------------------------
  // Screen position, luminance and depth (src/main.rs:51-66)

  /** The screen column: a perspective division truncated toward zero. */
  function Column(a: Pair, b: Pair, theta: Pair, phi: Pair): (x: i32)
    requires Within(a) && Within(b) && Within(theta) && Within(phi)
    ensures var num := 30 * ((b.cos as int) * (X1(theta, phi) as int) - (b.sin as int) * (X4(a, theta, phi) as int));
            var q := x as int - 40;
            X6(a, theta, phi) as int * Abs(q) <= Abs(num) < X6(a, theta, phi) as int * (Abs(q) + 1)
            && (q == 0 || ((q > 0) <==> (num > 0)))
  {
    var x1, x4, x6 := X1(theta, phi), X4(a, theta, phi), X6(a, theta, phi);
    MulBound(b.cos as int, x1 as int, Reach, 3100);
    MulBound(b.sin as int, x4 as int, Reach, 4160);
    40 + Quot(30 * (b.cos * x1 - b.sin * x4), x6)
  }

  /** The screen row. As in the source, the second term pairs x1 with sin_A. */
  function Row(a: Pair, b: Pair, theta: Pair, phi: Pair): (y: i32)
    requires Within(a) && Within(b) && Within(theta) && Within(phi)
    ensures var num := 15 * ((b.cos as int) * (X4(a, theta, phi) as int) + (a.sin as int) * (X1(theta, phi) as int));
            var q := y as int - 12;
            X6(a, theta, phi) as int * Abs(q) <= Abs(num) < X6(a, theta, phi) as int * (Abs(q) + 1)
            && (q == 0 || ((q > 0) <==> (num > 0)))
  {
    var x1, x4, x6 := X1(theta, phi), X4(a, theta, phi), X6(a, theta, phi);
    MulBound(b.cos as int, x4 as int, Reach, 4160);
    MulBound(a.sin as int, x1 as int, Reach, 3100);
    12 + Quot(15 * (b.cos * x4 + a.sin * x1), x6)
  }

  /** The luminance score: the surface normal of the sample dotted with the
      fixed light direction of the program, scaled down. It never exceeds 11,
      the last index of the glyph table. */
  function Luminance(a: Pair, b: Pair, theta: Pair, phi: Pair): (n: i32)
    requires Steady(a, b, theta, phi)
    ensures n <= 11
  {
    var x2, x5, x7 := X2(a, theta), X5(a, theta), X7(theta, phi);
    var negCosA, negSinA := -1 * a.cos, -1 * a.sin;
    MulBound(negCosA as int, x7 as int, Reach, 1040);
    MulBound(negSinA as int, x7 as int, Reach, 1040);
    var t1 := negSinA * x7 / 1024;
    MulBound(b.cos as int, (t1 + x2) as int, Reach, 2100);
    MulBound(theta.cos as int, b.sin as int, Reach, Reach);
    var t2 := theta.cos * b.sin / 1024;
    MulBound(phi.cos as int, t2 as int, Reach, 1040);
    LuminanceBound(a, b, theta, phi);
    ((negCosA * x7 - b.cos * (t1 + x2) - phi.cos * t2) / 1024 - x5) / 128
  }

  /** `usize::try_from(n).unwrap_or(0)` (src/main.rs:60). */
  function GlyphIndex(n: i32): (r: nat)
    ensures n < 0 ==> r == 0
    ensures n >= 0 ==> r == n as int
  {
    if n < 0 then 0 else n as nat
  }

  /** `i8::try_from((x6 - K2) >> 15)`: the conversion always succeeds, and the
      depth is far below the initial `i8::MAX` of the depth buffer. */
  function Depth(a: Pair, theta: Pair, phi: Pair): (zz: i8)
    requires InBand(a) && InBand(theta) && InBand(phi)
    ensures -105 <= zz < 105
    ensures 32768 * (zz as int) <= X6(a, theta, phi) as int - K2 as int < 32768 * (zz as int + 1)
  {
    ((X6(a, theta, phi) - K2) / 32768) as i8
  }

  /** The whole kernel for one sample. */
  function Project(a: Pair, b: Pair, theta: Pair, phi: Pair): (s: Sample)
    requires Steady(a, b, theta, phi)
    ensures s.x == Column(a, b, theta, phi) && s.y == Row(a, b, theta, phi)
    ensures s.lum == GlyphIndex(Luminance(a, b, theta, phi)) && s.zz == Depth(a, theta, phi)
  {
    Sample(Column(a, b, theta, phi), Row(a, b, theta, phi),
           GlyphIndex(Luminance(a, b, theta, phi)), Depth(a, theta, phi))
  }

  // ---------------------------------------------------------------------------
  // The buffer offset (src/main.rs:62-63, 68)

  /** The bound conjuncts of the guard on line 68: the interior of the grid,
      without row 0 and column 0. */
  predicate Visible(x: int, y: int)
  {
    0 < y < Height && 0 < x < Width
  }

  /** `x + (y * 80) % 1760`, evaluated only where the guard holds; there the
      remainder changes nothing and the offset is the row-major cell index. */
  function Offset(x: int, y: int): (o: nat)
    requires Visible(x, y)
    ensures o == x + Width * y
    ensures Width < o < BufferSize
    ensures o % Width == x && o / Width == y
  {
    x + (y * 80) % BufferSize
  }

  /** Distinct visible positions never share a cell. */
  lemma OffsetInjective(x1: int, y1: int, x2: int, y2: int)
    requires Visible(x1, y1) && Visible(x2, y2)
    ensures Offset(x1, y1) == Offset(x2, y2) <==> x1 == x2 && y1 == y2
  {
  }

  // ---------------------------------------------------------------------------
  // The depth bound

  /** 1024 * x5 + cos_A * x3 = x6 - K2 stays within 105 * 2^15 of zero. */
  lemma DepthSpan(a: Pair, theta: Pair, phi: Pair)
    requires InBand(a) && InBand(theta) && InBand(phi)
    ensures var v := 1024 * (X5(a, theta) as int) + (a.cos as int) * (X3(theta, phi) as int);
            -105 * 32768 <= v < 105 * 32768
  {
    var x0 := X0(theta) as int;
    var si, sj := phi.sin as int, theta.sin as int;
    assert si * si <= Norm(phi) && sj * sj <= Norm(theta);
    DepthCore(a.cos as int, a.sin as int, sj, si, x0, X3(theta, phi) as int, X5(a, theta) as int);
  }

  lemma DepthCore(cA: int, sA: int, sj: int, si: int, x0: int, x3: int, x5: int)
    requires cA * cA + sA * sA <= MaxNorm && -Reach <= cA <= Reach
    requires sj * sj <= MaxNorm && si * si <= MaxNorm
    requires 0 <= x0 <= 3078
    requires 0 <= si * x0 - 1024 * x3 < 1024
    requires 0 <= sA * sj - 1024 * x5 < 1024
    ensures -105 * 32768 <= 1024 * x5 + cA * x3 < 105 * 32768
  {
    var e3 := si * x0 - 1024 * x3;
    DepthDot(cA, sA, sj, si, x0);
    ScaleBack(cA, x3, si * x0, e3);
    assert sA * (1024 * sj) == 1024 * (sA * sj);
    MulBound(cA, e3, Reach, 1024);
  }

  /** The unshifted depth sin_A (1024 sin_j) + cos_A (sin_i x0) is a dot product
      of (sin_A, cos_A), of squared length at most MaxNorm, with a vector of
      squared length at most MaxNorm * (2^20 + 3078^2). */
  lemma DepthDot(cA: int, sA: int, sj: int, si: int, x0: int)
    requires cA * cA + sA * sA <= MaxNorm
    requires sj * sj <= MaxNorm && si * si <= MaxNorm
    requires 0 <= x0 <= 3078
    ensures -3_440_000_000 <= sA * (1024 * sj) + cA * (si * x0) <= 3_440_000_000
  {
    var u1, u2 := 1024 * sj, si * x0;
    CauchySchwarz2(sA, cA, u1, u2);
    DepthVectorNorm(sj, si, x0);
    SquareNonNeg(sA);
    SquareNonNeg(cA);
    RootOfProduct(sA * u1 + cA * u2, sA * sA + cA * cA, u1 * u1 + u2 * u2,
                  MaxNorm, MaxNorm * 10522660, 3_440_000_000);
  }

  lemma DepthVectorNorm(sj: int, si: int, x0: int)
    requires sj * sj <= MaxNorm && si * si <= MaxNorm
    requires 0 <= x0 <= 3078
    ensures 0 <= (1024 * sj) * (1024 * sj) + (si * x0) * (si * x0) <= MaxNorm * 10522660
  {
    assert (1024 * sj) * (1024 * sj) == 1048576 * (sj * sj);
    SquareOfProducts(si, x0);
    SquareNonNeg(si);
    SquareNonNeg(sj);
    MulLe(x0, x0, 3078, 3078);
    MulLe(si * si, x0 * x0, MaxNorm, 3078 * 3078);
  }

  // ---------------------------------------------------------------------------
  // The luminance bound

  lemma LuminanceBound(a: Pair, b: Pair, theta: Pair, phi: Pair)
    requires Steady(a, b, theta, phi)
    ensures var x2, x5, x7 := X2(a, theta) as int, X5(a, theta) as int, X7(theta, phi) as int;
            var cA, sA, cB, sB := a.cos as int, a.sin as int, b.cos as int, b.sin as int;
            (-1 * cA) * x7 - cB * ((-1 * sA) * x7 / 1024 + x2) - (phi.cos as int) * ((theta.cos as int) * sB / 1024)
              - 1024 * x5 < 1572864
  {
    var cA, sA, cB, sB := a.cos as int, a.sin as int, b.cos as int, b.sin as int;
    var x7 := X7(theta, phi) as int;
    LuminanceCore(cA, sA, cB, sB, phi.cos as int, phi.sin as int, theta.cos as int, theta.sin as int,
                  X2(a, theta) as int, X5(a, theta) as int, x7,
                  (-1 * sA) * x7 / 1024, (theta.cos as int) * sB / 1024);
  }

  /** The luminance numerator G (before the shifts) satisfies 2^20 * G = -(u . w) + err,
      where u = (cos_j sin_i, 1024 sin_j, cos_i cos_j), w = (1024 cos_A - cos_B sin_A,
      1024 sin_A + cos_B cos_A, 1024 sin_B) and err collects the remainders of the
      five shifts. Cauchy-Schwarz bounds u . w, and err is small. */
  lemma LuminanceCore(cA: int, sA: int, cB: int, sB: int, ci: int, si: int, cj: int, sj: int,
                      x2: int, x5: int, x7: int, t1: int, t2: int)
    requires cA * cA + sA * sA <= MaxNorm && cB * cB + sB * sB <= MaxNorm
    requires ci * ci + si * si <= MaxNorm && cj * cj + sj * sj <= MaxNorm
    requires -Reach <= cA <= Reach && -Reach <= sA <= Reach && -Reach <= cB <= Reach && -Reach <= ci <= Reach
    requires 0 <= cj * si - 1024 * x7 < 1024
    requires 0 <= (-1 * sA) * x7 - 1024 * t1 < 1024
    requires 0 <= cA * sj - 1024 * x2 < 1024
    requires 0 <= cj * sB - 1024 * t2 < 1024
    requires 0 <= sA * sj - 1024 * x5 < 1024
    ensures (-1 * cA) * x7 - cB * (t1 + x2) - ci * t2 - 1024 * x5 < 1572864
  {
    var e7 := cj * si - 1024 * x7;
    var f1 := (-1 * sA) * x7 - 1024 * t1;
    var e2 := cA * sj - 1024 * x2;
    var eT := cj * sB - 1024 * t2;
    var e5 := sA * sj - 1024 * x5;
    var g := (-1 * cA) * x7 - cB * (t1 + x2) - ci * t2 - 1024 * x5;
    var dot := (cj * si) * (1024 * cA - cB * sA) + (1024 * sj) * (1024 * sA + cB * cA) + (ci * cj) * (1024 * sB);
    var err := 1024 * (cA * e7) - (cB * sA) * e7 + 1024 * (cB * f1) + 1024 * (cB * e2) + 1024 * (ci * eT) + 1048576 * e5;
    LuminanceExact(cA, sA, cB, sB, ci, si, cj, sj, x2, x5, x7, t1, t2);
    assert 1048576 * g == err - dot;
    LuminanceError(cA, sA, cB, ci, e7, f1, e2, eT, e5);
    DotBound(cA, sA, cB, sB, ci, si, cj, sj);
  }

  lemma LuminanceExact(cA: int, sA: int, cB: int, sB: int, ci: int, si: int, cj: int, sj: int,
                       x2: int, x5: int, x7: int, t1: int, t2: int)
    ensures var e7 := cj * si - 1024 * x7;
            var f1 := (-1 * sA) * x7 - 1024 * t1;
            var e2 := cA * sj - 1024 * x2;
            var eT := cj * sB - 1024 * t2;
            var e5 := sA * sj - 1024 * x5;
            1048576 * ((-1 * cA) * x7 - cB * (t1 + x2) - ci * t2 - 1024 * x5)
            == 1024 * (cA * e7) - (cB * sA) * e7 + 1024 * (cB * f1) + 1024 * (cB * e2) + 1024 * (ci * eT) + 1048576 * e5
               - ((cj * si) * (1024 * cA - cB * sA) + (1024 * sj) * (1024 * sA + cB * cA) + (ci * cj) * (1024 * sB))
  {
    var e7 := cj * si - 1024 * x7;
    var f1 := (-1 * sA) * x7 - 1024 * t1;
    var e2 := cA * sj - 1024 * x2;
    var eT := cj * sB - 1024 * t2;
    var e5 := sA * sj - 1024 * x5;
    ScaleBack(-1 * cA, x7, cj * si, e7);
    assert 1048576 * (cB * t1) == -((cB * sA) * (cj * si)) + (cB * sA) * e7 - 1024 * (cB * f1) by {
      ScaleBack(cB, t1, (-1 * sA) * x7, f1);
      assert 1024 * (cB * ((-1 * sA) * x7)) == -((cB * sA) * (1024 * x7));
    }
    ScaleBack(cB, x2, cA * sj, e2);
    ScaleBack(ci, t2, cj * sB, eT);
    assert 1048576 * (1024 * x5) == 1048576 * (sA * sj) - 1048576 * e5;
    DotExpand(cA, sA, cB, sB, ci, si, cj, sj);
    assert -1024 * (cA * (cj * si)) == 1024 * ((-1 * cA) * (cj * si));
    assert 1024 * (cA * e7) == -1024 * ((-1 * cA) * e7);
  }

  lemma DotExpand(cA: int, sA: int, cB: int, sB: int, ci: int, si: int, cj: int, sj: int)
    ensures (cj * si) * (1024 * cA - cB * sA) + (1024 * sj) * (1024 * sA + cB * cA) + (ci * cj) * (1024 * sB)
         == 1024 * (cA * (cj * si)) - (cB * sA) * (cj * si) + 1048576 * (sA * sj)
            + 1024 * (cB * (cA * sj)) + 1024 * (ci * (cj * sB))
  {
  }

  lemma LuminanceError(cA: int, sA: int, cB: int, ci: int, e7: int, f1: int, e2: int, eT: int, e5: int)
    requires -Reach <= cA <= Reach && -Reach <= sA <= Reach && -Reach <= cB <= Reach && -Reach <= ci <= Reach
    requires 0 <= e7 < 1024 && 0 <= f1 < 1024 && 0 <= e2 < 1024 && 0 <= eT < 1024 && 0 <= e5 < 1024
    ensures 1024 * (cA * e7) - (cB * sA) * e7 + 1024 * (cB * f1) + 1024 * (cB * e2) + 1024 * (ci * eT) + 1048576 * e5
            <= 6_500_000_000
  {
    MulBound(cA, e7, Reach, 1024);
    MulBound(cB, sA, Reach, Reach);
    MulBound(cB * sA, e7, Reach * Reach, 1024);
    MulBound(cB, f1, Reach, 1024);
    MulBound(cB, e2, Reach, 1024);
    MulBound(ci, eT, Reach, 1024);
  }

  /** |u . w| <= 1_585_000_000_000, by Cauchy-Schwarz with |u|^2 <= MaxNorm^2 and
      |w|^2 <= MaxNorm * (2^20 + MaxNorm). */
  lemma DotBound(cA: int, sA: int, cB: int, sB: int, ci: int, si: int, cj: int, sj: int)
    requires cA * cA + sA * sA <= MaxNorm && cB * cB + sB * sB <= MaxNorm
    requires ci * ci + si * si <= MaxNorm && cj * cj + sj * sj <= MaxNorm
    ensures var dot := (cj * si) * (1024 * cA - cB * sA) + (1024 * sj) * (1024 * sA + cB * cA) + (ci * cj) * (1024 * sB);
            -1_585_000_000_000 <= dot <= 1_585_000_000_000
  {
    var u1, u2, u3 := cj * si, 1024 * sj, ci * cj;
    var w1, w2, w3 := 1024 * cA - cB * sA, 1024 * sA + cB * cA, 1024 * sB;
    CauchySchwarz3(u1, u2, u3, w1, w2, w3);
    var uu := u1 * u1 + u2 * u2 + u3 * u3;
    var ww := w1 * w1 + w2 * w2 + w3 * w3;
    TubeVectorNorm(ci, si, cj, sj);
    LightVectorNorm(cA, sA, cB, sB);
    SquareNonNeg(u1); SquareNonNeg(u2); SquareNonNeg(u3);
    SquareNonNeg(w1); SquareNonNeg(w2); SquareNonNeg(w3);
    MulLe(uu, ww, MaxNorm * MaxNorm, MaxNorm * (1048576 + MaxNorm));
    var dot := u1 * w1 + u2 * w2 + u3 * w3;
    assert dot * dot <= 1_585_000_000_000 * 1_585_000_000_000;
    RootBound(dot, 1_585_000_000_000);
  }

  lemma TubeVectorNorm(ci: int, si: int, cj: int, sj: int)
    requires ci * ci + si * si <= MaxNorm && cj * cj + sj * sj <= MaxNorm
    ensures (cj * si) * (cj * si) + (1024 * sj) * (1024 * sj) + (ci * cj) * (ci * cj) <= MaxNorm * MaxNorm
  {
    SquareOfProducts(cj, si);
    SquareOfProducts(ci, cj);
    assert (cj * cj) * (si * si) + (ci * ci) * (cj * cj) == (cj * cj) * (ci * ci + si * si);
    SquareNonNeg(cj);
    SquareNonNeg(sj);
    MulLe(cj * cj, ci * ci + si * si, cj * cj, MaxNorm);
    assert (1024 * sj) * (1024 * sj) == 1048576 * (sj * sj);
  }

  lemma LightVectorNorm(cA: int, sA: int, cB: int, sB: int)
    requires cA * cA + sA * sA <= MaxNorm && cB * cB + sB * sB <= MaxNorm
    ensures var w1, w2, w3 := 1024 * cA - cB * sA, 1024 * sA + cB * cA, 1024 * sB;
            w1 * w1 + w2 * w2 + w3 * w3 <= MaxNorm * (1048576 + MaxNorm)
  {
    var w1, w2 := 1024 * cA - cB * sA, 1024 * sA + cB * cA;
    RotatedLength(cA, sA, cB);
    SquareNonNeg(cB);
    SquareNonNeg(sB);
    MulLe(cB * cB, cA * cA + sA * sA, cB * cB, MaxNorm);
    assert (1024 * sB) * (1024 * sB) == 1048576 * (sB * sB);
  }

  lemma RotatedLength(cA: int, sA: int, cB: int)
    ensures (1024 * cA - cB * sA) * (1024 * cA - cB * sA) + (1024 * sA + cB * cA) * (1024 * sA + cB * cA)
         == 1048576 * (cA * cA + sA * sA) + (cB * cB) * (cA * cA + sA * sA)
  {
  }
}
