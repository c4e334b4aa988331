/** Fixed-width integers as the renderer uses them, Rust's truncating division,
    and the nonlinear facts the range proofs of the other modules are built from.

    Values of the newtypes below are checked by Dafny after EVERY arithmetic
    operation, which is what a debug build of the program does when it panics on
    i32 overflow. An arithmetic right shift `v >> k` of an i32 is floor division
    by 2^k, which is what Dafny's `/` computes for a positive divisor. */
module FixedPoint {

  newtype i32 = v: int | -0x8000_0000 <= v < 0x8000_0000
  newtype i8 = v: int | -0x80 <= v < 0x80

  const I32Min: int := -0x8000_0000
  const I8Max: i8 := 127

  function Abs(v: int): (r: nat)
    ensures r == v || r == -v
  {
    if v < 0 then -v else v
  }

  function Pow2(k: nat): (r: nat)
    ensures r >= 1
  {
    if k == 0 then 1 else 2 * Pow2(k - 1)
  }

  /** Rust's `a / b` on i32: the quotient truncated toward zero. The two cases
      in which the program would panic (a zero divisor, and the one quotient
      that does not fit, MIN / -1) are what the precondition excludes. */
  function Quot(a: i32, b: i32): (q: i32)
    requires b != 0 && !(a as int == I32Min && b == -1)
    ensures Abs(b as int) * Abs(q as int) <= Abs(a as int) < Abs(b as int) * (Abs(q as int) + 1)
    ensures q == 0 || ((q > 0) <==> ((a > 0) == (b > 0)))
    ensures Abs(q as int) <= Abs(a as int)
  {
    QuotientFits(a as int, b as int);
    var u := Abs(a as int) / Abs(b as int);
    var q: int := if (a < 0) == (b < 0) then u else -u;
    q as i32
  }

  /** The magnitude of a truncated quotient, and why it fits in an i32. */
  lemma QuotientFits(a: int, b: int)
    requires I32Min <= a < -I32Min && b != 0 && !(a == I32Min && b == -1)
    ensures Abs(b) * (Abs(a) / Abs(b)) <= Abs(a) < Abs(b) * (Abs(a) / Abs(b) + 1)
    ensures (a < 0) == (b < 0) ==> Abs(a) / Abs(b) < -I32Min
    ensures 0 <= Abs(a) / Abs(b) <= Abs(a)
    ensures a == 0 ==> Abs(a) / Abs(b) == 0
  {
    var n, d := Abs(a), Abs(b);
    var u := n / d;
    assert d * u + n % d == n;
    MulLe(1, u, d, u);
    if (a < 0) == (b < 0) && n == -I32Min {
      assert d >= 2;
      MulLe(2, u, d, u);
    }
  }

  /** What an arithmetic right shift (floor division) leaves behind. */
  lemma FloorRemainder(n: int, d: int)
    requires d > 0
    ensures 0 <= n - d * (n / d) < d
  {}

  // ---------------------------------------------------------------------------
  // Products of bounded factors

  lemma MulLe(a: int, b: int, c: int, d: int)
    requires 0 <= a <= c && 0 <= b <= d
    ensures a * b <= c * d
  {
    assert a * b <= c * b;
    assert c * b <= c * d;
  }

  lemma MulBound(a: int, b: int, bA: int, bB: int)
    requires -bA <= a <= bA && -bB <= b <= bB
    ensures -(bA * bB) <= a * b <= bA * bB
  {
    MulLe(Abs(a), Abs(b), bA, bB);
    assert Abs(a) * Abs(b) == Abs(a * b);
  }

  /** A square bounds its root: the fact that turns a magnitude into bounds on
      each component. */
  lemma RootBound(v: int, bound: nat)
    requires v * v <= bound * bound
    ensures -(bound as int) <= v <= bound
  {
    var a := Abs(v);
    assert a * a == v * v;
    assert (a - bound) * (a + bound) == a * a - bound * bound;
    if a > bound {
      MulPositive(a - bound, a + bound);
    }
  }

  lemma MulPositive(a: int, b: int)
    requires a > 0 && b > 0
    ensures a * b > 0
  {}

  lemma SquareLe(a: int, bound: nat)
    requires -(bound as int) <= a <= bound
    ensures a * a <= bound * bound
  {
    MulBound(a, a, bound, bound);
  }

  // ---------------------------------------------------------------------------
  // Cauchy-Schwarz in two and three dimensions, by Lagrange's identity

  lemma SquareNonNeg(v: int)
    ensures v * v >= 0
  {}

  lemma SquareOfProducts(a: int, b: int)
    ensures (a * a) * (b * b) == (a * b) * (a * b)
  {}

  lemma ProductsCommute(a: int, b: int, c: int, d: int)
    ensures (a * b) * (c * d) == (a * d) * (c * b)
  {}

  lemma Distribute3(a1: int, a2: int, a3: int, b1: int, b2: int, b3: int)
    ensures (a1 + a2 + a3) * (b1 + b2 + b3)
         == a1 * b1 + a1 * b2 + a1 * b3 + a2 * b1 + a2 * b2 + a2 * b3 + a3 * b1 + a3 * b2 + a3 * b3
  {}

  /** Lagrange's identity with the nine products a_i * b_j as unknowns. */
  lemma Lagrange(x11: int, x12: int, x13: int, x21: int, x22: int, x23: int, x31: int, x32: int, x33: int)
    requires x11 * x22 == x12 * x21 && x11 * x33 == x13 * x31 && x22 * x33 == x23 * x32
    ensures (x11 + x22 + x33) * (x11 + x22 + x33)
            + (x12 - x21) * (x12 - x21) + (x13 - x31) * (x13 - x31) + (x23 - x32) * (x23 - x32)
         == x11 * x11 + x12 * x12 + x13 * x13 + x21 * x21 + x22 * x22 + x23 * x23
            + x31 * x31 + x32 * x32 + x33 * x33
  {}

  lemma CauchySchwarz2(a1: int, a2: int, b1: int, b2: int)
    ensures (a1 * b1 + a2 * b2) * (a1 * b1 + a2 * b2)
         <= (a1 * a1 + a2 * a2) * (b1 * b1 + b2 * b2)
  {
    CauchySchwarz3(a1, a2, 0, b1, b2, 0);
  }

  lemma CauchySchwarz3(a1: int, a2: int, a3: int, b1: int, b2: int, b3: int)
    ensures (a1 * b1 + a2 * b2 + a3 * b3) * (a1 * b1 + a2 * b2 + a3 * b3)
         <= (a1 * a1 + a2 * a2 + a3 * a3) * (b1 * b1 + b2 * b2 + b3 * b3)
  {
    Distribute3(a1 * a1, a2 * a2, a3 * a3, b1 * b1, b2 * b2, b3 * b3);
    SquareOfProducts(a1, b1); SquareOfProducts(a1, b2); SquareOfProducts(a1, b3);
    SquareOfProducts(a2, b1); SquareOfProducts(a2, b2); SquareOfProducts(a2, b3);
    SquareOfProducts(a3, b1); SquareOfProducts(a3, b2); SquareOfProducts(a3, b3);
    ProductsCommute(a1, b1, a2, b2); ProductsCommute(a1, b1, a3, b3); ProductsCommute(a2, b2, a3, b3);
    SquareNonNeg(a1 * b2 - a2 * b1); SquareNonNeg(a1 * b3 - a3 * b1); SquareNonNeg(a2 * b3 - a3 * b2);
    Lagrange(a1 * b1, a1 * b2, a1 * b3, a2 * b1, a2 * b2, a2 * b3, a3 * b1, a3 * b2, a3 * b3);
  }

  /** The square-root step of a Cauchy-Schwarz argument with both squared
      lengths bounded: |v| <= bound when v^2 <= n * k, n <= nMax, k <= kMax and
      nMax * kMax <= bound^2. */
  lemma RootOfProduct(v: int, n: int, k: int, nMax: int, kMax: int, bound: nat)
    requires v * v <= n * k && 0 <= n <= nMax && 0 <= k <= kMax && nMax * kMax <= bound * bound
    ensures -(bound as int) <= v <= bound
  {
    MulLe(n, k, nMax, kMax);
    RootBound(v, bound);
  }

  /** Multiplying back a value shifted right by 10: if 1024 * v == p - e then
      1024 * (k * v) == k * p - k * e. */
  lemma ScaleBack(k: int, v: int, p: int, e: int)
    requires 1024 * v == p - e
    ensures 1024 * (k * v) == k * p - k * e
  {
    assert k * (1024 * v) == k * (p - e);
  }
}
