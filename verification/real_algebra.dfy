/** Polynomial facts over the reals, stated on scalars. A parameter with an equation
    names an intermediate result of the caller. */
module RealAlgebra {
  /** `s` is the square root numpy returns for `x`. */
  predicate IsSqrt(s: real, x: real) { s >= 0.0 && s * s == x }

  lemma SqrtUnique(s: real, t: real)
    requires s >= 0.0 && t >= 0.0 && s * s == t * t
    ensures s == t
  {
    assert (s - t) * (s + t) == 0.0;
    ZeroProduct(s - t, s + t);
  }

  /** A root passes a threshold when the number passes its square. */
  lemma RootThreshold(s: real, x: real, e: real)
    requires IsSqrt(s, x) && e >= 0.0
    ensures s >= e <==> x >= e * e
  {
    if s >= e {
      NonNegativeProduct(s - e, s + e, x - e * e);
    } else {
      PositiveProduct(e - s, e + s, e * e - x);
    }
  }

  lemma ScaledThreshold(x: real, y: real, e: real)
    requires x > 0.0
    ensures x * y >= e * x <==> y >= e
  {
    if y >= e {
      NonNegativeProduct(x, y - e, x * y - e * x);
    } else {
      PositiveProduct(x, e - y, e * x - x * y);
    }
  }

  lemma ResidualNorm2(b1: real, b2: real, b3: real, c1: real, c2: real, c3: real, u1: real, u2: real, u3: real,
                      d: real, n: real)
    requires d == b1 * c1 + b2 * c2 + b3 * c3 && b1 * b1 + b2 * b2 + b3 * b3 == 1.0
    requires u1 == c1 - d * b1 && u2 == c2 - d * b2 && u3 == c3 - d * b3
    requires n == c1 * c1 + c2 * c2 + c3 * c3
    ensures u1 * u1 + u2 * u2 + u3 * u3 == n - d * d
  {
    ResidualPolynomial(b1, b2, b3, c1, c2, c3, d, n, d, b1 * b1 + b2 * b2 + b3 * b3);
  }

  lemma ResidualPolynomial(b1: real, b2: real, b3: real, c1: real, c2: real, c3: real, d: real, n: real, e: real, m: real)
    requires e == b1 * c1 + b2 * c2 + b3 * c3 && m == b1 * b1 + b2 * b2 + b3 * b3 && n == c1 * c1 + c2 * c2 + c3 * c3
    ensures (c1 - d * b1) * (c1 - d * b1) + (c2 - d * b2) * (c2 - d * b2) + (c3 - d * b3) * (c3 - d * b3)
         == n - 2.0 * d * e + d * d * m
  {}

  /** The area of the two columns, through the unit vector along the first. */
  lemma AreaThroughResidual(n1: real, d: real, n: real, x: real, m: real, area: real)
    requires m == n1 * n1 && x == n1 * d && area == m * n - x * x
    ensures area == m * (n - d * d)
  {}

  lemma ZeroProduct(a: real, b: real)
    requires a * b == 0.0
    ensures a == 0.0 || b == 0.0
  {}

  lemma PositiveProduct(a: real, b: real, m: real)
    requires a > 0.0 && b > 0.0 && m == a * b
    ensures m > 0.0
  {}

  lemma Divide(a: real, n: real)
    requires n != 0.0
    ensures (a / n) * n == a
  {}

  /** `b` is what `a / n` must be. */
  lemma Quotient(a: real, n: real, b: real)
    requires n != 0.0 && b * n == a
    ensures a / n == b
  {}

  lemma Cancel(x: real, y: real, m: real)
    requires m != 0.0 && x * m == y * m
    ensures x == y
  {}

  lemma SumOfSquaresZero(a: real, b: real, c: real)
    requires a * a + b * b + c * c == 0.0
    ensures a == 0.0 && b == 0.0 && c == 0.0
  {
    SquareZero(a, b * b + c * c);
    SquareZero(b, a * a + c * c);
    SquareZero(c, a * a + b * b);
  }

  lemma SquareZero(a: real, rest: real)
    requires a * a + rest == 0.0 && rest >= 0.0
    ensures a == 0.0
  {
    assert a * a >= 0.0;
    ZeroProduct(a, a);
  }

  lemma ScaledSum(n: real, p: real, q: real, r: real, s: real, a: real, b: real, c: real, d: real, m: real, x: real)
    requires a == p * n && b == q * n && c == r * n && d == s * n
    requires m == n * n && x == p * p + q * q + r * r + s * s
    ensures x * m == a * a + b * b + c * c + d * d
  {}

  lemma UnitRatio(x: real, m: real)
    requires m > 0.0 && x * m == m
    ensures x == 1.0
  {}

  /** Dividing by the norm gives norm 1. */
  lemma UnitAfterScaling(a: real, b: real, c: real, d: real, n: real, m: real,
                         p: real, q: real, r: real, s: real, x: real)
    requires n > 0.0 && m == n * n && m == a * a + b * b + c * c + d * d
    requires p * n == a && q * n == b && r * n == c && s * n == d
    requires x == p * p + q * q + r * r + s * s
    ensures x == 1.0
  {
    ScaledSum(n, p, q, r, s, a, b, c, d, m, x);
    PositiveProduct(n, n, m);
    UnitRatio(x, m);
  }

  /** The four components of the Hamilton product. */
  function ProductW(a0: real, a1: real, a2: real, a3: real, b0: real, b1: real, b2: real, b3: real): real {
    a0 * b0 - a1 * b1 - a2 * b2 - a3 * b3
  }

  function ProductX(a0: real, a1: real, a2: real, a3: real, b0: real, b1: real, b2: real, b3: real): real {
    a0 * b1 + a1 * b0 + a2 * b3 - a3 * b2
  }

  function ProductY(a0: real, a1: real, a2: real, a3: real, b0: real, b1: real, b2: real, b3: real): real {
    a0 * b2 - a1 * b3 + a2 * b0 + a3 * b1
  }

  function ProductZ(a0: real, a1: real, a2: real, a3: real, b0: real, b1: real, b2: real, b3: real): real {
    a0 * b3 + a1 * b2 - a2 * b1 + a3 * b0
  }

  predicate ProductEntries(a0: real, a1: real, a2: real, a3: real, b0: real, b1: real, b2: real, b3: real,
                           p0: real, p1: real, p2: real, p3: real) {
    && p0 == ProductW(a0, a1, a2, a3, b0, b1, b2, b3) && p1 == ProductX(a0, a1, a2, a3, b0, b1, b2, b3)
    && p2 == ProductY(a0, a1, a2, a3, b0, b1, b2, b3) && p3 == ProductZ(a0, a1, a2, a3, b0, b1, b2, b3)
  }

  lemma ProductNorm(a0: real, a1: real, a2: real, a3: real, b0: real, b1: real, b2: real, b3: real,
                    p0: real, p1: real, p2: real, p3: real)
    requires ProductEntries(a0, a1, a2, a3, b0, b1, b2, b3, p0, p1, p2, p3)
    ensures p0 * p0 + p1 * p1 + p2 * p2 + p3 * p3
         == (a0 * a0 + a1 * a1 + a2 * a2 + a3 * a3) * (b0 * b0 + b1 * b1 + b2 * b2 + b3 * b3)
  {}

  lemma CycleEntriesOfProduct(a0: real, a1: real, a2: real, a3: real, b0: real, b1: real, b2: real, b3: real,
                              p0: real, p1: real, p2: real, p3: real)
    requires ProductEntries(a0, a1, a2, a3, b0, b1, b2, b3, p0, p1, p2, p3)
    ensures ProductEntries(a0, a2, a3, a1, b0, b2, b3, b1, p0, p2, p3, p1)
  {}

  lemma NegEntriesLeft(a0: real, a1: real, a2: real, a3: real, b0: real, b1: real, b2: real, b3: real,
                       p0: real, p1: real, p2: real, p3: real)
    requires ProductEntries(a0, a1, a2, a3, b0, b1, b2, b3, p0, p1, p2, p3)
    ensures ProductEntries(-a0, -a1, -a2, -a3, b0, b1, b2, b3, -p0, -p1, -p2, -p3)
  {}

  lemma NegEntriesRight(a0: real, a1: real, a2: real, a3: real, b0: real, b1: real, b2: real, b3: real,
                        p0: real, p1: real, p2: real, p3: real)
    requires ProductEntries(a0, a1, a2, a3, b0, b1, b2, b3, p0, p1, p2, p3)
    ensures ProductEntries(a0, a1, a2, a3, -b0, -b1, -b2, -b3, -p0, -p1, -p2, -p3)
  {}

  lemma ConjEntries(a0: real, a1: real, a2: real, a3: real, b0: real, b1: real, b2: real, b3: real,
                    p0: real, p1: real, p2: real, p3: real)
    requires ProductEntries(a0, a1, a2, a3, b0, b1, b2, b3, p0, p1, p2, p3)
    ensures ProductEntries(b0, -b1, -b2, -b3, a0, -a1, -a2, -a3, p0, -p1, -p2, -p3)
  {}

  /** The real part of a triple product does not depend on the bracketing. */
  lemma TripleReal(a0: real, a1: real, a2: real, a3: real, b0: real, b1: real, b2: real, b3: real,
                   c0: real, c1: real, c2: real, c3: real,
                   p0: real, p1: real, p2: real, p3: real, r0: real, r1: real, r2: real, r3: real)
    requires ProductEntries(a0, a1, a2, a3, b0, b1, b2, b3, p0, p1, p2, p3)
    requires ProductEntries(b0, b1, b2, b3, c0, c1, c2, c3, r0, r1, r2, r3)
    ensures p0 * c0 - p1 * c1 - p2 * c2 - p3 * c3 == a0 * r0 - a1 * r1 - a2 * r2 - a3 * r3
  {
    TripleRealPolynomial(a0, a1, a2, a3, b0, b1, b2, b3, c0, c1, c2, c3, p0, p1, p2, p3, r0, r1, r2, r3);
  }

  lemma TripleRealPolynomial(a0: real, a1: real, a2: real, a3: real, b0: real, b1: real, b2: real, b3: real,
                  c0: real, c1: real, c2: real, c3: real,
                  p0: real, p1: real, p2: real, p3: real, r0: real, r1: real, r2: real, r3: real)
    requires p0 == a0 * b0 - a1 * b1 - a2 * b2 - a3 * b3
    requires p1 == a0 * b1 + a1 * b0 + a2 * b3 - a3 * b2
    requires p2 == a0 * b2 - a1 * b3 + a2 * b0 + a3 * b1
    requires p3 == a0 * b3 + a1 * b2 - a2 * b1 + a3 * b0
    requires r0 == b0 * c0 - b1 * c1 - b2 * c2 - b3 * c3
    requires r1 == b0 * c1 + b1 * c0 + b2 * c3 - b3 * c2
    requires r2 == b0 * c2 - b1 * c3 + b2 * c0 + b3 * c1
    requires r3 == b0 * c3 + b1 * c2 - b2 * c1 + b3 * c0
    ensures p0 * c0 - p1 * c1 - p2 * c2 - p3 * c3 == a0 * r0 - a1 * r1 - a2 * r2 - a3 * r3
  {}

  /** Its first imaginary part does not either. */
  lemma TripleFirst(a0: real, a1: real, a2: real, a3: real, b0: real, b1: real, b2: real, b3: real,
                    c0: real, c1: real, c2: real, c3: real,
                    p0: real, p1: real, p2: real, p3: real, r0: real, r1: real, r2: real, r3: real)
    requires ProductEntries(a0, a1, a2, a3, b0, b1, b2, b3, p0, p1, p2, p3)
    requires ProductEntries(b0, b1, b2, b3, c0, c1, c2, c3, r0, r1, r2, r3)
    ensures p0 * c1 + p1 * c0 + p2 * c3 - p3 * c2 == a0 * r1 + a1 * r0 + a2 * r3 - a3 * r2
  {
    TripleFirstPolynomial(a0, a1, a2, a3, b0, b1, b2, b3, c0, c1, c2, c3, p0, p1, p2, p3, r0, r1, r2, r3);
  }

  lemma TripleFirstPolynomial(a0: real, a1: real, a2: real, a3: real, b0: real, b1: real, b2: real, b3: real,
                  c0: real, c1: real, c2: real, c3: real,
                  p0: real, p1: real, p2: real, p3: real, r0: real, r1: real, r2: real, r3: real)
    requires p0 == a0 * b0 - a1 * b1 - a2 * b2 - a3 * b3
    requires p1 == a0 * b1 + a1 * b0 + a2 * b3 - a3 * b2
    requires p2 == a0 * b2 - a1 * b3 + a2 * b0 + a3 * b1
    requires p3 == a0 * b3 + a1 * b2 - a2 * b1 + a3 * b0
    requires r0 == b0 * c0 - b1 * c1 - b2 * c2 - b3 * c3
    requires r1 == b0 * c1 + b1 * c0 + b2 * c3 - b3 * c2
    requires r2 == b0 * c2 - b1 * c3 + b2 * c0 + b3 * c1
    requires r3 == b0 * c3 + b1 * c2 - b2 * c1 + b3 * c0
    ensures p0 * c1 + p1 * c0 + p2 * c3 - p3 * c2 == a0 * r1 + a1 * r0 + a2 * r3 - a3 * r2
  {}

  predicate TwistEntries(q1: real, q2: real, q3: real, v1: real, v2: real, v3: real, t1: real, t2: real, t3: real) {
    && t1 == 2.0 * (q2 * v3 - q3 * v2)
    && t2 == 2.0 * (q3 * v1 - q1 * v3)
    && t3 == 2.0 * (q1 * v2 - q2 * v1)
  }

  /** `quat_rotate` after its first cross product. */
  predicate RotatedEntries(q0: real, q1: real, q2: real, q3: real, v1: real, v2: real, v3: real,
                           t1: real, t2: real, t3: real, r1: real, r2: real, r3: real) {
    && r1 == v1 + q0 * t1 + (q2 * t3 - q3 * t2)
    && r2 == v2 + q0 * t2 + (q3 * t1 - q1 * t3)
    && r3 == v3 + q0 * t3 + (q1 * t2 - q2 * t1)
  }

  /** One imaginary component of `q v q*` against `quat_rotate`. */
  lemma RotatedComponent(q0: real, q1: real, q2: real, q3: real, v0: real, v1: real, v2: real, v3: real,
                         t1: real, t2: real, t3: real, r1: real, r2: real, r3: real,
                         p0: real, p1: real, p2: real, p3: real, h0: real, h1: real, h2: real, h3: real)
    requires q0 * q0 + q1 * q1 + q2 * q2 + q3 * q3 == 1.0
    requires TwistEntries(q1, q2, q3, v1, v2, v3, t1, t2, t3)
    requires RotatedEntries(q0, q1, q2, q3, v1, v2, v3, t1, t2, t3, r1, r2, r3)
    requires ProductEntries(q0, q1, q2, q3, v0, v1, v2, v3, p0, p1, p2, p3)
    requires ProductEntries(p0, p1, p2, p3, q0, -q1, -q2, -q3, h0, h1, h2, h3)
    ensures r1 == h1
  {
    RotatedPolynomial(q0, q1, q2, q3, v0, v1, v2, v3, t1, t2, t3, p0, p1, p2, p3,
                      q0 * q0 + q1 * q1 + q2 * q2 + q3 * q3);
  }

  lemma RotatedPolynomial(q0: real, q1: real, q2: real, q3: real, v0: real, v1: real, v2: real, v3: real,
                          t1: real, t2: real, t3: real, p0: real, p1: real, p2: real, p3: real, n: real)
    requires n == q0 * q0 + q1 * q1 + q2 * q2 + q3 * q3
    requires TwistEntries(q1, q2, q3, v1, v2, v3, t1, t2, t3)
    requires ProductEntries(q0, q1, q2, q3, v0, v1, v2, v3, p0, p1, p2, p3)
    ensures n * v1 + q0 * t1 + (q2 * t3 - q3 * t2) == p0 * (-q1) + p1 * q0 + p2 * (-q3) - p3 * (-q2)
  {}

  /** The real component of `q v q*`. */
  lemma RotatedReal(q0: real, q1: real, q2: real, q3: real, v0: real, v1: real, v2: real, v3: real,
                    p0: real, p1: real, p2: real, p3: real, h0: real, h1: real, h2: real, h3: real)
    requires q0 * q0 + q1 * q1 + q2 * q2 + q3 * q3 == 1.0
    requires ProductEntries(q0, q1, q2, q3, v0, v1, v2, v3, p0, p1, p2, p3)
    requires ProductEntries(p0, p1, p2, p3, q0, -q1, -q2, -q3, h0, h1, h2, h3)
    ensures h0 == v0
  {
    RealPolynomial(q0, q1, q2, q3, v0, v1, v2, v3, p0, p1, p2, p3, q0 * q0 + q1 * q1 + q2 * q2 + q3 * q3);
  }

  lemma RealPolynomial(q0: real, q1: real, q2: real, q3: real, v0: real, v1: real, v2: real, v3: real,
                       p0: real, p1: real, p2: real, p3: real, n: real)
    requires n == q0 * q0 + q1 * q1 + q2 * q2 + q3 * q3
    requires ProductEntries(q0, q1, q2, q3, v0, v1, v2, v3, p0, p1, p2, p3)
    ensures p0 * q0 - p1 * (-q1) - p2 * (-q2) - p3 * (-q3) == n * v0
  {}

  lemma Lagrange(a1: real, a2: real, a3: real, b1: real, b2: real, b3: real, d1: real, d2: real, d3: real)
    requires d1 == a2 * b3 - a3 * b2 && d2 == a3 * b1 - a1 * b3 && d3 == a1 * b2 - a2 * b1
    ensures d1 * d1 + d2 * d2 + d3 * d3
         == (a1 * a1 + a2 * a2 + a3 * a3) * (b1 * b1 + b2 * b2 + b3 * b3)
            - (a1 * b1 + a2 * b2 + a3 * b3) * (a1 * b1 + a2 * b2 + a3 * b3)
  {}

  /** Rows of a matrix whose columns are cross products of each other. */
  lemma RowProducts(m00: real, m01: real, m02: real, m10: real, m11: real, m12: real, m20: real, m21: real, m22: real, det: real)
    requires m00 == m11 * m22 - m21 * m12 && m01 == m12 * m20 - m22 * m10 && m02 == m10 * m21 - m20 * m11
    requires det == m00 * (m11 * m22 - m21 * m12) + m10 * (m21 * m02 - m01 * m22) + m20 * (m01 * m12 - m11 * m02)
    ensures m00 * m00 + m01 * m01 + m02 * m02 == det
    ensures m00 * m10 + m01 * m11 + m02 * m12 == 0.0
    ensures m00 * m20 + m01 * m21 + m02 * m22 == 0.0
  {}

  /** A rotation matrix entry by entry: orthonormal columns and rows, and every entry
      equal to its cofactor. */
  predicate RotationEntries(m00: real, m01: real, m02: real, m10: real, m11: real, m12: real, m20: real, m21: real, m22: real) {
    && OrthonormalEntries(m00, m01, m02, m10, m11, m12, m20, m21, m22)
    && CofactorEntries(m00, m01, m02, m10, m11, m12, m20, m21, m22)
  }

  predicate OrthonormalEntries(m00: real, m01: real, m02: real, m10: real, m11: real, m12: real, m20: real, m21: real, m22: real) {
    && OrthonormalRows(m00, m10, m20, m01, m11, m21, m02, m12, m22)
    && OrthonormalRows(m00, m01, m02, m10, m11, m12, m20, m21, m22)
  }

  predicate OrthonormalRows(m00: real, m01: real, m02: real, m10: real, m11: real, m12: real, m20: real, m21: real, m22: real) {
    && m00 * m00 + m01 * m01 + m02 * m02 == 1.0
    && m10 * m10 + m11 * m11 + m12 * m12 == 1.0
    && m20 * m20 + m21 * m21 + m22 * m22 == 1.0
    && m00 * m10 + m01 * m11 + m02 * m12 == 0.0
    && m00 * m20 + m01 * m21 + m02 * m22 == 0.0
    && m10 * m20 + m11 * m21 + m12 * m22 == 0.0
  }

  /** Each column is the cross product of the next two. */
  predicate CofactorEntries(m00: real, m01: real, m02: real, m10: real, m11: real, m12: real, m20: real, m21: real, m22: real) {
    && CrossOf(m01, m11, m21, m02, m12, m22, m00, m10, m20)
    && CrossOf(m02, m12, m22, m00, m10, m20, m01, m11, m21)
    && CrossOf(m00, m10, m20, m01, m11, m21, m02, m12, m22)
  }

  predicate CrossOf(a1: real, a2: real, a3: real, b1: real, b2: real, b3: real, c1: real, c2: real, c3: real) {
    c1 == a2 * b3 - a3 * b2 && c2 == a3 * b1 - a1 * b3 && c3 == a1 * b2 - a2 * b1
  }

  lemma CycleEntries(m00: real, m01: real, m02: real, m10: real, m11: real, m12: real, m20: real, m21: real, m22: real)
    requires RotationEntries(m00, m01, m02, m10, m11, m12, m20, m21, m22)
    ensures RotationEntries(m11, m12, m10, m21, m22, m20, m01, m02, m00)
  {}

  /** For a rotation matrix the 2x2 minors of Shepperd's 4x4 matrix vanish. */
  lemma Minors(m00: real, m01: real, m02: real, m10: real, m11: real, m12: real, m20: real, m21: real, m22: real,
               kww: real, kxx: real, kyy: real, kzz: real,
               kwx: real, kwy: real, kwz: real, kxy: real, kxz: real, kyz: real)
    requires RotationEntries(m00, m01, m02, m10, m11, m12, m20, m21, m22)
    requires kww == 1.0 + m00 + m11 + m22 && kxx == 1.0 + m00 - m11 - m22
    requires kyy == 1.0 + m11 - m00 - m22 && kzz == 1.0 + m22 - m00 - m11
    requires kwx == m21 - m12 && kwy == m02 - m20 && kwz == m10 - m01
    requires kxy == m01 + m10 && kxz == m02 + m20 && kyz == m12 + m21
    ensures kwx * kwx == kww * kxx && kwy * kwy == kww * kyy && kwz * kwz == kww * kzz
    ensures kwx * kwy == kww * kxy && kwx * kwz == kww * kxz && kwy * kwz == kww * kyz
    ensures kxy * kxy == kxx * kyy && kxz * kxz == kxx * kzz && kxy * kxz == kxx * kyz
    ensures kwx * kxy == kxx * kwy && kwx * kxz == kxx * kwz
  {}

  /** The first row of the rotation matrix. */
  predicate RowEntries(q0: real, q1: real, q2: real, q3: real, m1: real, m2: real, m3: real) {
    m1 == OnDiagonal(q2, q3) && m2 == Minus(q1, q2, q0, q3) && m3 == Plus(q1, q3, q0, q2)
  }

  /** The three forms that its entries have. */
  function OnDiagonal(y: real, z: real): real { 1.0 - 2.0 * (y * y + z * z) }
  function Plus(a: real, b: real, c: real, d: real): real { 2.0 * (a * b + c * d) }
  function Minus(a: real, b: real, c: real, d: real): real { 2.0 * (a * b - c * d) }

  lemma Commuted(a: real, b: real, c: real, d: real)
    ensures Plus(a, b, c, d) == Plus(b, a, c, d) && Minus(a, b, c, d) == Minus(b, a, c, d)
    ensures OnDiagonal(a, b) == OnDiagonal(b, a)
  {}

  /** That row against `quat_rotate`. */
  lemma RotatedRow(q0: real, q1: real, q2: real, q3: real, v1: real, v2: real, v3: real,
                   t1: real, t2: real, t3: real, r1: real, r2: real, r3: real, m1: real, m2: real, m3: real)
    requires TwistEntries(q1, q2, q3, v1, v2, v3, t1, t2, t3)
    requires RotatedEntries(q0, q1, q2, q3, v1, v2, v3, t1, t2, t3, r1, r2, r3)
    requires RowEntries(q0, q1, q2, q3, m1, m2, m3)
    ensures r1 == v1 * m1 + v2 * m2 + v3 * m3
  {
    RowPolynomial(q0, q1, q2, q3, v1, v2, v3, t1, t2, t3, m1, m2, m3, r1);
  }

  lemma RowPolynomial(q0: real, q1: real, q2: real, q3: real, v1: real, v2: real, v3: real,
                      t1: real, t2: real, t3: real, m1: real, m2: real, m3: real, r: real)
    requires t1 == 2.0 * (q2 * v3 - q3 * v2) && t2 == 2.0 * (q3 * v1 - q1 * v3) && t3 == 2.0 * (q1 * v2 - q2 * v1)
    requires m1 == 1.0 - 2.0 * (q2 * q2 + q3 * q3)
    requires m2 == 2.0 * (q1 * q2 - q0 * q3) && m3 == 2.0 * (q1 * q3 + q0 * q2)
    requires r == v1 + q0 * t1 + (q2 * t3 - q3 * t2)
    ensures r == v1 * m1 + v2 * m2 + v3 * m3
  {}

  /** Four times the squares of a quaternion, from the diagonal of its matrix. */
  predicate SquareEntries(ww: real, xx: real, yy: real, zz: real, m00: real, m11: real, m22: real) {
    && 4.0 * ww == 1.0 + m00 + m11 + m22 && 4.0 * xx == 1.0 + m00 - m11 - m22
    && 4.0 * yy == 1.0 + m11 - m00 - m22 && 4.0 * zz == 1.0 + m22 - m00 - m11
  }

  /** And the diagonal, from the squares. */
  predicate DiagonalEntries(xx: real, yy: real, zz: real, m00: real, m11: real, m22: real) {
    m00 == 1.0 - 2.0 * (yy + zz) && m11 == 1.0 - 2.0 * (xx + zz) && m22 == 1.0 - 2.0 * (xx + yy)
  }

  predicate SumToOne(ww: real, xx: real, yy: real, zz: real) { ww + xx + yy + zz == 1.0 }

  lemma DiagonalAndSquares(ww: real, xx: real, yy: real, zz: real, m00: real, m11: real, m22: real)
    ensures SquareEntries(ww, xx, yy, zz, m00, m11, m22)
       <==> DiagonalEntries(xx, yy, zz, m00, m11, m22) && SumToOne(ww, xx, yy, zz)
  {}

  /** Four times two products of components, from a pair of mirrored entries. */
  predicate PairEntries(p: real, r: real, upper: real, lower: real) {
    4.0 * p == upper - lower && 4.0 * r == upper + lower
  }

  /** And the pair, from the products. */
  predicate MirroredEntries(p: real, r: real, upper: real, lower: real) {
    upper == 2.0 * (r + p) && lower == 2.0 * (r - p)
  }

  lemma MirroredForms(w: real, x: real, y: real, z: real)
    ensures MirroredEntries(w * x, y * z, Plus(y, z, w, x), Minus(y, z, w, x))
  {}

  lemma DiagonalForms(x: real, y: real, z: real)
    ensures DiagonalEntries(x * x, y * y, z * z, OnDiagonal(y, z), OnDiagonal(x, z), OnDiagonal(x, y))
  {}

  lemma PairAndMirrored(p: real, r: real, upper: real, lower: real)
    ensures PairEntries(p, r, upper, lower) <==> MirroredEntries(p, r, upper, lower)
  {}

  lemma SameSquares(ww: real, xx: real, yy: real, zz: real, ww': real, xx': real, yy': real, zz': real,
                    m00: real, m11: real, m22: real)
    requires SquareEntries(ww, xx, yy, zz, m00, m11, m22) && SquareEntries(ww', xx', yy', zz', m00, m11, m22)
    ensures ww == ww' && xx == xx' && yy == yy' && zz == zz'
  {}

  lemma SamePair(p: real, r: real, p': real, r': real, upper: real, lower: real)
    requires PairEntries(p, r, upper, lower) && PairEntries(p', r', upper, lower)
    ensures p == p' && r == r'
  {}

  /** Entries of a vector scaled by `s` recover entries of a rank-one matrix. */
  lemma RecoverEntry(a: real, b: real, s: real, ra: real, rb: real, k: real, e: real)
    requires a * s == ra && b * s == rb && s * s == 4.0 * k && k > 0.0 && ra * rb == k * e
    ensures 4.0 * (a * b) == e
  {
    ScaledPair(a, b, s, ra, rb, a * b, s * s);
    Cancel(4.0 * (a * b), e, k);
  }

  lemma ScaledPair(a: real, b: real, s: real, ra: real, rb: real, ab: real, ss: real)
    requires ra == a * s && rb == b * s && ab == a * b && ss == s * s
    ensures ab * ss == ra * rb
  {}

  /** The products of `p` with the others are those of `a`. */
  predicate SameRow(a: real, b: real, c: real, d: real, p: real, q: real, r: real, s: real) {
    p * p == a * a && p * q == a * b && p * r == a * c && p * s == a * d
  }

  /** Then, if `a` is not zero, all agree up to a common sign. */
  lemma SignOf(a: real, b: real, c: real, d: real, p: real, q: real, r: real, s: real)
    requires a != 0.0 && SameRow(a, b, c, d, p, q, r, s)
    ensures (p == a && q == b && r == c && s == d) || (p == -a && q == -b && r == -c && s == -d)
  {
    EqualSquares(p, a);
    if p == a {
      Cancel(q, b, a); Cancel(r, c, a); Cancel(s, d, a);
    } else {
      CancelNeg(p, q, a, b); CancelNeg(p, r, a, c); CancelNeg(p, s, a, d);
    }
  }

  lemma EqualSquares(p: real, a: real)
    requires p * p == a * a
    ensures p == a || p == -a
  {
    assert (p - a) * (p + a) == 0.0;
    ZeroProduct(p - a, p + a);
  }

  lemma CancelNeg(p: real, q: real, a: real, b: real)
    requires a != 0.0 && p == -a && p * q == a * b
    ensures q == -b
  {
    Cancel(-q, b, a);
  }

  lemma DifferenceSquares(a: real, b: real, c: real, p: real, q: real, r: real)
    ensures (a - p) * (a - p) + (b - q) * (b - q) + (c - r) * (c - r)
         == (a * a + b * b + c * c) + (p * p + q * q + r * r) - 2.0 * (a * p + b * q + c * r)
  {}

  lemma TripleProduct(a1: real, a2: real, a3: real, b1: real, b2: real, b3: real, c1: real, c2: real, c3: real,
                      d1: real, d2: real, d3: real, e1: real, e2: real, e3: real)
    requires d1 == b2 * c3 - b3 * c2 && d2 == b3 * c1 - b1 * c3 && d3 == b1 * c2 - b2 * c1
    requires e1 == c2 * a3 - c3 * a2 && e2 == c3 * a1 - c1 * a3 && e3 == c1 * a2 - c2 * a1
    ensures a1 * d1 + a2 * d2 + a3 * d3 == b1 * e1 + b2 * e2 + b3 * e3
  {}

  lemma ResidualDot(b1: real, b2: real, b3: real, c1: real, c2: real, c3: real, u1: real, u2: real, u3: real, d: real, n: real, bc: real)
    requires bc == b1 * c1 + b2 * c2 + b3 * c3 && n == b1 * b1 + b2 * b2 + b3 * b3
    requires u1 == c1 - d * b1 && u2 == c2 - d * b2 && u3 == c3 - d * b3
    ensures b1 * u1 + b2 * u2 + b3 * u3 == bc - d * n
  {}

  lemma ScaledDot(a1: real, a2: real, a3: real, b1: real, b2: real, b3: real, v1: real, v2: real, v3: real, n: real)
    requires v1 == n * b1 && v2 == n * b2 && v3 == n * b3
    ensures a1 * v1 + a2 * v2 + a3 * v3 == n * (a1 * b1 + a2 * b2 + a3 * b3)
  {}

  lemma NormOfScaled(u1: real, u2: real, u3: real, w1: real, w2: real, w3: real, k: real, n: real)
    requires w1 == k * u1 && w2 == k * u2 && w3 == k * u3 && n == u1 * u1 + u2 * u2 + u3 * u3
    ensures w1 * w1 + w2 * w2 + w3 * w3 == (k * k) * n
  {}

  /** `b x (a x b)`, for a unit `b` orthogonal to `a`. */
  lemma DoubleCrossEntries(a1: real, a2: real, a3: real, b1: real, b2: real, b3: real, c1: real, c2: real, c3: real,
                           n: real, d: real)
    requires CrossOf(a1, a2, a3, b1, b2, b3, c1, c2, c3)
    requires n == b1 * b1 + b2 * b2 + b3 * b3 && d == a1 * b1 + a2 * b2 + a3 * b3 && n == 1.0 && d == 0.0
    ensures CrossOf(b1, b2, b3, c1, c2, c3, a1, a2, a3)
  {
    DoubleCrossComponent(a1, a2, a3, b1, b2, b3, c2, c3, n, d);
    DoubleCrossComponent(a2, a3, a1, b2, b3, b1, c3, c1, n, d);
    DoubleCrossComponent(a3, a1, a2, b3, b1, b2, c1, c2, n, d);
  }

  lemma DoubleCrossComponent(a1: real, a2: real, a3: real, b1: real, b2: real, b3: real, c2: real, c3: real, n: real, d: real)
    requires c2 == a3 * b1 - a1 * b3 && c3 == a1 * b2 - a2 * b1
    requires n == b1 * b1 + b2 * b2 + b3 * b3 && d == a1 * b1 + a2 * b2 + a3 * b3 && n == 1.0 && d == 0.0
    ensures a1 == b2 * c3 - b3 * c2
  {
    assert b2 * c3 - b3 * c2 == a1 * n - b1 * d;
  }

  lemma ShearDot(p1: real, p2: real, p3: real, q1: real, q2: real, q3: real, c1: real, c2: real, c3: real,
                 b: real, k: real, d: real, e: real, n: real)
    requires c1 == b * q1 + k * p1 && c2 == b * q2 + k * p2 && c3 == b * q3 + k * p3
    requires d == p1 * q1 + p2 * q2 + p3 * q3 && e == p1 * c1 + p2 * c2 + p3 * c3
    requires n == p1 * p1 + p2 * p2 + p3 * p3
    ensures e == b * d + k * n
  {}

  lemma ShearComponent(p: real, q: real, c: real, b: real, k: real, d: real, e: real, u: real)
    requires c == b * q + k * p && e == b * d + k && u == q - d * p
    ensures c - e * p == b * u
  {}

  lemma NonNegativeProduct(a: real, b: real, m: real)
    requires a >= 0.0 && b >= 0.0 && m == a * b
    ensures m >= 0.0
  {}

  lemma SquareOfProduct(k: real, d: real, r: real)
    requires r == k * d
    ensures (k * k) * (d * d) == r * r
  {}

  lemma SumOfSquares(a: real, b: real, c: real)
    ensures a * a + b * b + c * c >= 0.0
  {
    assert a * a >= 0.0 && b * b >= 0.0 && c * c >= 0.0;
  }

  /** Cauchy-Schwarz from the Lagrange identity `g == m * n - p * p`. */
  lemma CauchyScalar(p: real, m: real, n: real, d: real, r: real, g: real)
    requires d >= 0.0 && r >= 0.0 && m == d * d && n <= r * r
    requires g >= 0.0 && g == m * n - p * p
    ensures p <= d * r
  {
    var k := d * r;
    NonNegativeProduct(d, r, k);
    NonNegativeProduct(m, r * r - n, m * (r * r) - m * n);
    assert m * (r * r) == k * k;
    if p > k { PositiveProduct(p - k, p + k, p * p - k * k); }
  }

  lemma CutOffSign(k: real, d: real, r: real, uv: real, n: real, ut: real, m: real)
    requires d > r >= 0.0 && k * d == r && n == d * d && uv <= d * r
    requires ut == uv - k * n && m == (1.0 - k) * ut
    ensures m <= 0.0
  {
    assert k * n == r * d;
    if k > 1.0 { PositiveProduct(k - 1.0, d, r - d); }
    NonNegativeProduct(1.0 - k, -ut, (1.0 - k) * (-ut));
  }
}
