/** The 6-D rotation codec: first two columns out, Gram-Schmidt back. */
module Rot6d {
  import opened Basics
  import opened RealAlgebra
  import opened Vectors
  import opened Quaternions
  import opened Rotations
  import opened Shepperd

  const ROT6D_EPS := 0.000001

  datatype R6 = R6(c1: V3, c2: V3)

  function MatToRot6d(m: M3): R6 { R6(m.c0, m.c1) }

  function Divided(v: V3, n: real): V3
    requires n != 0.0
  {
    V3(v.x / n, v.y / n, v.z / n)
  }

  /** The part of the second column orthogonal to the first axis. */
  function Residual(b1: V3, c2: V3): V3 { Sub(c2, Scale(Dot(b1, c2), b1)) }

  /** The norms the decoder computes: of the first column, of the second, and of the
      residual when the first two pass. */
  predicate Norms(r: R6, n1: real, m2: real, n2: real) {
    && IsSqrt(n1, Norm2(r.c1)) && IsSqrt(m2, Norm2(r.c2))
    && (n1 >= ROT6D_EPS && m2 >= ROT6D_EPS ==> IsSqrt(n2, Norm2(Residual(Divided(r.c1, n1), r.c2))))
  }

  datatype Rot6dError = ColumnZero | ColumnsParallel

  function Rot6dToMat(r: R6, n1: real, m2: real, n2: real): Result<M3, Rot6dError>
    requires Norms(r, n1, m2, n2)
  {
    if n1 < ROT6D_EPS || m2 < ROT6D_EPS then Err(ColumnZero)
    else
      var b1 := Divided(r.c1, n1);
      var u2 := Residual(b1, r.c2);
      if n2 < ROT6D_EPS then Err(ColumnsParallel)
      else
        var b2 := Divided(u2, n2);
        Ok(M3(b1, b2, Cross(b1, b2)))
  }

  // ------------------------------------------------------------ Gram-Schmidt facts

  lemma DividedScales(v: V3, n: real)
    requires n != 0.0
    ensures Scale(n, Divided(v, n)) == v
  {
    Divide(v.x, n);
    Divide(v.y, n);
    Divide(v.z, n);
  }

  lemma UnitFromScale(b: V3, n: real, v: V3, m: real)
    requires n > 0.0 && Scale(n, b) == v && m == n * n && m == Norm2(v)
    ensures Norm2(b) == 1.0
  {
    UnitAfterScaling(v.x, v.y, v.z, 0.0, n, m, b.x, b.y, b.z, 0.0, Norm2(b));
  }

  lemma ResidualOrthogonal(b: V3, c: V3, d: real, u: V3)
    requires Norm2(b) == 1.0 && d == Dot(b, c) && u == Sub(c, Scale(d, b))
    ensures Dot(b, u) == 0.0
  {
    ResidualDot(b.x, b.y, b.z, c.x, c.y, c.z, u.x, u.y, u.z, d, Norm2(b), d);
  }

  lemma DotScale(a: V3, b: V3, n: real, v: V3)
    requires Scale(n, b) == v
    ensures Dot(a, v) == n * Dot(a, b)
  {
    ScaledDot(a.x, a.y, a.z, b.x, b.y, b.z, v.x, v.y, v.z, n);
  }

  /** `b x (a x b)` for orthonormal `a`, `b`. */
  lemma DoubleCross(a: V3, b: V3, c: V3)
    requires c == Cross(a, b) && Norm2(b) == 1.0 && Dot(a, b) == 0.0
    ensures Cross(b, c) == a
  {
    CrossEntries(a, b, c);
    DoubleCrossEntries(a.x, a.y, a.z, b.x, b.y, b.z, c.x, c.y, c.z, Norm2(b), Dot(a, b));
    CrossFromEntries(b, c, a);
  }

  lemma CrossFromEntries(a: V3, b: V3, c: V3)
    requires CrossOf(a.x, a.y, a.z, b.x, b.y, b.z, c.x, c.y, c.z)
    ensures Cross(a, b) == c
  {}

  lemma CrossOrthogonal(a: V3, b: V3, c: V3)
    requires c == Cross(a, b)
    ensures Dot(a, c) == 0.0 && Dot(b, c) == 0.0
  {}

  /** Two orthonormal axes and their cross product form a rotation matrix. */
  lemma FrameIsRotation(a: V3, b: V3, c: V3)
    requires Norm2(a) == 1.0 && Norm2(b) == 1.0 && Dot(a, b) == 0.0 && c == Cross(a, b)
    ensures Rotation(M3(a, b, c))
  {
    CrossNorm(a, b);
    CrossOrthogonal(a, b, c);
    DoubleCross(a, b, c);
    RotationFromProducts(M3(a, b, c));
  }

  /** Every accepted input decodes to a right-handed orthonormal matrix whose first
      column is along the first input column, and whose second lies in their plane,
      on the second input's side. */
  lemma DecodeIsRotation(r: R6, n1: real, m2: real, n2: real)
    requires Norms(r, n1, m2, n2) && Rot6dToMat(r, n1, m2, n2).Ok?
    ensures var m := Rot6dToMat(r, n1, m2, n2).value;
      && Rotation(m)
      && Scale(n1, m.c0) == r.c1
      && Scale(n2, m.c1) == Sub(r.c2, Scale(Dot(m.c0, r.c2), m.c0))
  {
    var b1 := Divided(r.c1, n1);
    var u2 := Residual(b1, r.c2);
    var b2 := Divided(u2, n2);
    DividedScales(r.c1, n1);
    UnitFromScale(b1, n1, r.c1, Norm2(r.c1));
    ResidualOrthogonal(b1, r.c2, Dot(b1, r.c2), u2);
    DividedScales(u2, n2);
    UnitFromScale(b2, n2, u2, Norm2(u2));
    DotScale(b1, b2, n2, u2);
    ZeroProduct(n2, Dot(b1, b2));
    FrameIsRotation(b1, b2, Cross(b1, b2));
  }

  /** The residual's norm, from the area the two columns span. */
  lemma ResidualArea(c1: V3, c2: V3, n1: real, b1: V3, u2: V3)
    requires n1 > 0.0 && Scale(n1, b1) == c1 && Norm2(b1) == 1.0 && Norm2(c1) == n1 * n1
    requires u2 == Residual(b1, c2)
    ensures Norm2(Cross(c1, c2)) == Norm2(c1) * Norm2(u2)
  {
    var d := Dot(b1, c2);
    ResidualNorm(b1, c2, d, u2);
    CrossNorm(c1, c2);
    ScaledFirst(c1, c2, b1, n1, d);
    AreaThroughResidual(n1, d, Norm2(c2), Dot(c1, c2), Norm2(c1), Norm2(Cross(c1, c2)));
  }

  lemma ResidualNorm(b1: V3, c2: V3, d: real, u2: V3)
    requires Norm2(b1) == 1.0 && d == Dot(b1, c2) && u2 == Sub(c2, Scale(d, b1))
    ensures Norm2(u2) == Norm2(c2) - d * d
  {
    SubScaled(c2, d, b1, u2);
    ResidualNorm2(b1.x, b1.y, b1.z, c2.x, c2.y, c2.z, u2.x, u2.y, u2.z, d, Norm2(c2));
  }

  lemma ScaledFirst(c1: V3, c2: V3, b1: V3, n1: real, d: real)
    requires Scale(n1, b1) == c1 && d == Dot(b1, c2)
    ensures Dot(c1, c2) == n1 * d
  {
    ScaledDot(c2.x, c2.y, c2.z, b1.x, b1.y, b1.z, c1.x, c1.y, c1.z, n1);
  }

  /** Accepted are exactly the inputs whose columns are not shorter than 1e-6 and whose
      second column is at least 1e-6 away from the line of the first, however far they are
      from orthonormal; a short column and near-parallel columns are told apart. */
  lemma AcceptedExactly(r: R6, n1: real, m2: real, n2: real)
    requires Norms(r, n1, m2, n2)
    ensures var long := Norm2(r.c1) >= 0.000000000001 && Norm2(r.c2) >= 0.000000000001;
      var apart := Norm2(Cross(r.c1, r.c2)) >= 0.000000000001 * Norm2(r.c1);
      && (Rot6dToMat(r, n1, m2, n2).Ok? <==> long && apart)
      && (Rot6dToMat(r, n1, m2, n2) == Err(ColumnZero) <==> !long)
      && (Rot6dToMat(r, n1, m2, n2) == Err(ColumnsParallel) <==> long && !apart)
  {
    LongEnough(n1, Norm2(r.c1));
    LongEnough(m2, Norm2(r.c2));
    if n1 >= ROT6D_EPS && m2 >= ROT6D_EPS {
      var b1 := Divided(r.c1, n1);
      var u2 := Residual(b1, r.c2);
      DividedScales(r.c1, n1);
      UnitFromScale(b1, n1, r.c1, Norm2(r.c1));
      ResidualArea(r.c1, r.c2, n1, b1, u2);
      LongEnough(n2, Norm2(u2));
      ScaledThreshold(Norm2(r.c1), Norm2(u2), 0.000000000001);
    }
  }

  lemma LongEnough(n: real, x: real)
    requires IsSqrt(n, x)
    ensures n >= ROT6D_EPS <==> x >= 0.000000000001
  {
    RootThreshold(n, x, ROT6D_EPS);
  }

  lemma DividedByOne(v: V3, n: real)
    requires n == 1.0
    ensures Divided(v, n) == v
  {}

  lemma ResidualOfOrthogonal(b: V3, c: V3)
    requires Dot(b, c) == 0.0
    ensures Residual(b, c) == c
  {
    ScaleByZero(Dot(b, c), b);
    SubZero(c, Scale(Dot(b, c), b));
  }

  lemma SubZero(c: V3, z: V3)
    requires z == V3(0.0, 0.0, 0.0)
    ensures Sub(c, z) == c
  {}

  lemma UnitNorm(v: V3, n: real)
    requires Norm2(v) == 1.0 && IsSqrt(n, Norm2(v))
    ensures n == 1.0
  {
    SqrtUnique(n, 1.0);
  }

  /** The decoder is the exact inverse of `mat_to_rot6d` on rotation matrices. */
  lemma DecodeEncode(m: M3, n1: real, m2: real, n2: real)
    requires Rotation(m) && Norms(MatToRot6d(m), n1, m2, n2)
    ensures Rot6dToMat(MatToRot6d(m), n1, m2, n2) == Ok(m)
  {
    UnitNorm(m.c0, n1);
    UnitNorm(m.c1, m2);
    DividedByOne(m.c0, n1);
    ResidualOfOrthogonal(m.c0, m.c1);
    UnitNorm(m.c1, n2);
    DividedByOne(m.c1, n2);
    CofactorColumns(m);
  }

  /** Through the 6-D codec and back, an orientation is unchanged. */
  lemma QuatThroughRot6d(q: Quat, n: real, n1: real, m2: real, n2: real, root: real, norm: real)
    requires IsSqrt(n, NormQ(q)) && QuatToMat(q, n).Some?
    requires Norms(MatToRot6d(QuatToMat(q, n).value), n1, m2, n2)
    requires IsSqrt(root, RootArg(QuatToMat(q, n).value))
    requires IsSqrt(norm, NormQ(RawQuat(QuatToMat(q, n).value, root)))
    ensures Rot6dToMat(MatToRot6d(QuatToMat(q, n).value), n1, m2, n2) == Ok(QuatToMat(q, n).value)
    ensures QuatNormalize(q, n).Some? && MatToQuat(QuatToMat(q, n).value, root, norm).Some?
    ensures SameOrientation(MatToQuat(QuatToMat(q, n).value, root, norm).value, QuatNormalize(q, n).value)
  {
    NormalizeSpec(q, n);
    RotMatIsRotation(QuatNormalize(q, n).value);
    DecodeEncode(QuatToMat(q, n).value, n1, m2, n2);
    QuatMatQuat(q, n, root, norm);
  }

  // ------------------------------------------------------------------- invariance

  /** Unit vectors that are positive multiples of the same vector are equal. */
  lemma SameDirection(u: V3, v: V3, k: real, l: real, w: V3)
    requires k > 0.0 && l > 0.0 && Norm2(u) == 1.0 && Norm2(v) == 1.0
    requires Scale(k, u) == w && Scale(l, v) == w
    ensures k == l && u == v
  {
    ScaledNorm(u, k, w);
    ScaledNorm(v, l, w);
    SqrtUnique(k, l);
    CancelEach(u, v, k);
  }

  lemma ScaledNorm(u: V3, k: real, w: V3)
    requires Norm2(u) == 1.0 && Scale(k, u) == w
    ensures Norm2(w) == k * k
  {
    NormOfScaled(u.x, u.y, u.z, w.x, w.y, w.z, k, Norm2(u));
  }

  lemma CancelEach(u: V3, v: V3, k: real)
    requires k != 0.0 && Scale(k, u) == Scale(k, v)
    ensures u == v
  {
    Cancel(u.x, v.x, k);
    Cancel(u.y, v.y, k);
    Cancel(u.z, v.z, k);
  }

  lemma ScaleScale(k: real, l: real, v: V3, kl: real)
    requires kl == k * l
    ensures Scale(k, Scale(l, v)) == Scale(kl, v)
  {
    Triple(k, l, v.x, kl);
    Triple(k, l, v.y, kl);
    Triple(k, l, v.z, kl);
  }

  lemma Triple(k: real, l: real, x: real, kl: real)
    requires kl == k * l
    ensures k * (l * x) == kl * x
  {}

  /** The residual ignores multiples of the first axis and scales with the second column. */
  lemma ResidualShear(b1: V3, c2: V3, b: real, k: real, c: V3)
    requires Norm2(b1) == 1.0 && c == Add(Scale(b, c2), Scale(k, b1))
    ensures Residual(b1, c) == Scale(b, Residual(b1, c2))
  {
    var d, e := Dot(b1, c2), Dot(b1, c);
    ShearCoefficient(b1, c2, b, k, c, d, e);
    ShearParts(b1, c2, b, k, c, d, e);
  }

  lemma ShearCoefficient(b1: V3, c2: V3, b: real, k: real, c: V3, d: real, e: real)
    requires Norm2(b1) == 1.0 && c == Add(Scale(b, c2), Scale(k, b1)) && d == Dot(b1, c2) && e == Dot(b1, c)
    ensures e == b * d + k
  {
    AddScaled(b, c2, k, b1, c);
    ShearDot(b1.x, b1.y, b1.z, c2.x, c2.y, c2.z, c.x, c.y, c.z, b, k, d, e, Norm2(b1));
  }

  lemma ShearParts(b1: V3, c2: V3, b: real, k: real, c: V3, d: real, e: real)
    requires c == Add(Scale(b, c2), Scale(k, b1)) && e == b * d + k
    ensures Sub(c, Scale(e, b1)) == Scale(b, Sub(c2, Scale(d, b1)))
  {
    var u := Sub(c2, Scale(d, b1));
    SubScaled(c2, d, b1, u);
    AddScaled(b, c2, k, b1, c);
    ShearComponent(b1.x, c2.x, c.x, b, k, d, e, u.x);
    ShearComponent(b1.y, c2.y, c.y, b, k, d, e, u.y);
    ShearComponent(b1.z, c2.z, c.z, b, k, d, e, u.z);
    SameShear(c, e, b1, b, u);
  }

  lemma AddScaled(b: real, u: V3, k: real, v: V3, c: V3)
    requires c == Add(Scale(b, u), Scale(k, v))
    ensures c.x == b * u.x + k * v.x && c.y == b * u.y + k * v.y && c.z == b * u.z + k * v.z
  {}

  lemma SameShear(c: V3, e: real, v: V3, b: real, u: V3)
    requires c.x - e * v.x == b * u.x && c.y - e * v.y == b * u.y && c.z - e * v.z == b * u.z
    ensures Sub(c, Scale(e, v)) == Scale(b, u)
  {}

  /** Positive scaling of either column, and adding a multiple of the first column to
      the second, do not change what is decoded, when both inputs are accepted. */
  lemma DecodeInvariant(r: R6, s: R6, a: real, b: real, k: real,
                        n1: real, m2: real, n2: real, n1': real, m2': real, n2': real)
    requires a > 0.0 && b > 0.0
    requires s.c1 == Scale(a, r.c1) && s.c2 == Add(Scale(b, r.c2), Scale(k, r.c1))
    requires Norms(r, n1, m2, n2) && Norms(s, n1', m2', n2')
    requires Rot6dToMat(r, n1, m2, n2).Ok? && Rot6dToMat(s, n1', m2', n2').Ok?
    ensures Rot6dToMat(r, n1, m2, n2) == Rot6dToMat(s, n1', m2', n2')
  {
    var m, m' := Rot6dToMat(r, n1, m2, n2).value, Rot6dToMat(s, n1', m2', n2').value;
    DecodeIsRotation(r, n1, m2, n2);
    DecodeIsRotation(s, n1', m2', n2');
    PositiveProduct(a, n1, a * n1);
    ScaleScale(a, n1, m.c0, a * n1);
    SameDirection(m.c0, m'.c0, a * n1, n1', s.c1);
    ScaleScale(k, n1, m.c0, k * n1);
    ResidualShear(m.c0, r.c2, b, k * n1, s.c2);
    PositiveProduct(b, n2, b * n2);
    ScaleScale(b, n2, m.c1, b * n2);
    SameDirection(m.c1, m'.c1, b * n2, n2', Residual(m.c0, s.c2));
    CofactorColumns(m);
    CofactorColumns(m');
  }
}
