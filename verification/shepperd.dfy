/** Shepperd's method: rotation matrix to quaternion, in four branches. */
module Shepperd {
  import opened Basics
  import opened RealAlgebra
  import opened Vectors
  import opened Quaternions
  import opened Rotations

  /** The symmetric 4x4 matrix behind the method: for the rotation of a unit `q` its
      entries are four times the products of the components of `q`. */
  function Kww(m: M3): real { 1.0 + m.c0.x + m.c1.y + m.c2.z }
  function Kxx(m: M3): real { 1.0 + m.c0.x - m.c1.y - m.c2.z }
  function Kyy(m: M3): real { 1.0 + m.c1.y - m.c0.x - m.c2.z }
  function Kzz(m: M3): real { 1.0 + m.c2.z - m.c0.x - m.c1.y }
  function Kwx(m: M3): real { m.c1.z - m.c2.y }
  function Kwy(m: M3): real { m.c2.x - m.c0.z }
  function Kwz(m: M3): real { m.c0.y - m.c1.x }
  function Kxy(m: M3): real { m.c1.x + m.c0.y }
  function Kxz(m: M3): real { m.c2.x + m.c0.z }
  function Kyz(m: M3): real { m.c2.y + m.c1.z }

  datatype Branch = ByW | ByX | ByY | ByZ

  function Trace(m: M3): real { m.c0.x + m.c1.y + m.c2.z }

  function Choose(m: M3): Branch {
    if Trace(m) > 0.0 then ByW
    else if m.c0.x >= m.c1.y && m.c0.x >= m.c2.z then ByX
    else if m.c1.y >= m.c2.z then ByY
    else ByZ
  }

  /** The number the program takes the square root of. */
  function RootArg(m: M3): (k: real)
    ensures k >= 1.0
  {
    match Choose(m)
    case ByW => Trace(m) + 1.0
    case ByX => 1.0 + m.c0.x - m.c1.y - m.c2.z
    case ByY => 1.0 + m.c1.y - m.c0.x - m.c2.z
    case ByZ => 1.0 + m.c2.z - m.c0.x - m.c1.y
  }

  /** The quaternion before the final normalization; `root` is the square root. */
  function RawQuat(m: M3, root: real): Quat
    requires IsSqrt(root, RootArg(m))
  {
    RootAtLeastOne(root, RootArg(m));
    var s := root * 2.0;
    match Choose(m)
    case ByW => Quat(0.25 * s, (m.c1.z - m.c2.y) / s, (m.c2.x - m.c0.z) / s, (m.c0.y - m.c1.x) / s)
    case ByX => Quat((m.c1.z - m.c2.y) / s, 0.25 * s, (m.c1.x + m.c0.y) / s, (m.c2.x + m.c0.z) / s)
    case ByY => Quat((m.c2.x - m.c0.z) / s, (m.c1.x + m.c0.y) / s, 0.25 * s, (m.c2.y + m.c1.z) / s)
    case ByZ => Quat((m.c0.y - m.c1.x) / s, (m.c2.x + m.c0.z) / s, (m.c2.y + m.c1.z) / s, 0.25 * s)
  }

  function MatToQuat(m: M3, root: real, norm: real): Option<Quat>
    requires IsSqrt(root, RootArg(m)) && IsSqrt(norm, NormQ(RawQuat(m, root)))
  {
    QuatNormalize(RawQuat(m, root), norm)
  }

  lemma RootAtLeastOne(root: real, k: real)
    requires IsSqrt(root, k) && k >= 1.0
    ensures root >= 1.0
  {
    if root < 1.0 { PositiveProduct(1.0 - root, 1.0 + root, 1.0 - k); }
  }

  /** The row of the 4x4 matrix the branch divides by `s`, and its diagonal entry. */
  function Row(m: M3, b: Branch): Quat {
    match b
    case ByW => Quat(Kww(m), Kwx(m), Kwy(m), Kwz(m))
    case ByX => Quat(Kwx(m), Kxx(m), Kxy(m), Kxz(m))
    case ByY => Quat(Kwy(m), Kxy(m), Kyy(m), Kyz(m))
    case ByZ => Quat(Kwz(m), Kxz(m), Kyz(m), Kzz(m))
  }

  predicate Scaled(raw: Quat, s: real, row: Quat) {
    raw.w * s == row.w && raw.x * s == row.x && raw.y * s == row.y && raw.z * s == row.z
  }

  lemma QuarterScaled(s: real, root: real, k: real)
    requires s == root * 2.0 && root * root == k
    ensures (0.25 * s) * s == k && s * s == 4.0 * k
  {}

  /** Three quotients by `s` and the diagonal `0.25 * s` make a scaled row. */
  lemma ScaledRow(s: real, root: real, k: real, a: real, b: real, c: real)
    requires root >= 1.0 && s == root * 2.0 && root * root == k
    ensures (0.25 * s) * s == k && s * s == 4.0 * k
    ensures (a / s) * s == a && (b / s) * s == b && (c / s) * s == c
  {
    QuarterScaled(s, root, k);
    Divide(a, s);
    Divide(b, s);
    Divide(c, s);
  }

  lemma RawScaledByW(m: M3, root: real)
    requires IsSqrt(root, RootArg(m)) && root >= 1.0 && Choose(m) == ByW
    ensures Scaled(RawQuat(m, root), root * 2.0, Row(m, ByW))
  {
    ScaledRow(root * 2.0, root, RootArg(m), Kwx(m), Kwy(m), Kwz(m));
  }

  lemma RawScaledByX(m: M3, root: real)
    requires IsSqrt(root, RootArg(m)) && root >= 1.0 && Choose(m) == ByX
    ensures Scaled(RawQuat(m, root), root * 2.0, Row(m, ByX))
  {
    ScaledRow(root * 2.0, root, RootArg(m), Kwx(m), Kxy(m), Kxz(m));
  }

  lemma RawScaledByY(m: M3, root: real)
    requires IsSqrt(root, RootArg(m)) && root >= 1.0 && Choose(m) == ByY
    ensures Scaled(RawQuat(m, root), root * 2.0, Row(m, ByY))
  {
    ScaledRow(root * 2.0, root, RootArg(m), Kwy(m), Kxy(m), Kyz(m));
  }

  lemma RawScaledByZ(m: M3, root: real)
    requires IsSqrt(root, RootArg(m)) && root >= 1.0 && Choose(m) == ByZ
    ensures Scaled(RawQuat(m, root), root * 2.0, Row(m, ByZ))
  {
    ScaledRow(root * 2.0, root, RootArg(m), Kwz(m), Kxz(m), Kyz(m));
  }

  lemma RawScaled(m: M3, root: real)
    requires IsSqrt(root, RootArg(m))
    ensures root >= 1.0
    ensures Scaled(RawQuat(m, root), root * 2.0, Row(m, Choose(m)))
  {
    RootAtLeastOne(root, RootArg(m));
    match Choose(m)
    case ByW => RawScaledByW(m, root);
    case ByX => RawScaledByX(m, root);
    case ByY => RawScaledByY(m, root);
    case ByZ => RawScaledByZ(m, root);
  }

  // ------------------------------------------------------------- any 3x3 matrix

  lemma DiagonalQuarter(m: M3, root: real)
    requires IsSqrt(root, RootArg(m))
    ensures root >= 1.0
    ensures var q := RawQuat(m, root);
      q.w == 0.5 * root || q.x == 0.5 * root || q.y == 0.5 * root || q.z == 0.5 * root
  {
    RootAtLeastOne(root, RootArg(m));
  }

  lemma NormAtLeastQuarter(a: real, b: real, c: real, d: real, root: real, norm: real)
    requires root >= 1.0 && a == 0.5 * root && norm >= 0.0
    requires norm * norm == a * a + b * b + c * c + d * d
    ensures norm >= 0.5
  {
    assert b * b >= 0.0 && c * c >= 0.0 && d * d >= 0.0;
    HalfSquare(a, a * a);
    if norm < 0.5 { PositiveProduct(0.5 - norm, 0.5 + norm, 0.25 - norm * norm); }
  }

  lemma HalfSquare(a: real, p: real)
    requires a >= 0.5 && p == a * a
    ensures p >= 0.25
  {
    assert (a - 0.5) * (a + 0.5) >= 0.0;
  }

  /** The branch: the real one for a positive trace, otherwise that of the first largest entry
      of the diagonal. */
  lemma FirstLargest(m: M3)
    ensures var t := m.c0.x + m.c1.y + m.c2.z;
      && (Choose(m) == ByW <==> t > 0.0)
      && (Choose(m) == ByX <==> t <= 0.0 && m.c0.x >= m.c1.y && m.c0.x >= m.c2.z)
      && (Choose(m) == ByY <==> t <= 0.0 && m.c1.y > m.c0.x && m.c1.y >= m.c2.z)
      && (Choose(m) == ByZ <==> t <= 0.0 && m.c2.z > m.c0.x && m.c2.z > m.c1.y)
  {}

  /** `mat_to_quat` is total on 3x3 matrices, rotations or not: the divisor is at
      least 2, the norm at least 1/2, and the result is canonical. */
  lemma MatToQuatTotal(m: M3, root: real, norm: real)
    requires IsSqrt(root, RootArg(m)) && IsSqrt(norm, NormQ(RawQuat(m, root)))
    ensures root * 2.0 >= 2.0 && norm >= 0.5
    ensures MatToQuat(m, root, norm).Some? && Canon(MatToQuat(m, root, norm).value)
  {
    DiagonalQuarter(m, root);
    var q := RawQuat(m, root);
    NormAtLeast(q, root, norm);
    NormalizeSpec(q, norm);
  }

  lemma NormAtLeast(q: Quat, root: real, norm: real)
    requires root >= 1.0 && IsSqrt(norm, NormQ(q))
    requires q.w == 0.5 * root || q.x == 0.5 * root || q.y == 0.5 * root || q.z == 0.5 * root
    ensures norm >= 0.5
  {
    if q.w == 0.5 * root { NormAtLeastQuarter(q.w, q.x, q.y, q.z, root, norm); }
    else if q.x == 0.5 * root { NormAtLeastQuarter(q.x, q.w, q.y, q.z, root, norm); }
    else if q.y == 0.5 * root { NormAtLeastQuarter(q.y, q.w, q.x, q.z, root, norm); }
    else { NormAtLeastQuarter(q.z, q.w, q.x, q.y, root, norm); }
  }

  // ---------------------------------------------------------- rotation matrices

  lemma CrossNorm(a: V3, b: V3)
    ensures Norm2(Cross(a, b)) == Norm2(a) * Norm2(b) - Dot(a, b) * Dot(a, b)
  {
    var d := Cross(a, b);
    Lagrange(a.x, a.y, a.z, b.x, b.y, b.z, d.x, d.y, d.z);
  }

  lemma SameUnit(a: V3, d: V3)
    requires Norm2(a) == 1.0 && Norm2(d) == 1.0 && Dot(a, d) == 1.0
    ensures a == d
  {
    DifferenceSquares(a.x, a.y, a.z, d.x, d.y, d.z);
    SumOfSquaresZero(a.x - d.x, a.y - d.y, a.z - d.z);
  }

  /** The third axis of an orthonormal frame, from the sign of the determinant. */
  lemma CofactorColumn(a: V3, b: V3, c: V3)
    requires Norm2(a) == 1.0 && Norm2(b) == 1.0 && Norm2(c) == 1.0 && Dot(b, c) == 0.0
    requires Dot(a, Cross(b, c)) == 1.0
    ensures a == Cross(b, c)
  {
    CrossNorm(b, c);
    SameUnit(a, Cross(b, c));
  }

  lemma TripleCycle(a: V3, b: V3, c: V3, bc: V3, ca: V3)
    requires bc == Cross(b, c) && ca == Cross(c, a)
    ensures Dot(a, bc) == Dot(b, ca)
  {
    TripleProduct(a.x, a.y, a.z, b.x, b.y, b.z, c.x, c.y, c.z, bc.x, bc.y, bc.z, ca.x, ca.y, ca.z);
  }

  lemma CofactorColumns(m: M3)
    requires Rotation(m)
    ensures m.c0 == Cross(m.c1, m.c2) && m.c1 == Cross(m.c2, m.c0) && m.c2 == Cross(m.c0, m.c1)
  {
    var a, b, c := m.c0, m.c1, m.c2;
    TripleCycle(a, b, c, Cross(b, c), Cross(c, a));
    TripleCycle(b, c, a, Cross(c, a), Cross(a, b));
    DotCommutes(a, b);
    DotCommutes(a, c);
    DotCommutes(b, c);
    CofactorColumn(a, b, c);
    CofactorColumn(b, c, a);
    CofactorColumn(c, a, b);
  }

  lemma DotCommutes(a: V3, b: V3)
    ensures Dot(a, b) == Dot(b, a)
  {}

  predicate Cofactors(m: M3) {
    m.c0 == Cross(m.c1, m.c2) && m.c1 == Cross(m.c2, m.c0) && m.c2 == Cross(m.c0, m.c1)
  }

  lemma RowPairs0(m: M3)
    requires Cofactors(m) && Det(m) == 1.0
    ensures Dot(Row0(m), Row0(m)) == 1.0 && Dot(Row0(m), Row1(m)) == 0.0 && Dot(Row0(m), Row2(m)) == 0.0
  {
    var a, b, c := m.c0, m.c1, m.c2;
    RowProducts(a.x, b.x, c.x, a.y, b.y, c.y, a.z, b.z, c.z, Det(m));
  }

  lemma RowPairs1(m: M3)
    requires Cofactors(m) && Det(m) == 1.0
    ensures Dot(Row1(m), Row1(m)) == 1.0 && Dot(Row1(m), Row2(m)) == 0.0
  {
    var a, b, c := m.c0, m.c1, m.c2;
    RowProducts(a.y, b.y, c.y, a.z, b.z, c.z, a.x, b.x, c.x, Det(m));
  }

  lemma RowPairs2(m: M3)
    requires Cofactors(m) && Det(m) == 1.0
    ensures Dot(Row2(m), Row2(m)) == 1.0
  {
    var a, b, c := m.c0, m.c1, m.c2;
    RowProducts(a.z, b.z, c.z, a.x, b.x, c.x, a.y, b.y, c.y, Det(m));
  }

  predicate Entries(m: M3) {
    RotationEntries(m.c0.x, m.c1.x, m.c2.x, m.c0.y, m.c1.y, m.c2.y, m.c0.z, m.c1.z, m.c2.z)
  }

  /** Three orthonormal vectors, written out. */
  lemma OrthonormalVectors(u: V3, v: V3, w: V3)
    requires Dot(u, u) == 1.0 && Dot(v, v) == 1.0 && Dot(w, w) == 1.0
    requires Dot(u, v) == 0.0 && Dot(u, w) == 0.0 && Dot(v, w) == 0.0
    ensures OrthonormalRows(u.x, u.y, u.z, v.x, v.y, v.z, w.x, w.y, w.z)
  {}

  lemma OrthonormalFromParts(m: M3)
    requires Orthonormal(m)
    requires Dot(Row0(m), Row0(m)) == 1.0 && Dot(Row1(m), Row1(m)) == 1.0 && Dot(Row2(m), Row2(m)) == 1.0
    requires Dot(Row0(m), Row1(m)) == 0.0 && Dot(Row0(m), Row2(m)) == 0.0 && Dot(Row1(m), Row2(m)) == 0.0
    ensures OrthonormalEntries(m.c0.x, m.c1.x, m.c2.x, m.c0.y, m.c1.y, m.c2.y, m.c0.z, m.c1.z, m.c2.z)
  {
    OrthonormalVectors(m.c0, m.c1, m.c2);
    OrthonormalVectors(Row0(m), Row1(m), Row2(m));
  }

  lemma CrossEntries(a: V3, b: V3, c: V3)
    requires c == Cross(a, b)
    ensures CrossOf(a.x, a.y, a.z, b.x, b.y, b.z, c.x, c.y, c.z)
  {}

  lemma CofactorsFromParts(m: M3)
    requires Cofactors(m)
    ensures CofactorEntries(m.c0.x, m.c1.x, m.c2.x, m.c0.y, m.c1.y, m.c2.y, m.c0.z, m.c1.z, m.c2.z)
  {
    CrossEntries(m.c1, m.c2, m.c0);
    CrossEntries(m.c2, m.c0, m.c1);
    CrossEntries(m.c0, m.c1, m.c2);
  }

  lemma RotationHasEntries(m: M3)
    requires Rotation(m)
    ensures Entries(m)
  {
    CofactorColumns(m);
    RowPairs0(m);
    RowPairs1(m);
    RowPairs2(m);
    OrthonormalFromParts(m);
    CofactorsFromParts(m);
  }

  /** The row `(w, x, y, z)` of the chosen branch, times itself, is the whole matrix
      scaled by the pivot `k`: the matrix has rank one. */
  predicate Outer(w: real, x: real, y: real, z: real, k: real, m: M3) {
    && w * w == k * Kww(m) && x * x == k * Kxx(m) && y * y == k * Kyy(m) && z * z == k * Kzz(m)
    && w * x == k * Kwx(m) && w * y == k * Kwy(m) && w * z == k * Kwz(m)
    && x * y == k * Kxy(m) && x * z == k * Kxz(m) && y * z == k * Kyz(m)
  }

  lemma OuterByWX(m: M3)
    requires Entries(m)
    ensures Outer(Kww(m), Kwx(m), Kwy(m), Kwz(m), Kww(m), m)
    ensures Outer(Kwx(m), Kxx(m), Kxy(m), Kxz(m), Kxx(m), m)
  {
    var a, b, c := m.c0, m.c1, m.c2;
    Minors(a.x, b.x, c.x, a.y, b.y, c.y, a.z, b.z, c.z,
           Kww(m), Kxx(m), Kyy(m), Kzz(m), Kwx(m), Kwy(m), Kwz(m), Kxy(m), Kxz(m), Kyz(m));
  }

  lemma OuterByY(m: M3)
    requires RotationEntries(m.c1.y, m.c2.y, m.c0.y, m.c1.z, m.c2.z, m.c0.z, m.c1.x, m.c2.x, m.c0.x)
    ensures Outer(Kwy(m), Kxy(m), Kyy(m), Kyz(m), Kyy(m), m)
  {
    var a, b, c := m.c0, m.c1, m.c2;
    Minors(b.y, c.y, a.y, b.z, c.z, a.z, b.x, c.x, a.x,
           Kww(m), Kyy(m), Kzz(m), Kxx(m), Kwy(m), Kwz(m), Kwx(m), Kyz(m), Kxy(m), Kxz(m));
  }

  lemma OuterByZ(m: M3)
    requires RotationEntries(m.c2.z, m.c0.z, m.c1.z, m.c2.x, m.c0.x, m.c1.x, m.c2.y, m.c0.y, m.c1.y)
    ensures Outer(Kwz(m), Kxz(m), Kyz(m), Kzz(m), Kzz(m), m)
  {
    var a, b, c := m.c0, m.c1, m.c2;
    Minors(c.z, a.z, b.z, c.x, a.x, b.x, c.y, a.y, b.y,
           Kww(m), Kzz(m), Kxx(m), Kyy(m), Kwz(m), Kwx(m), Kwy(m), Kxz(m), Kyz(m), Kxy(m));
  }

  /** Four times the products of the components of `q` are the entries of the matrix. */
  predicate FourTimes(q: Quat, m: M3) {
    && SquareEntries(q.w * q.w, q.x * q.x, q.y * q.y, q.z * q.z, m.c0.x, m.c1.y, m.c2.z)
    && PairEntries(q.w * q.x, q.y * q.z, m.c1.z, m.c2.y)
    && PairEntries(q.w * q.y, q.x * q.z, m.c2.x, m.c0.z)
    && PairEntries(q.w * q.z, q.x * q.y, m.c0.y, m.c1.x)
  }

  predicate IsRow(q: Quat, s: real, w: real, x: real, y: real, z: real, k: real) {
    && q.w * s == w && q.x * s == x && q.y * s == y && q.z * s == z
    && s * s == 4.0 * k && k > 0.0
  }

  predicate FourSquaresWX(q: Quat, m: M3) { 4.0 * (q.w * q.w) == Kww(m) && 4.0 * (q.x * q.x) == Kxx(m) }
  predicate FourSquaresYZ(q: Quat, m: M3) { 4.0 * (q.y * q.y) == Kyy(m) && 4.0 * (q.z * q.z) == Kzz(m) }

  lemma RecoverSquaresWX(q: Quat, s: real, w: real, x: real, y: real, z: real, k: real, m: M3)
    requires IsRow(q, s, w, x, y, z, k)
    requires w * w == k * Kww(m) && x * x == k * Kxx(m)
    ensures FourSquaresWX(q, m)
  {
    RecoverEntry(q.w, q.w, s, w, w, k, Kww(m));
    RecoverEntry(q.x, q.x, s, x, x, k, Kxx(m));
  }

  lemma RecoverSquaresYZ(q: Quat, s: real, w: real, x: real, y: real, z: real, k: real, m: M3)
    requires IsRow(q, s, w, x, y, z, k)
    requires y * y == k * Kyy(m) && z * z == k * Kzz(m)
    ensures FourSquaresYZ(q, m)
  {
    RecoverEntry(q.y, q.y, s, y, y, k, Kyy(m));
    RecoverEntry(q.z, q.z, s, z, z, k, Kzz(m));
  }

  lemma RecoverSquares(q: Quat, m: M3)
    requires FourSquaresWX(q, m) && FourSquaresYZ(q, m)
    ensures SquareEntries(q.w * q.w, q.x * q.x, q.y * q.y, q.z * q.z, m.c0.x, m.c1.y, m.c2.z)
  {}

  /** Two products that share a pair of mirrored entries of the rotation matrix. */
  lemma RecoverPair(a: real, b: real, c: real, d: real, s: real, ra: real, rb: real, rc: real, rd: real, k: real,
                    upper: real, lower: real)
    requires a * s == ra && b * s == rb && c * s == rc && d * s == rd && s * s == 4.0 * k && k > 0.0
    requires ra * rb == k * (upper - lower) && rc * rd == k * (upper + lower)
    ensures PairEntries(a * b, c * d, upper, lower)
  {
    RecoverEntry(a, b, s, ra, rb, k, upper - lower);
    RecoverEntry(c, d, s, rc, rd, k, upper + lower);
  }

  lemma RecoverPairWX(q: Quat, s: real, w: real, x: real, y: real, z: real, k: real, m: M3)
    requires IsRow(q, s, w, x, y, z, k) && w * x == k * Kwx(m) && y * z == k * Kyz(m)
    ensures PairEntries(q.w * q.x, q.y * q.z, m.c1.z, m.c2.y)
  {
    RecoverPair(q.w, q.x, q.y, q.z, s, w, x, y, z, k, m.c1.z, m.c2.y);
  }

  lemma RecoverPairWY(q: Quat, s: real, w: real, x: real, y: real, z: real, k: real, m: M3)
    requires IsRow(q, s, w, x, y, z, k) && w * y == k * Kwy(m) && x * z == k * Kxz(m)
    ensures PairEntries(q.w * q.y, q.x * q.z, m.c2.x, m.c0.z)
  {
    RecoverPair(q.w, q.y, q.x, q.z, s, w, y, x, z, k, m.c2.x, m.c0.z);
  }

  lemma RecoverPairWZ(q: Quat, s: real, w: real, x: real, y: real, z: real, k: real, m: M3)
    requires IsRow(q, s, w, x, y, z, k) && w * z == k * Kwz(m) && x * y == k * Kxy(m)
    ensures PairEntries(q.w * q.z, q.x * q.y, m.c0.y, m.c1.x)
  {
    RecoverPair(q.w, q.z, q.x, q.y, s, w, z, x, y, k, m.c0.y, m.c1.x);
  }

  lemma RecoverAll(q: Quat, s: real, w: real, x: real, y: real, z: real, k: real, m: M3)
    requires IsRow(q, s, w, x, y, z, k) && Outer(w, x, y, z, k, m)
    ensures FourTimes(q, m)
  {
    RecoverSquaresWX(q, s, w, x, y, z, k, m);
    RecoverSquaresYZ(q, s, w, x, y, z, k, m);
    RecoverSquares(q, m);
    RecoverPairWX(q, s, w, x, y, z, k, m);
    RecoverPairWY(q, s, w, x, y, z, k, m);
    RecoverPairWZ(q, s, w, x, y, z, k, m);
  }

  // The entries of the matrix of `q`, as the predicates on scalars have them.

  lemma DiagonalOfRotMat(q: Quat)
    ensures DiagonalEntries(q.x * q.x, q.y * q.y, q.z * q.z, RotMat(q).c0.x, RotMat(q).c1.y, RotMat(q).c2.z)
  {
    DiagonalForms(q.x, q.y, q.z);
  }

  lemma MirroredOfRotMat(q: Quat)
    ensures MirroredEntries(q.w * q.x, q.y * q.z, RotMat(q).c1.z, RotMat(q).c2.y)
    ensures MirroredEntries(q.w * q.y, q.x * q.z, RotMat(q).c2.x, RotMat(q).c0.z)
    ensures MirroredEntries(q.w * q.z, q.x * q.y, RotMat(q).c0.y, RotMat(q).c1.x)
  {
    MirroredForms(q.w, q.x, q.y, q.z);
    MirroredForms(q.w, q.y, q.x, q.z);
    MirroredForms(q.w, q.z, q.x, q.y);
  }

  lemma UnitSquares(q: Quat)
    ensures Unit(q) <==> SumToOne(q.w * q.w, q.x * q.x, q.y * q.y, q.z * q.z)
  {}

  lemma SameDiagonal(xx: real, yy: real, zz: real, a: M3, b: M3)
    requires DiagonalEntries(xx, yy, zz, a.c0.x, a.c1.y, a.c2.z) && DiagonalEntries(xx, yy, zz, b.c0.x, b.c1.y, b.c2.z)
    ensures a.c0.x == b.c0.x && a.c1.y == b.c1.y && a.c2.z == b.c2.z
  {}

  lemma SameMirrored(p: real, r: real, upper: real, lower: real, upper': real, lower': real)
    requires MirroredEntries(p, r, upper, lower) && MirroredEntries(p, r, upper', lower')
    ensures upper == upper' && lower == lower'
  {}

  lemma FourTimesRebuilds(q: Quat, m: M3)
    requires FourTimes(q, m)
    ensures NormQ(q) == 1.0 && RotMat(q) == m
  {
    var r := RotMat(q);
    DiagonalAndSquares(q.w * q.w, q.x * q.x, q.y * q.y, q.z * q.z, m.c0.x, m.c1.y, m.c2.z);
    UnitSquares(q);
    DiagonalOfRotMat(q);
    SameDiagonal(q.x * q.x, q.y * q.y, q.z * q.z, r, m);
    MirroredOfRotMat(q);
    PairAndMirrored(q.w * q.x, q.y * q.z, m.c1.z, m.c2.y);
    PairAndMirrored(q.w * q.y, q.x * q.z, m.c2.x, m.c0.z);
    PairAndMirrored(q.w * q.z, q.x * q.y, m.c0.y, m.c1.x);
    SameMirrored(q.w * q.x, q.y * q.z, m.c1.z, m.c2.y, r.c1.z, r.c2.y);
    SameMirrored(q.w * q.y, q.x * q.z, m.c2.x, m.c0.z, r.c2.x, r.c0.z);
    SameMirrored(q.w * q.z, q.x * q.y, m.c0.y, m.c1.x, r.c0.y, r.c1.x);
  }

  /** The converse: the 4x4 matrix of a unit quaternion's rotation. */
  lemma RotMatFourTimes(q: Quat)
    requires Unit(q)
    ensures FourTimes(q, RotMat(q))
  {
    var m := RotMat(q);
    UnitSquares(q);
    DiagonalOfRotMat(q);
    DiagonalAndSquares(q.w * q.w, q.x * q.x, q.y * q.y, q.z * q.z, m.c0.x, m.c1.y, m.c2.z);
    MirroredOfRotMat(q);
    PairAndMirrored(q.w * q.x, q.y * q.z, m.c1.z, m.c2.y);
    PairAndMirrored(q.w * q.y, q.x * q.z, m.c2.x, m.c0.z);
    PairAndMirrored(q.w * q.z, q.x * q.y, m.c0.y, m.c1.x);
  }

  lemma OuterOfBranch(m: M3)
    requires Entries(m)
    ensures var r := Row(m, Choose(m)); Outer(r.w, r.x, r.y, r.z, RootArg(m), m)
  {
    var a, b, c := m.c0, m.c1, m.c2;
    CycleEntries(a.x, b.x, c.x, a.y, b.y, c.y, a.z, b.z, c.z);
    CycleEntries(b.y, c.y, a.y, b.z, c.z, a.z, b.x, c.x, a.x);
    match Choose(m)
    case ByW => OuterByWX(m);
    case ByX => OuterByWX(m);
    case ByY => OuterByY(m);
    case ByZ => OuterByZ(m);
  }

  lemma RowOf(q: Quat, root: real, s: real, r: Quat, k: real)
    requires Scaled(q, s, r) && s == root * 2.0 && root * root == k && k >= 1.0
    ensures IsRow(q, s, r.w, r.x, r.y, r.z, k)
  {
    QuarterScaled(s, root, k);
  }

  lemma RawFourTimes(m: M3, root: real)
    requires Rotation(m) && IsSqrt(root, RootArg(m))
    ensures FourTimes(RawQuat(m, root), m)
  {
    var q, r := RawQuat(m, root), Row(m, Choose(m));
    RotationHasEntries(m);
    OuterOfBranch(m);
    RawScaled(m, root);
    RowOf(q, root, root * 2.0, r, RootArg(m));
    RecoverAll(q, root * 2.0, r.w, r.x, r.y, r.z, RootArg(m), m);
  }

  lemma RebuiltMatrix(q: Quat, m: M3, norm: real, norm': real)
    requires FourTimes(q, m) && IsSqrt(norm, NormQ(q)) && IsSqrt(norm', NormQ(Canonical(q)))
    ensures Unit(q) && norm == 1.0 && QuatNormalize(q, norm) == Some(Canonical(q))
    ensures QuatToMat(Canonical(q), norm') == Some(m)
  {
    FourTimesRebuilds(q, m);
    NormalizeUnit(q, norm);
    NormalizeUnit(Canonical(q), norm');
    RotMatNeg(q);
  }

  /** For every rotation matrix and in every branch, the quaternion is already unit
      before the final normalization, and converting back gives the matrix. */
  lemma MatQuatMat(m: M3, root: real, norm: real, norm': real)
    requires Rotation(m)
    requires IsSqrt(root, RootArg(m)) && IsSqrt(norm, NormQ(RawQuat(m, root)))
    requires MatToQuat(m, root, norm).Some? ==> IsSqrt(norm', NormQ(MatToQuat(m, root, norm).value))
    ensures Unit(RawQuat(m, root)) && norm == 1.0
    ensures MatToQuat(m, root, norm).Some? && QuatToMat(MatToQuat(m, root, norm).value, norm') == Some(m)
  {
    RawFourTimes(m, root);
    FourTimesRebuilds(RawQuat(m, root), m);
    NormalizeUnit(RawQuat(m, root), norm);
    RebuiltMatrix(RawQuat(m, root), m, norm, norm');
  }

  lemma SameEntries(a: Quat, b: Quat, m: M3)
    requires FourTimes(a, m) && FourTimes(b, m)
    ensures SameRow(a.w, a.x, a.y, a.z, b.w, b.x, b.y, b.z)
    ensures SameRow(a.x, a.w, a.y, a.z, b.x, b.w, b.y, b.z)
    ensures SameRow(a.y, a.w, a.x, a.z, b.y, b.w, b.x, b.z)
    ensures SameRow(a.z, a.w, a.x, a.y, b.z, b.w, b.x, b.y)
  {
    SameSquares(a.w * a.w, a.x * a.x, a.y * a.y, a.z * a.z, b.w * b.w, b.x * b.x, b.y * b.y, b.z * b.z,
                m.c0.x, m.c1.y, m.c2.z);
    SamePair(a.w * a.x, a.y * a.z, b.w * b.x, b.y * b.z, m.c1.z, m.c2.y);
    SamePair(a.w * a.y, a.x * a.z, b.w * b.y, b.x * b.z, m.c2.x, m.c0.z);
    SamePair(a.w * a.z, a.x * a.y, b.w * b.z, b.x * b.y, m.c0.y, m.c1.x);
  }

  lemma SignByW(a: Quat, b: Quat, m: M3)
    requires FourTimes(a, m) && FourTimes(b, m) && a.w != 0.0
    ensures b == a || b == NegQ(a)
  {
    SameEntries(a, b, m);
    SignOf(a.w, a.x, a.y, a.z, b.w, b.x, b.y, b.z);
  }

  lemma SignByX(a: Quat, b: Quat, m: M3)
    requires FourTimes(a, m) && FourTimes(b, m) && a.x != 0.0
    ensures b == a || b == NegQ(a)
  {
    SameEntries(a, b, m);
    SignOf(a.x, a.w, a.y, a.z, b.x, b.w, b.y, b.z);
  }

  lemma SignByY(a: Quat, b: Quat, m: M3)
    requires FourTimes(a, m) && FourTimes(b, m) && a.y != 0.0
    ensures b == a || b == NegQ(a)
  {
    SameEntries(a, b, m);
    SignOf(a.y, a.w, a.x, a.z, b.y, b.w, b.x, b.z);
  }

  lemma SignByZ(a: Quat, b: Quat, m: M3)
    requires FourTimes(a, m) && FourTimes(b, m) && a.z != 0.0
    ensures b == a || b == NegQ(a)
  {
    SameEntries(a, b, m);
    SignOf(a.z, a.w, a.x, a.y, b.z, b.w, b.x, b.y);
  }

  /** Two quaternions with the same products are equal up to sign. */
  lemma SameProducts(a: Quat, b: Quat, m: M3)
    requires FourTimes(a, m) && FourTimes(b, m) && Unit(a)
    ensures b == a || b == NegQ(a)
  {
    NotAllZero(a);
    if a.w != 0.0 { SignByW(a, b, m); }
    else if a.x != 0.0 { SignByX(a, b, m); }
    else if a.y != 0.0 { SignByY(a, b, m); }
    else { SignByZ(a, b, m); }
  }

  lemma NotAllZero(a: Quat)
    requires Unit(a)
    ensures a.w != 0.0 || a.x != 0.0 || a.y != 0.0 || a.z != 0.0
  {}

  lemma RecoveredQuat(u: Quat, raw: Quat, norm: real)
    requires Canon(u) && FourTimes(raw, RotMat(u)) && IsSqrt(norm, NormQ(raw))
    ensures QuatNormalize(raw, norm).Some? && SameOrientation(QuatNormalize(raw, norm).value, u)
  {
    RotMatFourTimes(u);
    FourTimesRebuilds(raw, RotMat(u));
    SameProducts(u, raw, RotMat(u));
    NormalizeUnit(raw, norm);
  }

  /** For every quaternion, whichever branch the matrix selects, `mat_to_quat` after
      `quat_to_mat` gives back the normalized quaternion: exactly when w > 0, and up
      to sign when w == 0. */
  lemma QuatMatQuat(q: Quat, n: real, root: real, norm: real)
    requires IsSqrt(n, NormQ(q)) && QuatToMat(q, n).Some?
    requires IsSqrt(root, RootArg(QuatToMat(q, n).value))
    requires IsSqrt(norm, NormQ(RawQuat(QuatToMat(q, n).value, root)))
    ensures MatToQuat(QuatToMat(q, n).value, root, norm).Some? && QuatNormalize(q, n).Some?
    ensures SameOrientation(MatToQuat(QuatToMat(q, n).value, root, norm).value, QuatNormalize(q, n).value)
  {
    NormalizeSpec(q, n);
    var u := QuatNormalize(q, n).value;
    RotMatIsRotation(u);
    RawFourTimes(RotMat(u), root);
    RecoveredQuat(u, RawQuat(RotMat(u), root), norm);
  }

  // ------------------------------------------------------- half turns, where w == 0

  /** For a half turn: the component of largest magnitude, the earlier one on a tie. */
  function Pivot(q: Quat): real {
    if q.x * q.x >= q.y * q.y && q.x * q.x >= q.z * q.z then q.x
    else if q.y * q.y >= q.z * q.z then q.y
    else q.z
  }

  lemma HalfTurnChoice(q: Quat, xx: real, yy: real, zz: real)
    requires Unit(q) && q.w == 0.0 && xx == q.x * q.x && yy == q.y * q.y && zz == q.z * q.z
    ensures xx + yy + zz == 1.0
    ensures Choose(RotMat(q)) == if xx >= yy && xx >= zz then ByX else if yy >= zz then ByY else ByZ
  {
    HalfTurnDiagonal(q, RotMat(q), xx, yy, zz);
  }

  lemma HalfTurnDiagonal(q: Quat, m: M3, xx: real, yy: real, zz: real)
    requires Unit(q) && q.w == 0.0 && m == RotMat(q) && xx == q.x * q.x && yy == q.y * q.y && zz == q.z * q.z
    ensures xx + yy + zz == 1.0
    ensures m.c0.x == 2.0 * xx - 1.0 && m.c1.y == 2.0 * yy - 1.0 && m.c2.z == 2.0 * zz - 1.0
  {
  }

  /** The branch makes its own component positive. */
  lemma RawPivot(m: M3, root: real)
    requires IsSqrt(root, RootArg(m))
    ensures var q := RawQuat(m, root);
      match Choose(m)
      case ByW => q.w > 0.0
      case ByX => q.x > 0.0
      case ByY => q.y > 0.0
      case ByZ => q.z > 0.0
  {
    RootAtLeastOne(root, RootArg(m));
  }

  /** The round trip is the identity exactly when w > 0 or, on a half turn, the pivot is
      positive; on every other half turn it gives the opposite quaternion. */
  lemma RoundTripExactly(u: Quat, root: real, norm: real)
    requires Canon(u)
    requires IsSqrt(root, RootArg(RotMat(u))) && IsSqrt(norm, NormQ(RawQuat(RotMat(u), root)))
    ensures MatToQuat(RotMat(u), root, norm) == Some(if u.w > 0.0 || Pivot(u) > 0.0 then u else NegQ(u))
    ensures MatToQuat(RotMat(u), root, norm) == Some(u) <==> u.w > 0.0 || Pivot(u) > 0.0
  {
    var raw := RawQuat(RotMat(u), root);
    RotMatIsRotation(u);
    RawFourTimes(RotMat(u), root);
    RecoveredQuat(u, raw, norm);
    RotMatFourTimes(u);
    SameProducts(u, raw, RotMat(u));
    NormalizeUnit(raw, norm);
    if u.w == 0.0 {
      HalfTurnChoice(u, u.x * u.x, u.y * u.y, u.z * u.z);
      RawPivot(RotMat(u), root);
      PivotNotZero(u, Pivot(u));
    }
  }

  lemma PivotSquare(xx: real, yy: real, zz: real, pp: real)
    requires xx + yy + zz == 1.0
    requires pp == if xx >= yy && xx >= zz then xx else if yy >= zz then yy else zz
    ensures pp > 0.0
  {
  }

  lemma PivotNotZero(u: Quat, p: real)
    requires Unit(u) && u.w == 0.0 && p == Pivot(u)
    ensures p != 0.0 && NegQ(u) != u
  {
    PivotSquare(u.x * u.x, u.y * u.y, u.z * u.z, p * p);
  }
}
