/** Homogeneous 4x4 matrices: `Pose.to_matrix` and `Pose.from_matrix`. */
module PoseMatrix {
  import opened Basics
  import opened RealAlgebra
  import opened Vectors
  import opened Quaternions
  import opened Rotations
  import opened Shepperd
  import opened Poses

  /** A 4x4 matrix by blocks: `[rot trans; bottom corner]`. */
  datatype M4 = M4(rot: M3, trans: V3, bottom: V3, corner: real)

  /** The full 4x4 product, block by block. */
  function MulM4(a: M4, b: M4): M4 {
    M4(M3(Add(MulVec(a.rot, b.rot.c0), Scale(b.bottom.x, a.trans)),
          Add(MulVec(a.rot, b.rot.c1), Scale(b.bottom.y, a.trans)),
          Add(MulVec(a.rot, b.rot.c2), Scale(b.bottom.z, a.trans))),
       Add(MulVec(a.rot, b.trans), Scale(b.corner, a.trans)),
       V3(Dot(a.bottom, b.rot.c0) + a.corner * b.bottom.x,
          Dot(a.bottom, b.rot.c1) + a.corner * b.bottom.y,
          Dot(a.bottom, b.rot.c2) + a.corner * b.bottom.z),
       Dot(a.bottom, b.trans) + a.corner * b.corner)
  }

  function ToMatrix(a: Pose): M4
    requires Valid(a)
  {
    NormalizeUnit(a.q, 1.0);
    M4(QuatToMat(a.q, 1.0).value, a.p, V3(0.0, 0.0, 0.0), 1.0)
  }

  function FromMatrix(m: M4, root: real, norm: real, norm': real): Option<Pose>
    requires IsSqrt(root, RootArg(m.rot)) && IsSqrt(norm, NormQ(RawQuat(m.rot, root)))
    requires MatToQuat(m.rot, root, norm).Some? ==> IsSqrt(norm', NormQ(MatToQuat(m.rot, root, norm).value))
  {
    match MatToQuat(m.rot, root, norm)
    case None => None
    case Some(q) => MakePose(m.trans, q, norm')
  }

  lemma ToMatrixParts(a: Pose)
    requires Valid(a)
    ensures ToMatrix(a) == M4(RotMat(a.q), a.p, V3(0.0, 0.0, 0.0), 1.0)
    ensures Rotation(ToMatrix(a).rot)
  {
    NormalizeUnit(a.q, 1.0);
    RotMatIsRotation(a.q);
  }

  lemma DotZero(z: V3, v: V3)
    requires z == V3(0.0, 0.0, 0.0)
    ensures Dot(z, v) == 0.0
  {}

  /** The product of two rigid matrices, `z` and `one` being the bottom rows. */
  lemma RigidProduct(r: M3, s: M3, p: V3, q: V3, z: V3, one: real)
    requires z == V3(0.0, 0.0, 0.0) && one == 1.0
    ensures MulM4(M4(r, p, z, one), M4(s, q, z, one)) == M4(MulMat(r, s), Add(MulVec(r, q), p), z, one)
  {
    ScaleByZero(z.x, p);
    ScaleByZero(z.y, p);
    ScaleByZero(z.z, p);
    ScaleOne(one, p);
    AddZero(MulVec(r, s.c0), z);
    AddZero(MulVec(r, s.c1), z);
    AddZero(MulVec(r, s.c2), z);
    DotZero(z, s.c0);
    DotZero(z, s.c1);
    DotZero(z, s.c2);
    DotZero(z, q);
    OneTimes(one, z.x);
    OneTimes(one, one);
  }

  lemma OneTimes(one: real, x: real)
    requires one == 1.0
    ensures one * x == x
  {}

  lemma AddCommutes(a: V3, b: V3)
    ensures Add(a, b) == Add(b, a)
  {}

  /** `to_matrix` turns composition of poses into the 4x4 matrix product. */
  lemma ToMatrixProduct(a: Pose, b: Pose)
    requires Valid(a) && Valid(b)
    ensures ToMatrix(PoseMul(a, b)) == MulM4(ToMatrix(a), ToMatrix(b))
  {
    var ab := PoseMul(a, b);
    PoseMulParts(a, b);
    ToMatrixParts(a);
    ToMatrixParts(b);
    ToMatrixParts(ab);
    RotMatNeg(Hamilton(a.q, b.q));
    RotMatProduct(a.q, b.q);
    MatrixActs(a.q, b.p);
    AddCommutes(a.p, QuatRotate(a.q, b.p));
    RigidProduct(RotMat(a.q), RotMat(b.q), a.p, b.p, V3(0.0, 0.0, 0.0), 1.0);
  }

  /** `from_matrix` undoes `to_matrix`. */
  lemma FromToMatrix(a: Pose, root: real, norm: real, norm': real)
    requires Valid(a)
    requires IsSqrt(root, RootArg(ToMatrix(a).rot)) && IsSqrt(norm, NormQ(RawQuat(ToMatrix(a).rot, root)))
    requires var q := MatToQuat(ToMatrix(a).rot, root, norm); q.Some? ==> IsSqrt(norm', NormQ(q.value))
    ensures var b := FromMatrix(ToMatrix(a), root, norm, norm'); b.Some? && SamePose(b.value, a)
  {
    ToMatrixParts(a);
    NormalizeUnit(a.q, 1.0);
    QuatMatQuat(a.q, 1.0, root, norm);
    MatToQuatTotal(ToMatrix(a).rot, root, norm);
    var q := MatToQuat(ToMatrix(a).rot, root, norm).value;
    NormalizeUnit(q, norm');
  }

  /** And `to_matrix` undoes `from_matrix` on every rigid transform. */
  lemma ToFromMatrix(m: M4, root: real, norm: real, norm': real)
    requires Rotation(m.rot) && m.bottom == V3(0.0, 0.0, 0.0) && m.corner == 1.0
    requires IsSqrt(root, RootArg(m.rot)) && IsSqrt(norm, NormQ(RawQuat(m.rot, root)))
    requires var q := MatToQuat(m.rot, root, norm); q.Some? ==> IsSqrt(norm', NormQ(q.value))
    ensures var b := FromMatrix(m, root, norm, norm');
      b.Some? && Valid(b.value) && ToMatrix(b.value) == m
  {
    MatToQuatTotal(m.rot, root, norm);
    MatQuatMat(m.rot, root, norm, norm');
    var q := MatToQuat(m.rot, root, norm).value;
    NormalizeUnit(q, norm');
    ToMatrixParts(Pose(m.trans, q));
  }

  /** On every 4x4 matrix at all, `from_matrix` gives a pose with the matrix's translation
      and ignores the bottom row. */
  lemma FromAnyMatrix(m: M4, root: real, norm: real, norm': real)
    requires IsSqrt(root, RootArg(m.rot)) && IsSqrt(norm, NormQ(RawQuat(m.rot, root)))
    requires var q := MatToQuat(m.rot, root, norm); q.Some? ==> IsSqrt(norm', NormQ(q.value))
    ensures MatToQuat(m.rot, root, norm).Some?
    ensures FromMatrix(m, root, norm, norm') == Some(Pose(m.trans, MatToQuat(m.rot, root, norm).value))
    ensures Valid(Pose(m.trans, MatToQuat(m.rot, root, norm).value))
  {
    MatToQuatTotal(m.rot, root, norm);
    NormalizeUnit(MatToQuat(m.rot, root, norm).value, norm');
  }
}
