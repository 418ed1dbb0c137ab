/** Poses (`types.py`) and their algebra (`se3.py`). */
module Poses {
  import opened Basics
  import opened RealAlgebra
  import opened Vectors
  import opened Quaternions
  import opened Rotations
  import opened Shepperd

  datatype Pose = Pose(p: V3, q: Quat)

  /** What the constructor guarantees: a canonical unit quaternion. */
  predicate Valid(a: Pose) { Canon(a.q) }

  const MIN_NORM := 0.000000001

  /** The constructor: refuses a quaternion of norm below 1e-9, normalizes the rest. */
  function MakePose(p: V3, q: Quat, norm: real): Option<Pose>
    requires IsSqrt(norm, NormQ(q))
  {
    if norm < MIN_NORM then None
    else
      match QuatNormalize(q, norm)
      case None => None
      case Some(n) => Some(Pose(p, n))
  }

  /** The constructor refuses exactly below its threshold; otherwise it keeps the position
      and holds the canonical unit quaternion that scales back to `q`, up to sign. */
  lemma MakePoseSpec(p: V3, q: Quat, norm: real)
    requires IsSqrt(norm, NormQ(q))
    ensures MakePose(p, q, norm).None? <==> norm < 0.000000001
    ensures MakePose(p, q, norm).Some? ==>
              var a := MakePose(p, q, norm).value;
              a.p == p && Valid(a) && q == Times(if q.w >= 0.0 then norm else -norm, a.q)
  {
    NormalizeSpec(q, norm);
  }

  const IDENTITY_POSE := Pose(V3(0.0, 0.0, 0.0), ONE)

  /** `pose_mul`. Operands are unit, so the norms taken on the way are 1. */
  function PoseMul(a: Pose, b: Pose): (r: Pose)
    requires Valid(a) && Valid(b)
    ensures Valid(r)
  {
    HamiltonNorm(a.q, b.q);
    NormalizeUnit(Hamilton(a.q, b.q), 1.0);
    var q := QuatMul(a.q, b.q, 1.0).value;
    NormalizeUnit(q, 1.0);
    MakePose(Add(a.p, QuatRotate(a.q, b.p)), q, 1.0).value
  }

  function PoseInv(a: Pose): (r: Pose)
    requires Valid(a)
    ensures Valid(r)
  {
    NormNeg(a.q);
    NormalizeUnit(ConjQ(a.q), 1.0);
    var q := QuatConj(a.q, 1.0).value;
    NormalizeUnit(q, 1.0);
    MakePose(Neg(QuatRotate(q, a.p)), q, 1.0).value
  }

  function PoseBetween(a: Pose, b: Pose): (r: Pose)
    requires Valid(a) && Valid(b)
    ensures Valid(r)
  {
    PoseMul(PoseInv(a), b)
  }

  /** The same position and the same rotation. */
  predicate SamePose(a: Pose, b: Pose) { a.p == b.p && SameOrientation(a.q, b.q) }

  // ---------------------------------------------------------- what is computed

  lemma PoseMulParts(a: Pose, b: Pose)
    requires Valid(a) && Valid(b)
    ensures PoseMul(a, b).p == Add(a.p, QuatRotate(a.q, b.p))
    ensures PoseMul(a, b).q == Canonical(Hamilton(a.q, b.q))
    ensures Unit(Hamilton(a.q, b.q))
  {
    HamiltonNorm(a.q, b.q);
    NormalizeUnit(Hamilton(a.q, b.q), 1.0);
    NormalizeUnit(Canonical(Hamilton(a.q, b.q)), 1.0);
  }

  lemma PoseInvParts(a: Pose)
    requires Valid(a)
    ensures PoseInv(a) == Pose(Neg(QuatRotate(ConjQ(a.q), a.p)), ConjQ(a.q))
    ensures Unit(ConjQ(a.q))
  {
    NormNeg(a.q);
    NormalizeUnit(ConjQ(a.q), 1.0);
  }

  /** `pose_mul` never raises, whatever square roots numpy finds: they are 1. */
  lemma PoseMulNeverRaises(a: Pose, b: Pose, n: real, n': real)
    requires Valid(a) && Valid(b) && IsSqrt(n, NormQ(Hamilton(a.q, b.q)))
    requires QuatMul(a.q, b.q, n).Some? ==> IsSqrt(n', NormQ(QuatMul(a.q, b.q, n).value))
    ensures QuatMul(a.q, b.q, n).Some?
    ensures MakePose(Add(a.p, QuatRotate(a.q, b.p)), QuatMul(a.q, b.q, n).value, n') == Some(PoseMul(a, b))
  {
    HamiltonNorm(a.q, b.q);
    NormalizeUnit(Hamilton(a.q, b.q), n);
    NormalizeUnit(Canonical(Hamilton(a.q, b.q)), n');
  }

  // ------------------------------------------------------------ signs, linearity

  lemma CanonicalUpToSign(x: Quat, y: Quat)
    requires x == y || x == NegQ(y)
    ensures SameOrientation(Canonical(x), Canonical(y))
  {}

  lemma CanonicalSigns(a: Quat, b: Quat)
    ensures var h := Hamilton(Canonical(a), b); h == Hamilton(a, b) || h == NegQ(Hamilton(a, b))
    ensures var h := Hamilton(a, Canonical(b)); h == Hamilton(a, b) || h == NegQ(Hamilton(a, b))
  {
    HamiltonSigns(a, b);
  }

  lemma RotateCanonical(q: Quat, v: V3)
    requires Unit(q)
    ensures QuatRotate(Canonical(q), v) == QuatRotate(q, v)
  {
    RotateNeg(q, v);
  }

  lemma ScaleAdd(k: real, l: real, v: V3)
    ensures Scale(k + l, v) == Add(Scale(k, v), Scale(l, v))
  {}

  lemma AddShuffle(a: V3, b: V3, c: V3, d: V3, e: V3, f: V3)
    ensures Add(Add(Add(a, b), Add(c, d)), Add(e, f)) == Add(Add(Add(a, c), e), Add(Add(b, d), f))
  {}

  lemma MulVecAdd(m: M3, u: V3, v: V3)
    ensures MulVec(m, Add(u, v)) == Add(MulVec(m, u), MulVec(m, v))
  {
    ScaleAdd(u.x, v.x, m.c0);
    ScaleAdd(u.y, v.y, m.c1);
    ScaleAdd(u.z, v.z, m.c2);
    AddShuffle(Scale(u.x, m.c0), Scale(v.x, m.c0), Scale(u.y, m.c1), Scale(v.y, m.c1), Scale(u.z, m.c2), Scale(v.z, m.c2));
  }

  lemma RotateAdd(q: Quat, u: V3, v: V3)
    ensures QuatRotate(q, Add(u, v)) == Add(QuatRotate(q, u), QuatRotate(q, v))
  {
    MatrixActs(q, u);
    MatrixActs(q, v);
    MatrixActs(q, Add(u, v));
    MulVecAdd(RotMat(q), u, v);
  }

  lemma AddAssoc(a: V3, b: V3, c: V3)
    ensures Add(Add(a, b), c) == Add(a, Add(b, c))
  {}

  lemma AddInverse(a: V3, b: V3, z: V3)
    requires z == V3(0.0, 0.0, 0.0)
    ensures Add(a, Neg(a)) == z && Add(Neg(a), a) == z
    ensures Add(a, b) == z ==> b == Neg(a)
    ensures Add(a, a) == a ==> a == z
  {}

  lemma RotateZero(q: Quat, z: V3)
    requires z == V3(0.0, 0.0, 0.0)
    ensures QuatRotate(q, z) == z
  {
    AddZero(z, z);
    RotateAdd(q, z, z);
    AddInverse(QuatRotate(q, z), z, z);
  }

  lemma RotateNegVector(q: Quat, v: V3)
    ensures QuatRotate(q, Neg(v)) == Neg(QuatRotate(q, v))
  {
    var z := V3(0.0, 0.0, 0.0);
    AddInverse(v, v, z);
    RotateZero(q, z);
    RotateAdd(q, v, Neg(v));
    AddInverse(QuatRotate(q, v), QuatRotate(q, Neg(v)), z);
  }

  // --------------------------------------------------------------- the group laws

  lemma PoseAssoc(a: Pose, b: Pose, c: Pose)
    requires Valid(a) && Valid(b) && Valid(c)
    ensures SamePose(PoseMul(PoseMul(a, b), c), PoseMul(a, PoseMul(b, c)))
  {
    var ab, bc := PoseMul(a, b), PoseMul(b, c);
    PoseMulParts(a, b);
    PoseMulParts(b, c);
    PoseMulParts(ab, c);
    PoseMulParts(a, bc);
    // positions: a + R_a (b + R_b c)
    RotateCanonical(Hamilton(a.q, b.q), c.p);
    RotateCompose(a.q, b.q, c.p);
    RotateAdd(a.q, b.p, QuatRotate(b.q, c.p));
    AddAssoc(a.p, QuatRotate(a.q, b.p), QuatRotate(a.q, QuatRotate(b.q, c.p)));
    // orientations: both are plus or minus a b c
    CanonicalSigns(Hamilton(a.q, b.q), c.q);
    CanonicalSigns(a.q, Hamilton(b.q, c.q));
    HamiltonAssoc(a.q, b.q, c.q);
    UpToSignBoth(Hamilton(ab.q, c.q), Hamilton(a.q, bc.q), Hamilton(Hamilton(a.q, b.q), c.q));
  }

  lemma UpToSignBoth(x: Quat, y: Quat, h: Quat)
    requires (x == h || x == NegQ(h)) && (y == h || y == NegQ(h))
    ensures SameOrientation(Canonical(x), Canonical(y))
  {
    CanonicalUpToSign(x, y);
  }

  lemma IdentityValid()
    ensures Valid(IDENTITY_POSE)
  {}

  lemma PoseIdentity(a: Pose)
    requires Valid(a)
    ensures Valid(IDENTITY_POSE) && PoseMul(IDENTITY_POSE, a) == a && PoseMul(a, IDENTITY_POSE) == a
  {
    IdentityValid();
    PoseMulParts(IDENTITY_POSE, a);
    PoseMulParts(a, IDENTITY_POSE);
    HamiltonUnits(a.q);
    RotateByOne(a.p);
    var z := V3(0.0, 0.0, 0.0);
    RotateZero(a.q, z);
    AddZero(a.p, z);
  }

  lemma OppositeParts(a: Pose, b: Pose)
    requires Valid(a) && Valid(b) && Hamilton(a.q, b.q) == ONE
    requires Add(a.p, QuatRotate(a.q, b.p)) == V3(0.0, 0.0, 0.0)
    ensures PoseMul(a, b) == IDENTITY_POSE
  {
    PoseMulParts(a, b);
  }

  lemma UnitInverse(q: Quat)
    requires Unit(q)
    ensures Hamilton(q, ConjQ(q)) == ONE == Hamilton(ConjQ(q), q)
  {
    HamiltonUnits(q);
  }

  /** `pose_inv` is an exact two-sided inverse. */
  lemma PoseInverse(a: Pose)
    requires Valid(a)
    ensures PoseMul(a, PoseInv(a)) == IDENTITY_POSE && PoseMul(PoseInv(a), a) == IDENTITY_POSE
  {
    PoseInvParts(a);
    UnitInverse(a.q);
    RotateInverse(a.q, a.p);
    var back := QuatRotate(ConjQ(a.q), a.p);
    RotateNegVector(a.q, back);
    AddInverse(a.p, a.p, V3(0.0, 0.0, 0.0));
    AddInverse(back, back, V3(0.0, 0.0, 0.0));
    OppositeParts(a, PoseInv(a));
    OppositeParts(PoseInv(a), a);
  }

  /** Composing with the relative transform reaches the other pose. */
  lemma BetweenRecomposes(a: Pose, b: Pose)
    requires Valid(a) && Valid(b)
    ensures SamePose(PoseMul(a, PoseBetween(a, b)), b)
  {
    IdentityValid();
    PoseAssoc(a, PoseInv(a), b);
    PoseInverse(a);
    PoseIdentity(b);
    SamePoseSymmetric(PoseMul(PoseMul(a, PoseInv(a)), b), PoseMul(a, PoseBetween(a, b)));
  }

  lemma SamePoseSymmetric(a: Pose, b: Pose)
    requires SamePose(a, b)
    ensures SamePose(b, a)
  {}

  // ---------------------------------------------------------------- flange and TCP

  const TCP_OFFSET_M := 0.172
  const FLANGE_TO_TCP := Pose(V3(0.0, 0.0, TCP_OFFSET_M), Quat(0.0, 0.0, 0.0, 1.0))

  lemma FlangeToTcpValid()
    ensures Valid(FLANGE_TO_TCP)
  {}

  /** With a gripper the offset applies; without one `link_tcp` is the flange. */
  function Offset(a: Pose, f: Pose, gripper: bool): (r: Pose)
    requires Valid(a) && Valid(f)
    ensures Valid(r)
  {
    if gripper then PoseMul(a, f) else a
  }

  function FlangeToTcp(a: Pose, gripper: bool): (r: Pose)
    requires Valid(a)
    ensures Valid(r)
  {
    FlangeToTcpValid();
    Offset(a, FLANGE_TO_TCP, gripper)
  }

  function TcpToFlange(a: Pose, gripper: bool): (r: Pose)
    requires Valid(a)
    ensures Valid(r)
  {
    FlangeToTcpValid();
    Offset(a, PoseInv(FLANGE_TO_TCP), gripper)
  }

  lemma SamePoseReflexive(a: Pose)
    ensures SamePose(a, a)
  {}

  lemma OffsetUndo(a: Pose, f: Pose, gripper: bool)
    requires Valid(a) && Valid(f)
    ensures SamePose(Offset(Offset(a, f, gripper), PoseInv(f), gripper), a)
    ensures SamePose(Offset(Offset(a, PoseInv(f), gripper), f, gripper), a)
  {
    IdentityValid();
    PoseAssoc(a, f, PoseInv(f));
    PoseAssoc(a, PoseInv(f), f);
    PoseInverse(f);
    PoseIdentity(a);
    SamePoseReflexive(a);
  }

  /** The two conversions undo each other, in both orders. */
  lemma TcpRoundTrip(a: Pose, gripper: bool)
    requires Valid(a)
    ensures SamePose(TcpToFlange(FlangeToTcp(a, gripper), gripper), a)
    ensures SamePose(FlangeToTcp(TcpToFlange(a, gripper), gripper), a)
  {
    FlangeToTcpValid();
    OffsetUndo(a, FLANGE_TO_TCP, gripper);
  }

  /** Half a turn about z. */
  lemma HalfTurnZ(q: Quat, v: V3)
    requires q == Quat(0.0, 0.0, 0.0, 1.0)
    ensures QuatRotate(q, v) == V3(-v.x, -v.y, v.z)
  {
    var t := Rotated(q, v);
    assert t == V3(-2.0 * v.y, 2.0 * v.x, 0.0);
  }

  /** With a gripper the tool frame is the flange's, turned half round about its z axis
      and moved 0.172 along it; without one it is the flange's. */
  lemma ToolFrame(a: Pose, v: V3)
    requires Valid(a)
    ensures FlangeToTcp(a, false) == a == TcpToFlange(a, false)
    ensures FlangeToTcp(a, true).p == Add(a.p, QuatRotate(a.q, V3(0.0, 0.0, 0.172)))
    ensures QuatRotate(FlangeToTcp(a, true).q, v) == QuatRotate(a.q, V3(-v.x, -v.y, v.z))
  {
    FlangeToTcpValid();
    var f := FLANGE_TO_TCP;
    PoseMulParts(a, f);
    RotateCompose(a.q, f.q, v);
    HalfTurnZ(f.q, v);
    RotateCanonical(Hamilton(a.q, f.q), v);
  }
}
