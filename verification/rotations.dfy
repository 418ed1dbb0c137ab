/** Quaternion to rotation matrix and back. A matrix is kept by columns, so the
    program's `m[i, j]` is coordinate `i` of column `j`. */
module Rotations {
  import opened Basics
  import opened RealAlgebra
  import opened Vectors
  import opened Quaternions

  const E0 := V3(1.0, 0.0, 0.0)
  const E1 := V3(0.0, 1.0, 0.0)
  const E2 := V3(0.0, 0.0, 1.0)

  /** The entries `quat_to_mat` computes from the normalized quaternion. */
  function RotMat(q: Quat): M3 {
    M3(V3(OnDiagonal(q.y, q.z), Plus(q.x, q.y, q.w, q.z), Minus(q.x, q.z, q.w, q.y)),
       V3(Minus(q.x, q.y, q.w, q.z), OnDiagonal(q.x, q.z), Plus(q.y, q.z, q.w, q.x)),
       V3(Plus(q.x, q.z, q.w, q.y), Minus(q.y, q.z, q.w, q.x), OnDiagonal(q.x, q.y)))
  }

  function QuatToMat(q: Quat, norm: real): Option<M3>
    requires IsSqrt(norm, NormQ(q))
  {
    match QuatNormalize(q, norm)
    case None => None
    case Some(n) => Some(RotMat(n))
  }

  // --------------------------------------------- the matrix acts as the rotation

  lemma RowActs(q: Quat, v: V3, t: V3, r: V3, row: V3)
    requires IsTwist(q, v, t) && IsRotated(q, v, t, r) && IsFirstRow(q, row)
    ensures r.x == Dot(v, row)
  {
    RotatedRow(q.w, q.x, q.y, q.z, v.x, v.y, v.z, t.x, t.y, t.z, r.x, r.y, r.z, row.x, row.y, row.z);
  }

  predicate IsFirstRow(q: Quat, row: V3) { RowEntries(q.w, q.x, q.y, q.z, row.x, row.y, row.z) }

  function Row0(m: M3): V3 { V3(m.c0.x, m.c1.x, m.c2.x) }
  function Row1(m: M3): V3 { V3(m.c0.y, m.c1.y, m.c2.y) }
  function Row2(m: M3): V3 { V3(m.c0.z, m.c1.z, m.c2.z) }

  /** The other rows are the first row of the cyclically renamed quaternion. */
  lemma RowsOfRotMat(q: Quat)
    ensures IsFirstRow(q, Row0(RotMat(q)))
    ensures IsFirstRow(Cycle(q), CycleV(Row1(RotMat(q))))
    ensures IsFirstRow(Cycle(Cycle(q)), CycleV(CycleV(Row2(RotMat(q)))))
  {
    Commuted(q.x, q.y, q.w, q.z);
    Commuted(q.x, q.z, q.w, q.y);
    Commuted(q.y, q.z, q.w, q.x);
  }

  lemma DotCycle(a: V3, b: V3)
    ensures Dot(CycleV(a), CycleV(b)) == Dot(a, b)
  {}

  lemma ApplyRows(m: M3, v: V3, r: V3)
    requires r.x == Dot(v, Row0(m)) && r.y == Dot(v, Row1(m)) && r.z == Dot(v, Row2(m))
    ensures r == MulVec(m, v)
  {}

  /** The rotation block acts on vectors exactly as `quat_rotate` does. */
  lemma MatrixActs(q: Quat, v: V3)
    ensures MulVec(RotMat(q), v) == QuatRotate(q, v)
  {
    var t := Rotated(q, v);
    var m, r, q' := RotMat(q), QuatRotate(q, v), Cycle(q);
    RowsOfRotMat(q);
    CycleTwistRotated(q, v, t, r);
    CycleTwistRotated(q', CycleV(v), CycleV(t), CycleV(r));
    RowActs(q, v, t, r, Row0(m));
    RowActs(q', CycleV(v), CycleV(t), CycleV(r), CycleV(Row1(m)));
    RowActs(Cycle(q'), CycleV(CycleV(v)), CycleV(CycleV(t)), CycleV(CycleV(r)), CycleV(CycleV(Row2(m))));
    DotCycle(v, Row1(m));
    DotCycle(CycleV(v), CycleV(Row2(m)));
    DotCycle(v, Row2(m));
    ApplyRows(m, v, r);
  }

  lemma CycleTwistRotated(q: Quat, v: V3, t: V3, r: V3)
    requires IsTwist(q, v, t) && IsRotated(q, v, t, r)
    ensures IsTwist(Cycle(q), CycleV(v), CycleV(t)) && IsRotated(Cycle(q), CycleV(v), CycleV(t), CycleV(r))
  {
    CycleTwist(q, v, t);
    CycleRotated(q, v, t, r);
  }

  lemma ColumnsOf(q: Quat)
    ensures RotMat(q) == M3(QuatRotate(q, E0), QuatRotate(q, E1), QuatRotate(q, E2))
  {
    MulBasis0(RotMat(q), E0);
    MulBasis1(RotMat(q), E1);
    MulBasis2(RotMat(q), E2);
    MatrixActs(q, E0);
    MatrixActs(q, E1);
    MatrixActs(q, E2);
  }

  lemma BasisFacts(e0: V3, e1: V3, e2: V3)
    requires e0 == V3(1.0, 0.0, 0.0) && e1 == V3(0.0, 1.0, 0.0) && e2 == V3(0.0, 0.0, 1.0)
    ensures Dot(e0, e0) == 1.0 && Dot(e1, e1) == 1.0 && Dot(e2, e2) == 1.0
    ensures Dot(e0, e1) == 0.0 && Dot(e0, e2) == 0.0 && Dot(e1, e2) == 0.0
  {
    DotBasis(e0, e0);
    DotBasis(e0, e1);
    DotBasis(e0, e2);
    DotBasis(e1, e1);
    DotBasis(e1, e2);
    DotBasis(e2, e2);
  }

  lemma RotatedAxes(q: Quat, m: M3, e0: V3, e1: V3, e2: V3)
    requires e0 == V3(1.0, 0.0, 0.0) && e1 == V3(0.0, 1.0, 0.0) && e2 == V3(0.0, 0.0, 1.0)
    requires Unit(q) && m == M3(QuatRotate(q, e0), QuatRotate(q, e1), QuatRotate(q, e2))
    ensures Rotation(m)
  {
    BasisFacts(e0, e1, e2);
    CrossBasis(e1, e2);
    RotatePreserves(q, e0, e0);
    RotatePreserves(q, e1, e1);
    RotatePreserves(q, e2, e2);
    RotatePreserves(q, e0, e1);
    RotatePreserves(q, e0, e2);
    RotatePreserves(q, e1, e2);
    RotationFromProducts(m);
  }

  /** `quat_to_mat` always yields a rotation. */
  lemma RotMatIsRotation(q: Quat)
    requires Unit(q)
    ensures Rotation(RotMat(q))
  {
    ColumnsOf(q);
    RotatedAxes(q, RotMat(q), E0, E1, E2);
  }

  /** The matrix of a product is the product of the matrices. */
  lemma RotMatProduct(a: Quat, b: Quat)
    requires Unit(a) && Unit(b)
    ensures RotMat(Hamilton(a, b)) == MulMat(RotMat(a), RotMat(b))
  {
    ColumnsOf(Hamilton(a, b));
    ColumnsOf(b);
    RotateCompose(a, b, E0);
    RotateCompose(a, b, E1);
    RotateCompose(a, b, E2);
    MatrixActs(a, QuatRotate(b, E0));
    MatrixActs(a, QuatRotate(b, E1));
    MatrixActs(a, QuatRotate(b, E2));
  }

  lemma RotMatNeg(q: Quat)
    requires Unit(q)
    ensures RotMat(NegQ(q)) == RotMat(q)
  {
    ColumnsOf(q);
    ColumnsOf(NegQ(q));
    RotateNeg(q, E0);
    RotateNeg(q, E1);
    RotateNeg(q, E2);
  }

  /** `quat_to_mat` raises exactly where normalizing does, and otherwise gives the rotation
      by the normalized quaternion, whatever the norm of the input. */
  lemma QuatToMatSpec(q: Quat, norm: real)
    requires IsSqrt(norm, NormQ(q))
    ensures QuatToMat(q, norm).None? <==> norm < 0.000000000001
    ensures QuatToMat(q, norm).Some? ==>
              var m, n := QuatToMat(q, norm).value, QuatNormalize(q, norm);
              Rotation(m) && n.Some? && forall v :: MulVec(m, v) == QuatRotate(n.value, v)
  {
    NormalizeSpec(q, norm);
    if norm >= 0.000000000001 {
      var n := QuatNormalize(q, norm).value;
      RotMatIsRotation(n);
      forall v ensures MulVec(RotMat(n), v) == QuatRotate(n, v) { MatrixActs(n, v); }
    }
  }
}
