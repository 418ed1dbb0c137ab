/** Quaternion primitives: the Hamilton product, normalization with canonical sign,
    and rotation of vectors. */
module Quaternions {
  import opened Basics
  import opened RealAlgebra
  import opened Vectors

  const EPS := 0.000000000001

  datatype Quat = Quat(w: real, x: real, y: real, z: real)

  const ONE := Quat(1.0, 0.0, 0.0, 0.0)

  function NormQ(q: Quat): real { q.w * q.w + q.x * q.x + q.y * q.y + q.z * q.z }
  function Im(q: Quat): V3 { V3(q.x, q.y, q.z) }
  function Pure(v: V3): Quat { Quat(0.0, v.x, v.y, v.z) }

  /** The product before `quat_mul` normalizes it. */
  function Hamilton(a: Quat, b: Quat): Quat {
    Quat(ProductW(a.w, a.x, a.y, a.z, b.w, b.x, b.y, b.z),
         ProductX(a.w, a.x, a.y, a.z, b.w, b.x, b.y, b.z),
         ProductY(a.w, a.x, a.y, a.z, b.w, b.x, b.y, b.z),
         ProductZ(a.w, a.x, a.y, a.z, b.w, b.x, b.y, b.z))
  }

  function ConjQ(q: Quat): Quat { Quat(q.w, -q.x, -q.y, -q.z) }
  function NegQ(q: Quat): Quat { Quat(-q.w, -q.x, -q.y, -q.z) }

  function Canonical(q: Quat): Quat { if q.w < 0.0 then NegQ(q) else q }

  /** `quat_normalize`; `norm` is the norm numpy computes, None the ValueError. */
  function QuatNormalize(q: Quat, norm: real): Option<Quat>
    requires IsSqrt(norm, NormQ(q))
  {
    if norm < EPS then None
    else Some(Canonical(Quat(q.w / norm, q.x / norm, q.y / norm, q.z / norm)))
  }

  function QuatMul(a: Quat, b: Quat, norm: real): Option<Quat>
    requires IsSqrt(norm, NormQ(Hamilton(a, b)))
  {
    QuatNormalize(Hamilton(a, b), norm)
  }

  function QuatConj(q: Quat, norm: real): Option<Quat>
    requires IsSqrt(norm, NormQ(ConjQ(q)))
  {
    QuatNormalize(ConjQ(q), norm)
  }

  function QuatRotate(q: Quat, v: V3): V3 {
    var t := Scale(2.0, Cross(Im(q), v));
    Add(Add(v, Scale(q.w, t)), Cross(Im(q), t))
  }

  predicate Unit(q: Quat) { NormQ(q) == 1.0 }

  /** What `quat_normalize` produces: unit norm, and `w` not negative. */
  predicate Canon(q: Quat) { Unit(q) && q.w >= 0.0 }

  /** The same rotation: equal, or - only possible at w == 0 - opposite. */
  predicate SameOrientation(a: Quat, b: Quat) { a == b || (a.w == 0.0 && a == NegQ(b)) }

  // ------------------------------------------------------------ normalization

  /** `quat_normalize` raises exactly below its threshold; otherwise its result is the
      canonical unit quaternion that scales back to `q`, up to sign. */
  lemma NormalizeSpec(q: Quat, norm: real)
    requires IsSqrt(norm, NormQ(q))
    ensures QuatNormalize(q, norm).None? <==> norm < 0.000000000001
    ensures QuatNormalize(q, norm).Some? ==>
              var n := QuatNormalize(q, norm).value;
              Canon(n) && q == Times(if q.w >= 0.0 then norm else -norm, n)
  {
    if norm >= EPS {
      var u := Quat(q.w / norm, q.x / norm, q.y / norm, q.z / norm);
      QuotientScales(q, norm, u);
      QuotientSign(q.w, norm, u.w);
      UnitAfterScaling(q.w, q.x, q.y, q.z, norm, NormQ(q), u.w, u.x, u.y, u.z, NormQ(u));
      NormNeg(u);
      TimesNeg(norm, u);
    }
  }

  lemma QuotientSign(a: real, n: real, u: real)
    requires n > 0.0 && u * n == a
    ensures u >= 0.0 <==> a >= 0.0
  {
    if u >= 0.0 { NonNegativeProduct(u, n, a); } else { PositiveProduct(-u, n, -a); }
  }

  /** `quat_mul` and `quat_conj` raise exactly below the same threshold, and otherwise give
      the product and the conjugate, normalized. */
  lemma MulAndConj(a: Quat, b: Quat, norm: real, norm': real)
    requires IsSqrt(norm, NormQ(Hamilton(a, b))) && IsSqrt(norm', NormQ(ConjQ(a)))
    ensures QuatMul(a, b, norm).None? <==> norm < 0.000000000001
    ensures QuatConj(a, norm').None? <==> norm' < 0.000000000001
    ensures QuatMul(a, b, norm).Some? ==>
              var n := QuatMul(a, b, norm).value;
              Canon(n) && Hamilton(a, b) == Times(if Hamilton(a, b).w >= 0.0 then norm else -norm, n)
    ensures QuatConj(a, norm').Some? ==>
              var n := QuatConj(a, norm').value;
              Canon(n) && ConjQ(a) == Times(if a.w >= 0.0 then norm' else -norm', n)
  {
    NormalizeSpec(Hamilton(a, b), norm);
    NormalizeSpec(ConjQ(a), norm');
  }

  lemma QuotientScales(q: Quat, n: real, u: Quat)
    requires n != 0.0 && u == Quat(q.w / n, q.x / n, q.y / n, q.z / n)
    ensures u.w * n == q.w && u.x * n == q.x && u.y * n == q.y && u.z * n == q.z
    ensures q == Times(n, u)
  {
    Divide(q.w, n); Divide(q.x, n); Divide(q.y, n); Divide(q.z, n);
    var t := Times(n, u);
    Commute(n, u.w, t.w); Commute(n, u.x, t.x); Commute(n, u.y, t.y); Commute(n, u.z, t.z);
  }

  lemma Commute(a: real, b: real, m: real)
    requires m == a * b
    ensures m == b * a
  {}

  lemma TimesNeg(n: real, u: Quat)
    ensures Times(-n, NegQ(u)) == Times(n, u)
  {
    NegProduct(u.w, n); NegProduct(u.x, n); NegProduct(u.y, n); NegProduct(u.z, n);
  }

  lemma NegProduct(a: real, n: real)
    ensures (-n) * (-a) == n * a
  {}

  function Times(k: real, q: Quat): Quat { Quat(k * q.w, k * q.x, k * q.y, k * q.z) }

  /** On unit quaternions the norm is 1 and only the sign can change. */
  lemma NormalizeUnit(q: Quat, norm: real)
    requires Unit(q) && IsSqrt(norm, NormQ(q))
    ensures norm == 1.0
    ensures QuatNormalize(q, norm) == Some(Canonical(q))
    ensures Canon(Canonical(q))
  {
    SqrtUnique(norm, 1.0);
    NormNeg(q);
  }

  lemma NormNeg(q: Quat)
    ensures NormQ(NegQ(q)) == NormQ(q) && NormQ(ConjQ(q)) == NormQ(q)
  {}

  // ------------------------------------------------------- the Hamilton algebra

  /** `p` is the product of `a` and `b`, component by component. */
  predicate IsProduct(a: Quat, b: Quat, p: Quat) {
    ProductEntries(a.w, a.x, a.y, a.z, b.w, b.x, b.y, b.z, p.w, p.x, p.y, p.z)
  }

  lemma Product(a: Quat, b: Quat)
    ensures IsProduct(a, b, Hamilton(a, b))
  {}

  lemma NormOfProduct(a: Quat, b: Quat, p: Quat)
    requires IsProduct(a, b, p)
    ensures NormQ(p) == NormQ(a) * NormQ(b)
  {
    ProductNorm(a.w, a.x, a.y, a.z, b.w, b.x, b.y, b.z, p.w, p.x, p.y, p.z);
  }

  lemma HamiltonNorm(a: Quat, b: Quat)
    ensures NormQ(Hamilton(a, b)) == NormQ(a) * NormQ(b)
  {
    Product(a, b);
    NormOfProduct(a, b, Hamilton(a, b));
  }

  /** Renaming the axes cyclically is an automorphism. */
  function Cycle(q: Quat): Quat { Quat(q.w, q.y, q.z, q.x) }

  lemma CycleProduct(a: Quat, b: Quat, p: Quat)
    requires IsProduct(a, b, p)
    ensures IsProduct(Cycle(a), Cycle(b), Cycle(p))
  {
    CycleEntriesOfProduct(a.w, a.x, a.y, a.z, b.w, b.x, b.y, b.z, p.w, p.x, p.y, p.z);
  }

  lemma TripleW(a: Quat, b: Quat, c: Quat, p: Quat, r: Quat)
    requires IsProduct(a, b, p) && IsProduct(b, c, r)
    ensures Hamilton(p, c).w == Hamilton(a, r).w
  {
    TripleReal(a.w, a.x, a.y, a.z, b.w, b.x, b.y, b.z, c.w, c.x, c.y, c.z, p.w, p.x, p.y, p.z, r.w, r.x, r.y, r.z);
  }

  lemma TripleX(a: Quat, b: Quat, c: Quat, p: Quat, r: Quat)
    requires IsProduct(a, b, p) && IsProduct(b, c, r)
    ensures Hamilton(p, c).x == Hamilton(a, r).x
  {
    TripleFirst(a.w, a.x, a.y, a.z, b.w, b.x, b.y, b.z, c.w, c.x, c.y, c.z, p.w, p.x, p.y, p.z, r.w, r.x, r.y, r.z);
  }

  lemma AssocRealAndFirst(a: Quat, b: Quat, c: Quat)
    ensures Hamilton(Hamilton(a, b), c).w == Hamilton(a, Hamilton(b, c)).w
    ensures Hamilton(Hamilton(a, b), c).x == Hamilton(a, Hamilton(b, c)).x
  {
    Product(a, b);
    Product(b, c);
    TripleW(a, b, c, Hamilton(a, b), Hamilton(b, c));
    TripleX(a, b, c, Hamilton(a, b), Hamilton(b, c));
  }

  lemma CycleHamilton(a: Quat, b: Quat)
    ensures Hamilton(Cycle(a), Cycle(b)) == Cycle(Hamilton(a, b))
  {
    Product(a, b);
    CycleProduct(a, b, Hamilton(a, b));
    IsProductUnique(Cycle(a), Cycle(b), Cycle(Hamilton(a, b)));
  }

  lemma CycleTriple(a: Quat, b: Quat, c: Quat)
    ensures Hamilton(Hamilton(Cycle(a), Cycle(b)), Cycle(c)) == Cycle(Hamilton(Hamilton(a, b), c))
    ensures Hamilton(Cycle(a), Hamilton(Cycle(b), Cycle(c))) == Cycle(Hamilton(a, Hamilton(b, c)))
  {
    CycleHamilton(a, b);
    CycleHamilton(b, c);
    CycleHamilton(Hamilton(a, b), c);
    CycleHamilton(a, Hamilton(b, c));
  }

  lemma HamiltonAssoc(a: Quat, b: Quat, c: Quat)
    ensures Hamilton(Hamilton(a, b), c) == Hamilton(a, Hamilton(b, c))
  {
    var a', b', c' := Cycle(a), Cycle(b), Cycle(c);
    AssocRealAndFirst(a, b, c);
    AssocRealAndFirst(a', b', c');
    AssocRealAndFirst(Cycle(a'), Cycle(b'), Cycle(c'));
    CycleTriple(a, b, c);
    CycleTriple(a', b', c');
  }

  lemma IsProductUnique(a: Quat, b: Quat, p: Quat)
    requires IsProduct(a, b, p)
    ensures p == Hamilton(a, b)
  {}

  lemma SignsOfProduct(a: Quat, b: Quat, p: Quat)
    requires IsProduct(a, b, p)
    ensures IsProduct(NegQ(a), b, NegQ(p)) && IsProduct(a, NegQ(b), NegQ(p))
    ensures IsProduct(ConjQ(b), ConjQ(a), ConjQ(p))
  {
    NegEntriesLeft(a.w, a.x, a.y, a.z, b.w, b.x, b.y, b.z, p.w, p.x, p.y, p.z);
    NegEntriesRight(a.w, a.x, a.y, a.z, b.w, b.x, b.y, b.z, p.w, p.x, p.y, p.z);
    ConjEntries(a.w, a.x, a.y, a.z, b.w, b.x, b.y, b.z, p.w, p.x, p.y, p.z);
  }

  lemma HamiltonSigns(a: Quat, b: Quat)
    ensures Hamilton(NegQ(a), b) == NegQ(Hamilton(a, b))
    ensures Hamilton(a, NegQ(b)) == NegQ(Hamilton(a, b))
    ensures Hamilton(ConjQ(b), ConjQ(a)) == ConjQ(Hamilton(a, b))
  {
    Product(a, b);
    var p := Hamilton(a, b);
    SignsOfProduct(a, b, p);
    IsProductUnique(NegQ(a), b, NegQ(p));
    IsProductUnique(a, NegQ(b), NegQ(p));
    IsProductUnique(ConjQ(b), ConjQ(a), ConjQ(p));
  }

  lemma UnitsOfProduct(q: Quat)
    ensures IsProduct(q, ConjQ(q), Quat(NormQ(q), 0.0, 0.0, 0.0))
    ensures IsProduct(ConjQ(q), q, Quat(NormQ(q), 0.0, 0.0, 0.0))
    ensures IsProduct(q, ONE, q) && IsProduct(ONE, q, q)
  {}

  lemma HamiltonUnits(q: Quat)
    ensures Hamilton(q, ConjQ(q)) == Quat(NormQ(q), 0.0, 0.0, 0.0) == Hamilton(ConjQ(q), q)
    ensures Hamilton(q, ONE) == q == Hamilton(ONE, q)
  {
    UnitsOfProduct(q);
    var n := Quat(NormQ(q), 0.0, 0.0, 0.0);
    IsProductUnique(q, ConjQ(q), n);
    IsProductUnique(ConjQ(q), q, n);
    IsProductUnique(q, ONE, q);
    IsProductUnique(ONE, q, q);
  }

  // ------------------------------------------------------------------ rotation

  predicate IsTwist(q: Quat, v: V3, t: V3) { TwistEntries(q.x, q.y, q.z, v.x, v.y, v.z, t.x, t.y, t.z) }

  predicate IsRotated(q: Quat, v: V3, t: V3, r: V3) {
    RotatedEntries(q.w, q.x, q.y, q.z, v.x, v.y, v.z, t.x, t.y, t.z, r.x, r.y, r.z)
  }

  lemma TwistOf(u: V3, v: V3, t: V3)
    requires t == Scale(2.0, Cross(u, v))
    ensures TwistEntries(u.x, u.y, u.z, v.x, v.y, v.z, t.x, t.y, t.z)
  {
    var d := Cross(u, v);
    assert t.x == 2.0 * d.x && t.y == 2.0 * d.y && t.z == 2.0 * d.z;
  }

  lemma RotatedOf(w: real, u: V3, v: V3, t: V3, r: V3)
    requires r == Add(Add(v, Scale(w, t)), Cross(u, t))
    ensures RotatedEntries(w, u.x, u.y, u.z, v.x, v.y, v.z, t.x, t.y, t.z, r.x, r.y, r.z)
  {
  }

  lemma Rotated(q: Quat, v: V3) returns (t: V3)
    ensures IsTwist(q, v, t) && IsRotated(q, v, t, QuatRotate(q, v))
  {
    t := Scale(2.0, Cross(Im(q), v));
    TwistOf(Im(q), v, t);
    RotatedOf(q.w, Im(q), v, t, QuatRotate(q, v));
  }

  function CycleV(v: V3): V3 { V3(v.y, v.z, v.x) }

  lemma RotatedFirst(q: Quat, v: Quat, t: V3, p: Quat, r: V3)
    requires Unit(q) && IsTwist(q, Im(v), t) && IsProduct(q, v, p) && IsRotated(q, Im(v), t, r)
    ensures r.x == Hamilton(p, ConjQ(q)).x
  {
    var h := Hamilton(p, ConjQ(q));
    Product(p, ConjQ(q));
    RotatedComponent(q.w, q.x, q.y, q.z, v.w, v.x, v.y, v.z, t.x, t.y, t.z, r.x, r.y, r.z,
                     p.w, p.x, p.y, p.z, h.w, h.x, h.y, h.z);
  }

  lemma RotatedScalar(q: Quat, v: Quat, p: Quat)
    requires Unit(q) && IsProduct(q, v, p)
    ensures Hamilton(p, ConjQ(q)).w == v.w
  {
    var h := Hamilton(p, ConjQ(q));
    Product(p, ConjQ(q));
    RotatedReal(q.w, q.x, q.y, q.z, v.w, v.x, v.y, v.z, p.w, p.x, p.y, p.z, h.w, h.x, h.y, h.z);
  }

  lemma CycleNorm(q: Quat)
    ensures NormQ(Cycle(q)) == NormQ(q)
  {}

  lemma CycleTwist(q: Quat, v: V3, t: V3)
    requires IsTwist(q, v, t)
    ensures IsTwist(Cycle(q), CycleV(v), CycleV(t))
  {
    assert TwistEntries(q.y, q.z, q.x, v.y, v.z, v.x, t.y, t.z, t.x);
  }

  lemma CycleRotated(q: Quat, v: V3, t: V3, r: V3)
    requires IsRotated(q, v, t, r)
    ensures IsRotated(Cycle(q), CycleV(v), CycleV(t), CycleV(r))
  {
    assert RotatedEntries(q.w, q.y, q.z, q.x, v.y, v.z, v.x, t.y, t.z, t.x, r.y, r.z, r.x);
  }

  lemma CycleAll(q: Quat, v: Quat, t: V3, p: Quat, r: V3)
    requires Unit(q) && IsTwist(q, Im(v), t) && IsProduct(q, v, p) && IsRotated(q, Im(v), t, r)
    ensures Unit(Cycle(q)) && IsTwist(Cycle(q), Im(Cycle(v)), CycleV(t)) && IsProduct(Cycle(q), Cycle(v), Cycle(p))
    ensures IsRotated(Cycle(q), Im(Cycle(v)), CycleV(t), CycleV(r))
  {
    CycleNorm(q);
    CycleTwist(q, Im(v), t);
    CycleRotated(q, Im(v), t, r);
    CycleProduct(q, v, p);
  }

  /** Conjugating by a unit quaternion keeps the real part and rotates the rest. */
  lemma Conjugation(q: Quat, v: Quat)
    requires Unit(q)
    ensures var r := QuatRotate(q, Im(v));
      Hamilton(Hamilton(q, v), ConjQ(q)) == Quat(v.w, r.x, r.y, r.z)
  {
    var t := Rotated(q, Im(v));
    Product(q, v);
    var p, r := Hamilton(q, v), QuatRotate(q, Im(v));
    var q', v', t', p', r' := Cycle(q), Cycle(v), CycleV(t), Cycle(p), CycleV(r);
    CycleAll(q, v, t, p, r);
    CycleAll(q', v', t', p', r');
    RotatedScalar(q, v, p);
    RotatedFirst(q, v, t, p, r);
    RotatedFirst(q', v', t', p', r');
    RotatedFirst(Cycle(q'), Cycle(v'), CycleV(t'), Cycle(p'), CycleV(r'));
    CycleHamilton(p, ConjQ(q));
    CycleHamilton(p', ConjQ(q'));
  }

  lemma RotateCompose(a: Quat, b: Quat, v: V3)
    requires Unit(a) && Unit(b)
    ensures Unit(Hamilton(a, b))
    ensures QuatRotate(Hamilton(a, b), v) == QuatRotate(a, QuatRotate(b, v))
  {
    HamiltonNorm(a, b);
    var u, r := Pure(v), Pure(QuatRotate(b, v));
    Conjugation(b, u);
    Conjugation(a, r);
    Conjugation(Hamilton(a, b), u);
    HamiltonSigns(a, b);
    // (ab) u (ab)* == a (b u b*) a*
    HamiltonAssoc(Hamilton(a, b), u, Hamilton(ConjQ(b), ConjQ(a)));
    HamiltonAssoc(Hamilton(Hamilton(a, b), u), ConjQ(b), ConjQ(a));
    HamiltonAssoc(a, b, u);
    HamiltonAssoc(a, Hamilton(b, u), ConjQ(b));
  }

  lemma DoubleNeg(q: Quat, v: Quat)
    ensures Hamilton(Hamilton(NegQ(q), v), ConjQ(NegQ(q))) == Hamilton(Hamilton(q, v), ConjQ(q))
  {
    var p, c := Hamilton(q, v), ConjQ(q);
    HamiltonSigns(q, v);
    HamiltonSigns(NegQ(p), c);
    HamiltonSigns(p, c);
    assert ConjQ(NegQ(q)) == NegQ(c);
    assert NegQ(NegQ(Hamilton(p, c))) == Hamilton(p, c);
  }

  lemma RotateNeg(q: Quat, v: V3)
    requires Unit(q)
    ensures QuatRotate(NegQ(q), v) == QuatRotate(q, v)
  {
    NormNeg(q);
    Conjugation(q, Pure(v));
    Conjugation(NegQ(q), Pure(v));
    DoubleNeg(q, Pure(v));
    assert Im(Pure(v)) == v;
  }

  lemma RotateByOne(v: V3)
    ensures QuatRotate(ONE, v) == v
  {
    var z := Im(ONE);
    CrossZero(z, v);
    CrossZero(z, z);
    ScaleZero(2.0, z);
    ScaleZero(ONE.w, z);
    AddZero(v, z);
  }

  lemma RotateInverse(q: Quat, v: V3)
    requires Unit(q)
    ensures QuatRotate(ConjQ(q), QuatRotate(q, v)) == v == QuatRotate(q, QuatRotate(ConjQ(q), v))
  {
    NormNeg(q);
    RotateCompose(ConjQ(q), q, v);
    RotateCompose(q, ConjQ(q), v);
    HamiltonUnits(q);
    RotateByOne(v);
  }

  lemma PureProduct(u: V3, v: V3)
    ensures IsProduct(Pure(u), Pure(v), Quat(-Dot(u, v), Cross(u, v).x, Cross(u, v).y, Cross(u, v).z))
  {}

  /** Rotation preserves dot products and cross products. */
  lemma RotatePreserves(q: Quat, u: V3, v: V3)
    requires Unit(q)
    ensures Dot(QuatRotate(q, u), QuatRotate(q, v)) == Dot(u, v)
    ensures Cross(QuatRotate(q, u), QuatRotate(q, v)) == QuatRotate(q, Cross(u, v))
  {
    var a, b, c := Pure(u), Pure(v), ConjQ(q);
    var ru, rv := QuatRotate(q, u), QuatRotate(q, v);
    PureProduct(u, v);
    PureProduct(ru, rv);
    var ab := Quat(-Dot(u, v), Cross(u, v).x, Cross(u, v).y, Cross(u, v).z);
    var rr := Quat(-Dot(ru, rv), Cross(ru, rv).x, Cross(ru, rv).y, Cross(ru, rv).z);
    IsProductUnique(a, b, ab);
    IsProductUnique(Pure(ru), Pure(rv), rr);
    Conjugation(q, a);
    Conjugation(q, b);
    Conjugation(q, ab);
    ConjugateProduct(q, a, b);
  }

  /** `(q a q*) (q b q*) == q (a b) q*`. */
  lemma ConjugateProduct(q: Quat, a: Quat, b: Quat)
    requires Unit(q)
    ensures Hamilton(Hamilton(Hamilton(q, a), ConjQ(q)), Hamilton(Hamilton(q, b), ConjQ(q)))
         == Hamilton(Hamilton(q, Hamilton(a, b)), ConjQ(q))
  {
    var c := ConjQ(q);
    var qa, qb := Hamilton(q, a), Hamilton(q, b);
    HamiltonAssoc(Hamilton(qa, c), qb, c);
    HamiltonAssoc(qa, c, qb);
    HamiltonAssoc(c, q, b);
    HamiltonUnits(q);
    HamiltonUnits(b);
    HamiltonAssoc(q, a, b);
  }
}
