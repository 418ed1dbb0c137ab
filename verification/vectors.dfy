/** Vectors and matrices over exact reals. */
module Vectors {
  datatype V3 = V3(x: real, y: real, z: real)

  function Add(a: V3, b: V3): V3 { V3(a.x + b.x, a.y + b.y, a.z + b.z) }
  function Sub(a: V3, b: V3): V3 { V3(a.x - b.x, a.y - b.y, a.z - b.z) }
  function Neg(a: V3): V3 { V3(-a.x, -a.y, -a.z) }
  function Scale(k: real, a: V3): V3 { V3(k * a.x, k * a.y, k * a.z) }
  function Dot(a: V3, b: V3): real { a.x * b.x + a.y * b.y + a.z * b.z }
  function Cross(a: V3, b: V3): V3 {
    V3(a.y * b.z - a.z * b.y, a.z * b.x - a.x * b.z, a.x * b.y - a.y * b.x)
  }
  function Norm2(a: V3): real { Dot(a, a) }

  /** A 3x3 matrix, by columns. */
  datatype M3 = M3(c0: V3, c1: V3, c2: V3)

  function MulVec(m: M3, v: V3): V3 {
    Add(Add(Scale(v.x, m.c0), Scale(v.y, m.c1)), Scale(v.z, m.c2))
  }
  function MulMat(a: M3, b: M3): M3 { M3(MulVec(a, b.c0), MulVec(a, b.c1), MulVec(a, b.c2)) }
  function Det(m: M3): real { Dot(m.c0, Cross(m.c1, m.c2)) }

  predicate Orthonormal(m: M3) {
    && Norm2(m.c0) == 1.0 && Norm2(m.c1) == 1.0 && Norm2(m.c2) == 1.0
    && Dot(m.c0, m.c1) == 0.0 && Dot(m.c0, m.c2) == 0.0 && Dot(m.c1, m.c2) == 0.0
  }

  predicate Rotation(m: M3) { Orthonormal(m) && Det(m) == 1.0 }

  lemma SubScaled(c: V3, d: real, b: V3, u: V3)
    requires u == Sub(c, Scale(d, b))
    ensures u.x == c.x - d * b.x && u.y == c.y - d * b.y && u.z == c.z - d * b.z
  {}

  lemma CrossZero(z: V3, v: V3)
    requires z == V3(0.0, 0.0, 0.0)
    ensures Cross(z, v) == z
  {}

  lemma ScaleZero(k: real, z: V3)
    requires z == V3(0.0, 0.0, 0.0)
    ensures Scale(k, z) == z
  {}

  lemma AddZero(v: V3, z: V3)
    requires z == V3(0.0, 0.0, 0.0)
    ensures Add(v, z) == v && Add(z, v) == v
  {}

  lemma ScaleOne(k: real, v: V3)
    requires k == 1.0
    ensures Scale(k, v) == v
  {}

  lemma ScaleByZero(k: real, v: V3)
    requires k == 0.0
    ensures Scale(k, v) == V3(0.0, 0.0, 0.0)
  {}

  lemma DotBasis(e: V3, v: V3)
    ensures e == V3(1.0, 0.0, 0.0) ==> Dot(e, v) == v.x
    ensures e == V3(0.0, 1.0, 0.0) ==> Dot(e, v) == v.y
    ensures e == V3(0.0, 0.0, 1.0) ==> Dot(e, v) == v.z
  {}

  lemma CrossBasis(e1: V3, e2: V3)
    requires e1 == V3(0.0, 1.0, 0.0) && e2 == V3(0.0, 0.0, 1.0)
    ensures Cross(e1, e2) == V3(1.0, 0.0, 0.0)
  {}

  lemma MulBasis0(m: M3, e: V3)
    requires e == V3(1.0, 0.0, 0.0)
    ensures MulVec(m, e) == m.c0
  {
    ScaleOne(e.x, m.c0);
    ScaleByZero(e.y, m.c1);
    ScaleByZero(e.z, m.c2);
    AddZero(m.c0, V3(0.0, 0.0, 0.0));
  }

  lemma MulBasis1(m: M3, e: V3)
    requires e == V3(0.0, 1.0, 0.0)
    ensures MulVec(m, e) == m.c1
  {
    ScaleByZero(e.x, m.c0);
    ScaleOne(e.y, m.c1);
    ScaleByZero(e.z, m.c2);
    AddZero(m.c1, V3(0.0, 0.0, 0.0));
  }

  lemma MulBasis2(m: M3, e: V3)
    requires e == V3(0.0, 0.0, 1.0)
    ensures MulVec(m, e) == m.c2
  {
    ScaleByZero(e.x, m.c0);
    ScaleByZero(e.y, m.c1);
    ScaleOne(e.z, m.c2);
    AddZero(m.c2, V3(0.0, 0.0, 0.0));
    AddZero(V3(0.0, 0.0, 0.0), V3(0.0, 0.0, 0.0));
  }

  lemma RotationFromProducts(m: M3)
    requires Dot(m.c0, m.c0) == 1.0 && Dot(m.c1, m.c1) == 1.0 && Dot(m.c2, m.c2) == 1.0
    requires Dot(m.c0, m.c1) == 0.0 && Dot(m.c0, m.c2) == 0.0 && Dot(m.c1, m.c2) == 0.0
    requires Cross(m.c1, m.c2) == m.c0
    ensures Rotation(m)
  {}
}
