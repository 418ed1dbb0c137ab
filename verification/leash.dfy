/** The position half of `clamp_pose_to_leash`: projection onto a ball. */
module Leash {
  import opened RealAlgebra
  import opened Vectors
  import opened Quaternions

  function Dist2(a: V3, b: V3): real { Norm2(Sub(a, b)) }

  /** `dist` is the distance the program computes between target and anchor. */
  function ClampPosition(target: V3, anchor: V3, maxPos: real, dist: real): V3
    requires IsSqrt(dist, Dist2(target, anchor))
  {
    if dist > maxPos && dist > EPS
    then Add(anchor, Scale(maxPos / dist, Sub(target, anchor)))
    else target
  }

  predicate Clamps(maxPos: real, dist: real) { dist > maxPos && dist > EPS }

  lemma SubAdd(a: V3, d: V3)
    ensures Sub(Add(a, d), a) == d
  {}

  lemma ScaledNorm2(k: real, u: V3, n: real)
    requires n == Norm2(u)
    ensures Norm2(Scale(k, u)) == (k * k) * n
  {
    var w := Scale(k, u);
    NormOfScaled(u.x, u.y, u.z, w.x, w.y, w.z, k, n);
  }

  lemma RatioSquared(r: real, d: real, k: real)
    requires d > 0.0 && k * d == r
    ensures (k * k) * (d * d) == r * r
  {
    SquareOfProduct(k, d, r);
  }

  /** A clamped position lies exactly at distance |maxPos| from the anchor. */
  lemma ClampedDistance(target: V3, anchor: V3, maxPos: real, dist: real)
    requires IsSqrt(dist, Dist2(target, anchor)) && Clamps(maxPos, dist)
    ensures Dist2(ClampPosition(target, anchor, maxPos, dist), anchor) == maxPos * maxPos
  {
    var k, u := maxPos / dist, Sub(target, anchor);
    Divide(maxPos, dist);
    SubAdd(anchor, Scale(k, u));
    ScaledNorm2(k, u, dist * dist);
    RatioSquared(maxPos, dist, k);
  }

  lemma SquareMonotone(a: real, b: real)
    requires a >= 0.0 && b >= 0.0
    ensures a <= b <==> a * a <= b * b
  {
    if a <= b {
      NonNegativeProduct(b - a, b + a, b * b - a * a);
    } else {
      PositiveProduct(a - b, a + b, a * a - b * b);
    }
  }

  /** The result is within `maxPos` of the anchor exactly when `maxPos` is not negative
      and the target was inside, or far enough from the anchor to be scaled. */
  lemma BoundExactly(target: V3, anchor: V3, maxPos: real, dist: real)
    requires IsSqrt(dist, Dist2(target, anchor))
    ensures (maxPos >= 0.0 && Dist2(ClampPosition(target, anchor, maxPos, dist), anchor) <= maxPos * maxPos)
       <==> (maxPos >= 0.0 && (dist <= maxPos || dist > 0.000000000001))
  {
    if Clamps(maxPos, dist) {
      ClampedDistance(target, anchor, maxPos, dist);
    } else if maxPos >= 0.0 {
      SquareMonotone(dist, maxPos);
    }
  }

  lemma Cauchy(u: V3, v: V3, d: real, r: real)
    requires d >= 0.0 && r >= 0.0 && d * d == Norm2(u) && Norm2(v) <= r * r
    ensures Dot(u, v) <= d * r
  {
    var c := Cross(u, v);
    Lagrange(u.x, u.y, u.z, v.x, v.y, v.z, c.x, c.y, c.z);
    SumOfSquares(c.x, c.y, c.z);
    CauchyScalar(Dot(u, v), Norm2(u), Norm2(v), d, r, Norm2(c));
  }

  lemma RestOf(u: V3, k: real, s: V3)
    requires s == Sub(u, Scale(k, u))
    ensures s == Scale(1.0 - k, u)
  {
    SubScaled(u, k, u, s);
    RestAxis(u.x, k, s.x);
    RestAxis(u.y, k, s.y);
    RestAxis(u.z, k, s.z);
  }

  lemma RestAxis(u: real, k: real, s: real)
    requires s == u - k * u
    ensures s == (1.0 - k) * u
  {}

  lemma DotScaled(u: V3, s: V3, t: V3, c: real, ut: real)
    requires s == Scale(c, u) && ut == Dot(u, t)
    ensures Dot(s, t) == c * ut
  {
    ScaledDot(t.x, t.y, t.z, u.x, u.y, u.z, s.x, s.y, s.z, c);
  }

  lemma RestDot(u: V3, k: real, s: V3, t: V3, ut: real)
    requires s == Sub(u, Scale(k, u)) && ut == Dot(u, t)
    ensures Dot(s, t) == (1.0 - k) * ut
  {
    RestOf(u, k, s);
    DotScaled(u, s, t, 1.0 - k, ut);
  }

  lemma DotRest(u: V3, v: V3, k: real, t: V3, uv: real, n: real, ut: real)
    requires t == Sub(v, Scale(k, u)) && uv == Dot(u, v) && n == Norm2(u) && ut == Dot(u, t)
    ensures ut == uv - k * n
  {
    SubScaled(v, k, u, t);
    ResidualDot(u.x, u.y, u.z, v.x, v.y, v.z, t.x, t.y, t.z, k, n, uv);
  }

  lemma CutOffVectors(u: V3, v: V3, k: real, d: real, r: real, s: V3, t: V3)
    requires d > r >= 0.0 && k * d == r && d * d == Norm2(u) && Dot(u, v) <= d * r
    requires s == Sub(u, Scale(k, u)) && t == Sub(v, Scale(k, u))
    ensures Dot(s, t) <= 0.0
  {
    DotRest(u, v, k, t, Dot(u, v), Norm2(u), Dot(u, t));
    RestDot(u, k, s, t, Dot(u, t));
    CutOffSign(k, d, r, Dot(u, v), Norm2(u), Dot(u, t), Dot(s, t));
  }

  lemma CutOffAngle(u: V3, v: V3, k: real, d: real, r: real, s: V3, t: V3)
    requires d > r >= 0.0 && k * d == r && d * d == Norm2(u) && Norm2(v) <= r * r
    requires s == Sub(u, Scale(k, u)) && t == Sub(v, Scale(k, u))
    ensures Dot(s, t) <= 0.0
  {
    Cauchy(u, v, d, r);
    CutOffVectors(u, v, k, d, r, s, t);
  }

  lemma VariationalClamped(x: V3, a: V3, r: real, dist: real, z: V3, k: real, p: V3)
    requires dist > r >= 0.0 && dist * dist == Dist2(x, a) && Dist2(z, a) <= r * r
    requires k * dist == r && p == Add(a, Scale(k, Sub(x, a)))
    ensures Dot(Sub(x, p), Sub(z, p)) <= 0.0
  {
    CutOff(x, a, k, p, z);
    CutOffAngle(Sub(x, a), Sub(z, a), k, dist, r, Sub(x, p), Sub(z, p));
  }

  /** The angle between what was cut off and any point of the ball is not acute. */
  lemma Variational(x: V3, a: V3, r: real, dist: real, z: V3)
    requires IsSqrt(dist, Dist2(x, a)) && r >= 0.0 && Dist2(z, a) <= r * r
    ensures var p := ClampPosition(x, a, r, dist); Dot(Sub(x, p), Sub(z, p)) <= 0.0
  {
    var p := ClampPosition(x, a, r, dist);
    if Clamps(r, dist) {
      Divide(r, dist);
      VariationalClamped(x, a, r, dist, z, r / dist, p);
    } else {
      DotSelfZero(Sub(x, p), Sub(z, p));
    }
  }

  lemma DotSelfZero(z: V3, v: V3)
    requires z == V3(0.0, 0.0, 0.0)
    ensures Dot(z, v) == 0.0
  {}

  lemma CutOff(x: V3, a: V3, k: real, p: V3, z: V3)
    requires p == Add(a, Scale(k, Sub(x, a)))
    ensures Sub(x, p) == Sub(Sub(x, a), Scale(k, Sub(x, a)))
    ensures Sub(z, p) == Sub(Sub(z, a), Scale(k, Sub(x, a)))
  {}

  /** No point of the ball is closer to the target than the result. */
  lemma NearestPoint(x: V3, a: V3, r: real, dist: real, z: V3)
    requires IsSqrt(dist, Dist2(x, a)) && r >= 0.0 && Dist2(z, a) <= r * r
    ensures Dist2(x, ClampPosition(x, a, r, dist)) <= Dist2(x, z)
  {
    var p := ClampPosition(x, a, r, dist);
    Variational(x, a, r, dist, z);
    ObtuseFarther(Sub(x, p), Sub(z, p));
    SubSub(x, z, p);
  }

  lemma ObtuseFarther(s: V3, t: V3)
    requires Dot(s, t) <= 0.0
    ensures Norm2(s) <= Norm2(Sub(s, t))
  {
    DifferenceSquares(s.x, s.y, s.z, t.x, t.y, t.z);
    SumOfSquares(t.x, t.y, t.z);
  }

  lemma SubSub(x: V3, z: V3, p: V3)
    ensures Sub(x, z) == Sub(Sub(x, p), Sub(z, p))
  {}

  /** Clamping twice is clamping once. */
  lemma ClampIdempotent(x: V3, a: V3, r: real, dist: real, dist': real)
    requires IsSqrt(dist, Dist2(x, a)) && r >= 0.0
    requires IsSqrt(dist', Dist2(ClampPosition(x, a, r, dist), a))
    ensures ClampPosition(ClampPosition(x, a, r, dist), a, r, dist') == ClampPosition(x, a, r, dist)
  {
    if Clamps(r, dist) {
      ClampedDistance(x, a, r, dist);
      SqrtUnique(dist', r);
    } else {
      SqrtUnique(dist', dist);
    }
  }

  lemma ScaleMinus(k: real, d: V3)
    requires k == -1.0
    ensures Scale(k, d) == Neg(d)
  {
    MinusTimes(k, d.x);
    MinusTimes(k, d.y);
    MinusTimes(k, d.z);
  }

  lemma MinusTimes(k: real, x: real)
    requires k == -1.0
    ensures k * x == -x
  {}

  lemma Mirrored(p: V3, a: V3, d: V3)
    requires d == Sub(p, a) && p == Add(a, Neg(d))
    ensures d == V3(0.0, 0.0, 0.0)
  {}

  /** From |r| away on the wrong side, clamping to r < 0 goes to the opposite point. */
  lemma SwapsSides(p: V3, a: V3, r: real, dist: real)
    requires IsSqrt(dist, Dist2(p, a)) && dist == -r && r < -EPS
    ensures ClampPosition(p, a, r, dist) == Add(a, Neg(Sub(p, a)))
  {
    RealAlgebra.Quotient(r, dist, -1.0);
    ScaleMinus(r / dist, Sub(p, a));
  }

  /** A negative leash longer than the threshold throws the target back and forth. */
  lemma NegativeLeashSwaps(x: V3, a: V3, r: real, dist: real, dist': real)
    requires IsSqrt(dist, Dist2(x, a)) && dist > EPS && r < -EPS
    requires IsSqrt(dist', Dist2(ClampPosition(x, a, r, dist), a))
    ensures ClampPosition(ClampPosition(x, a, r, dist), a, r, dist') != ClampPosition(x, a, r, dist)
  {
    var p := ClampPosition(x, a, r, dist);
    ClampedDistance(x, a, r, dist);
    SqrtUnique(dist', -r);
    SwapsSides(p, a, r, dist');
    if ClampPosition(p, a, r, dist') == p {
      Mirrored(p, a, Sub(p, a));
      DotSelfZero(Sub(p, a), Sub(p, a));
      ZeroProduct(r, r);
    }
  }

  lemma SmallNegativeLeash(x: V3, a: V3, r: real, dist: real, dist': real)
    requires IsSqrt(dist, Dist2(x, a)) && -EPS <= r < 0.0
    requires IsSqrt(dist', Dist2(ClampPosition(x, a, r, dist), a))
    ensures ClampPosition(ClampPosition(x, a, r, dist), a, r, dist') == ClampPosition(x, a, r, dist)
  {
    if Clamps(r, dist) {
      ClampedDistance(x, a, r, dist);
      SqrtUnique(dist', -r);
    } else {
      SqrtUnique(dist', dist);
    }
  }

  /** Clamping is idempotent exactly when the leash is not negative beyond the threshold,
      or the target is within the threshold of the anchor. */
  lemma IdempotentExactly(x: V3, a: V3, r: real, dist: real, dist': real)
    requires IsSqrt(dist, Dist2(x, a))
    requires IsSqrt(dist', Dist2(ClampPosition(x, a, r, dist), a))
    ensures ClampPosition(ClampPosition(x, a, r, dist), a, r, dist') == ClampPosition(x, a, r, dist)
       <==> r >= -0.000000000001 || dist <= 0.000000000001
  {
    if r >= 0.0 {
      ClampIdempotent(x, a, r, dist, dist');
    } else if r >= -EPS {
      SmallNegativeLeash(x, a, r, dist, dist');
    } else if dist > EPS {
      NegativeLeashSwaps(x, a, r, dist, dist');
    } else {
      SqrtUnique(dist', dist);
    }
  }

  /** An input for every such leash: a target as far away as the leash is negative goes to
      the opposite point, and from there back. */
  lemma NegativeLeashFails(r: real) returns (x: V3, a: V3, dist: real, dist': real)
    requires r < -0.000000000001
    ensures IsSqrt(dist, Dist2(x, a)) && IsSqrt(dist', Dist2(ClampPosition(x, a, r, dist), a))
    ensures ClampPosition(ClampPosition(x, a, r, dist), a, r, dist') != ClampPosition(x, a, r, dist)
  {
    dist, dist' := -r, -r;
    x, a := V3(-r, 0.0, 0.0), V3(0.0, 0.0, 0.0);
    AxisRoot(dist, x, a);
    ClampedDistance(x, a, r, dist);
    IdempotentExactly(x, a, r, dist, dist');
  }

  /** The target is left alone exactly when no scaling takes place. */
  lemma UnchangedExactly(x: V3, a: V3, r: real, dist: real)
    requires IsSqrt(dist, Dist2(x, a))
    ensures ClampPosition(x, a, r, dist) == x <==> dist <= r || dist <= 0.000000000001
  {}

  /** With a leash of at least 1e-12, two targets never end up further apart. */
  lemma NonExpansive(x: V3, y: V3, a: V3, r: real, dx: real, dy: real)
    requires IsSqrt(dx, Dist2(x, a)) && IsSqrt(dy, Dist2(y, a)) && r >= 0.000000000001
    ensures Closer(x, y, a, r, dx, dy)
  {
    var p, q := ClampPosition(x, a, r, dx), ClampPosition(y, a, r, dy);
    BoundExactly(x, a, r, dx);
    BoundExactly(y, a, r, dy);
    Variational(x, a, r, dx, q);
    Variational(y, a, r, dy, p);
    Spread(x, y, p, q);
  }

  lemma Spread(x: V3, y: V3, p: V3, q: V3)
    requires Dot(Sub(x, p), Sub(q, p)) <= 0.0 && Dot(Sub(y, q), Sub(p, q)) <= 0.0
    ensures Dist2(p, q) <= Dist2(x, y)
  {
    var s, t, c := Sub(x, p), Sub(y, q), Sub(p, q);
    FlipDot(s, Sub(q, p), c);
    var e := Sub(s, t);
    SumSquares(e, c);
    DotSub(s, t, c);
    SumOfSquares(e.x, e.y, e.z);
    assert Sub(x, y) == Add(e, c);
  }

  lemma FlipDot(s: V3, d: V3, c: V3)
    requires d.x == -c.x && d.y == -c.y && d.z == -c.z
    ensures Dot(s, d) == -Dot(s, c)
  {}

  lemma DotSub(s: V3, t: V3, c: V3)
    ensures Dot(Sub(s, t), c) == Dot(s, c) - Dot(t, c)
  {}

  lemma SumSquares(e: V3, c: V3)
    ensures Norm2(Add(e, c)) == Norm2(e) + Norm2(c) + 2.0 * Dot(e, c)
  {}

  lemma OnAxis(t: real, p: V3, z: V3, n: real)
    requires p == V3(t, 0.0, 0.0) && z == V3(0.0, 0.0, 0.0) && n == t * t
    ensures Norm2(Sub(p, z)) == n
  {}

  lemma AxisDifference(s: real, t: real, p: V3, q: V3, n: real)
    requires p == V3(s, 0.0, 0.0) && q == V3(t, 0.0, 0.0) && n == (s - t) * (s - t)
    ensures Dist2(p, q) == n
  {}

  lemma AxisClamp(d: real, r: real, x: V3, a: V3)
    requires d > EPS && d > r && x == V3(d, 0.0, 0.0) && a == V3(0.0, 0.0, 0.0) && IsSqrt(d, Dist2(x, a))
    ensures ClampPosition(x, a, r, d) == V3(r, 0.0, 0.0)
  {
    Divide(r, d);
    AxisScale(r / d, d, r, x, a);
  }

  lemma AxisScale(k: real, d: real, r: real, x: V3, a: V3)
    requires x == V3(d, 0.0, 0.0) && a == V3(0.0, 0.0, 0.0) && k * d == r
    ensures Add(a, Scale(k, Sub(x, a))) == V3(r, 0.0, 0.0)
  {}

  /** Any shorter leash, negative ones included, does not have that property: a target
      1e-12 away is left alone while one slightly further out is pulled in. */
  lemma ShortLeashExpands(r: real) returns (x: V3, y: V3, a: V3, dx: real, dy: real)
    requires r < 0.000000000001
    ensures IsSqrt(dx, Dist2(x, a)) && IsSqrt(dy, Dist2(y, a)) && !Closer(x, y, a, r, dx, dy)
  {
    var gap := (EPS - r) / 2.0;
    dx, dy := EPS, EPS + gap;
    GapSquared(dx, dy, r, gap);
    x, y, a := AxisPoints(dx, dy, r);
    NotCloser(x, y, a, r, dx, dy);
  }

  /** Anchor and targets on one line, at distances `dx` and `dy`. */
  lemma AxisPoints(dx: real, dy: real, r: real) returns (x: V3, y: V3, a: V3)
    requires dx >= 0.0 && dy > EPS && dy > r
    ensures IsSqrt(dx, Dist2(x, a)) && IsSqrt(dy, Dist2(y, a))
    ensures Dist2(x, ClampPosition(y, a, r, dy)) == (dx - r) * (dx - r)
    ensures Dist2(x, y) == (dx - dy) * (dx - dy)
  {
    a, x, y := V3(0.0, 0.0, 0.0), V3(dx, 0.0, 0.0), V3(dy, 0.0, 0.0);
    AxisRoot(dx, x, a);
    AxisRoot(dy, y, a);
    AxisClamp(dy, r, y, a);
    AxisDifference(dx, dy, x, y, (dx - dy) * (dx - dy));
    AxisDifference(dx, r, x, V3(r, 0.0, 0.0), (dx - r) * (dx - r));
  }

  lemma NotCloser(x: V3, y: V3, a: V3, r: real, dx: real, dy: real)
    requires IsSqrt(dx, Dist2(x, a)) && IsSqrt(dy, Dist2(y, a)) && dx <= EPS
    requires Dist2(x, ClampPosition(y, a, r, dy)) > Dist2(x, y)
    ensures !Closer(x, y, a, r, dx, dy)
  {
    assert ClampPosition(x, a, r, dx) == x;
  }

  lemma AxisRoot(d: real, x: V3, a: V3)
    requires d >= 0.0 && x == V3(d, 0.0, 0.0) && a == V3(0.0, 0.0, 0.0)
    ensures IsSqrt(d, Dist2(x, a))
  {
    OnAxis(d, x, a, d * d);
  }

  predicate Closer(x: V3, y: V3, a: V3, r: real, dx: real, dy: real)
    requires IsSqrt(dx, Dist2(x, a)) && IsSqrt(dy, Dist2(y, a))
  {
    Dist2(ClampPosition(x, a, r, dx), ClampPosition(y, a, r, dy)) <= Dist2(x, y)
  }

  /** So the leash brings no two targets further apart exactly from that length on. */
  lemma NonExpansiveExactly(r: real)
    ensures (forall x, y, a, dx, dy :: IsSqrt(dx, Dist2(x, a)) && IsSqrt(dy, Dist2(y, a)) ==> Closer(x, y, a, r, dx, dy))
       <==> r >= 0.000000000001
  {
    if r >= EPS {
      forall x, y, a, dx, dy | IsSqrt(dx, Dist2(x, a)) && IsSqrt(dy, Dist2(y, a)) ensures Closer(x, y, a, r, dx, dy) {
        NonExpansive(x, y, a, r, dx, dy);
      }
    } else {
      var x, y, a, dx, dy := ShortLeashExpands(r);
    }
  }

  lemma GapSquared(dx: real, dy: real, r: real, gap: real)
    requires dy == dx + gap && dx == r + 2.0 * gap && gap > 0.0
    ensures (dx - r) * (dx - r) > (dx - dy) * (dx - dy)
  {
    PositiveProduct(gap, gap, gap * gap);
  }
}
