/**
 * The engine arithmetic the gravity system is written against: 3- and
 * 2-vectors over the reals, Unity's `Mathf` helpers, and the
 * square-root-based operations `magnitude`, `normalized`, `Distance` and
 * `ClampMagnitude`.
 *
 * Real square roots have no closed form in Dafny, so every operation that
 * measures a vector takes the engine's square root as a parameter `sqrt`;
 * the facts proved about them hold for any `sqrt` satisfying `IsSqrt`.
 */
module Maths {

  datatype Vec3 = Vec3(x: real, y: real, z: real)

  datatype Vec2 = Vec2(x: real, y: real)

  const Zero: Vec3 := Vec3(0.0, 0.0, 0.0)

  const Zero2: Vec2 := Vec2(0.0, 0.0)

  function Add(a: Vec3, b: Vec3): Vec3 { Vec3(a.x + b.x, a.y + b.y, a.z + b.z) }

  function Sub(a: Vec3, b: Vec3): Vec3 { Vec3(a.x - b.x, a.y - b.y, a.z - b.z) }

  function Neg(a: Vec3): Vec3 { Vec3(-a.x, -a.y, -a.z) }

  function Scale(a: Vec3, k: real): Vec3 { Vec3(a.x * k, a.y * k, a.z * k) }

  /** `Vector3 / float`, component by component. */
  function Div(a: Vec3, d: real): Vec3
    requires d != 0.0
  {
    Vec3(a.x / d, a.y / d, a.z / d)
  }

  /**
   * The identity on reals. A product whose two factors are the same term is
   * written `r * Id(r)`: the solver then treats it as an ordinary product of
   * two terms instead of as a power, which it reasons about poorly.
   */
  function Id(r: real): real { r }

  /** `r * r` */
  function Sq(r: real): real { r * Id(r) }

  function Dot(a: Vec3, b: Vec3): real { a.x * Id(b.x) + a.y * Id(b.y) + a.z * Id(b.z) }

  /** The engine's square root is any function with these two properties. */
  ghost predicate IsSqrt(sqrt: real -> real)
  {
    forall x :: 0.0 <= x ==> 0.0 <= sqrt(x) && Sq(sqrt(x)) == x
  }

  /** `Vector3.magnitude` */
  function Magnitude(sqrt: real -> real, v: Vec3): real
  {
    sqrt(Dot(v, v))
  }

  /** `Vector3.normalized`: the zero vector normalizes to zero. */
  function Normalized(sqrt: real -> real, v: Vec3): Vec3
  {
    var m := Magnitude(sqrt, v);
    if m > 0.0 then Scale(v, 1.0 / m) else Zero
  }

  /** `Vector3.Distance` */
  function Distance(sqrt: real -> real, a: Vec3, b: Vec3): real
  {
    Magnitude(sqrt, Sub(a, b))
  }

  function SqrDistance(a: Vec3, b: Vec3): real
  {
    Dot(Sub(a, b), Sub(a, b))
  }

  /** `Vector3.ClampMagnitude`: shortens `v` to length `maxLength` when it is longer. */
  function ClampMagnitude(sqrt: real -> real, v: Vec3, maxLength: real): Vec3
  {
    if Dot(v, v) > Sq(maxLength) then
      var m := Magnitude(sqrt, v);
      if m > 0.0 then Scale(v, maxLength / m) else Zero
    else v
  }

  function Dot2(a: Vec2, b: Vec2): real { a.x * Id(b.x) + a.y * Id(b.y) }

  /** `Vector2.magnitude` */
  function Magnitude2(sqrt: real -> real, v: Vec2): real
  {
    sqrt(Dot2(v, v))
  }

  /** `Vector2.Normalize()`: the zero vector stays zero. */
  function Normalized2(sqrt: real -> real, v: Vec2): Vec2
  {
    var m := Magnitude2(sqrt, v);
    if m > 0.0 then Vec2(v.x / m, v.y / m) else Zero2
  }

  /** `Mathf.Clamp`: the lower bound is tested first. */
  function Clamp(value: real, min: real, max: real): (r: real)
    ensures min <= max ==> min <= r <= max
    ensures min <= value <= max ==> r == value
    ensures value < min ==> r == min
    ensures min <= max && max < value ==> r == max
  {
    if value < min then min else if value > max then max else value
  }

  /** `Mathf.Clamp01` */
  function Clamp01(value: real): (r: real)
    ensures 0.0 <= r <= 1.0
    ensures 0.0 <= value <= 1.0 ==> r == value
    ensures value < 0.0 ==> r == 0.0
    ensures 1.0 < value ==> r == 1.0
  {
    Clamp(value, 0.0, 1.0)
  }

  /** `Mathf.Lerp`: the interpolation parameter is clamped to [0, 1]. */
  function Lerp(a: real, b: real, t: real): (r: real)
    ensures a <= b ==> a <= r <= b
    ensures b <= a ==> b <= r <= a
    ensures t <= 0.0 ==> r == a
    ensures 1.0 <= t ==> r == b
  {
    LerpUnclampedBounds(a, b, Clamp01(t));
    LerpUnclamped(a, b, Clamp01(t))
  }

  /** `Mathf.LerpUnclamped`: `a` plus the fraction `s` of the way to `b`. */
  function LerpUnclamped(a: real, b: real, s: real): real
  {
    a + (b - a) * s
  }

  lemma LerpUnclampedBounds(a: real, b: real, s: real)
    requires 0.0 <= s <= 1.0
    ensures a <= b ==> a <= LerpUnclamped(a, b, s) <= b
    ensures b <= a ==> b <= LerpUnclamped(a, b, s) <= a
    ensures s == 0.0 ==> LerpUnclamped(a, b, s) == a
    ensures s == 1.0 ==> LerpUnclamped(a, b, s) == b
  {
    var d := b - a;
    assert d * s + d * (1.0 - s) == d;
    if a <= b {
      MulNonNeg(d, s);
      MulNonNeg(d, 1.0 - s);
    } else {
      MulNonNeg(-d, s);
      MulNonNeg(-d, 1.0 - s);
      assert -d * s == -(d * s);
      assert -d * (1.0 - s) == -(d * (1.0 - s));
    }
  }

  function Min(a: real, b: real): real { if a < b then a else b }

  function Abs(a: real): real { if a < 0.0 then -a else a }

  // ---------------------------------------------------------------------
  // Real arithmetic the vector facts are built from.
  // ---------------------------------------------------------------------

  lemma MulPos(a: real, b: real)
    requires 0.0 < a && 0.0 < b
    ensures 0.0 < a * b
  {}

  lemma MulNonNeg(a: real, b: real)
    requires 0.0 <= a && 0.0 <= b
    ensures 0.0 <= a * b
  {}

  lemma SqSign(a: real)
    ensures 0.0 <= Sq(a)
    ensures a != 0.0 ==> 0.0 < Sq(a)
  {
    if 0.0 < a { MulPos(a, a); } else if a < 0.0 { MulPos(-a, -a); }
  }

  /** Squaring is strictly increasing on the non-negative reals. */
  lemma SqStrictMono(a: real, b: real)
    requires 0.0 <= a < b
    ensures Sq(a) < Sq(b)
  {
    MulNonNeg(a, b - a);
    MulPos(b, b - a);
  }

  // ---------------------------------------------------------------------
  // Facts about the square root and the operations built on it.
  // ---------------------------------------------------------------------

  lemma ZeroIff(v: Vec3)
    ensures v == Zero <==> v.x == 0.0 && v.y == 0.0 && v.z == 0.0
  {}

  lemma SubZero(a: Vec3, b: Vec3)
    ensures Sub(a, b) == Zero <==> a == b
  {}

  lemma DotSelfNonNegative(v: Vec3)
    ensures 0.0 <= Dot(v, v)
    ensures Dot(v, v) == 0.0 <==> v == Zero
  {
    SqSign(v.x);
    SqSign(v.y);
    SqSign(v.z);
  }

  /** A square root is determined by its square. */
  lemma SqrtUnique(sqrt: real -> real, x: real, r: real)
    requires IsSqrt(sqrt)
    requires 0.0 <= r && Sq(r) == x
    ensures sqrt(x) == r
  {
    SqSign(r);
    var s := sqrt(x);
    assert 0.0 <= s && Sq(s) == x;
    if s < r {
      SqStrictMono(s, r);
    } else if r < s {
      SqStrictMono(r, s);
    }
  }

  lemma SqrtMonotone(sqrt: real -> real, x: real, y: real)
    requires IsSqrt(sqrt)
    requires 0.0 <= x && 0.0 <= y
    ensures x <= y <==> sqrt(x) <= sqrt(y)
    ensures x < y <==> sqrt(x) < sqrt(y)
  {
    var a, b := sqrt(x), sqrt(y);
    assert 0.0 <= a && Sq(a) == x;
    assert 0.0 <= b && Sq(b) == y;
    if a < b {
      SqStrictMono(a, b);
    } else if b < a {
      SqStrictMono(b, a);
    }
  }

  lemma SqrtFacts(sqrt: real -> real, x: real)
    requires IsSqrt(sqrt)
    requires 0.0 <= x
    ensures 0.0 <= sqrt(x) && Sq(sqrt(x)) == x
    ensures sqrt(x) == 0.0 <==> x == 0.0
  {
    SqSign(sqrt(x));
  }

  lemma MagnitudeFacts(sqrt: real -> real, v: Vec3)
    requires IsSqrt(sqrt)
    ensures 0.0 <= Magnitude(sqrt, v)
    ensures Sq(Magnitude(sqrt, v)) == Dot(v, v)
    ensures Magnitude(sqrt, v) == 0.0 <==> v == Zero
  {
    DotSelfNonNegative(v);
    SqrtFacts(sqrt, Dot(v, v));
  }

  lemma DotScaleBoth(v: Vec3, k: real)
    ensures Dot(Scale(v, k), Scale(v, k)) == Sq(k) * Dot(v, v)
  {}

  lemma SqMul(a: real, b: real)
    ensures Sq(a * b) == Sq(a) * Sq(b)
  {}

  lemma SqAbs(a: real)
    ensures Sq(Abs(a)) == Sq(a)
  {}

  /** The square root of `k² · d` is `|k| · √d`. */
  lemma SqrtScale(sqrt: real -> real, d: real, k: real, e: real)
    requires IsSqrt(sqrt)
    requires 0.0 <= d && e == Sq(k) * d
    ensures sqrt(e) == Abs(k) * sqrt(d)
  {
    var m := sqrt(d);
    SqrtFacts(sqrt, d);
    SqMul(Abs(k), m);
    SqAbs(k);
    MulNonNeg(Abs(k), m);
    SqrtUnique(sqrt, e, Abs(k) * m);
  }

  lemma ScaledDotFacts(v: Vec3, k: real)
    ensures 0.0 <= Dot(v, v)
    ensures Dot(Scale(v, k), Scale(v, k)) == Sq(k) * Dot(v, v)
  {
    DotScaleBoth(v, k);
    DotSelfNonNegative(v);
  }

  lemma MagnitudeOfScaled(sqrt: real -> real, v: Vec3, k: real)
    requires IsSqrt(sqrt)
    requires 0.0 <= Dot(v, v)
    requires Dot(Scale(v, k), Scale(v, k)) == Sq(k) * Dot(v, v)
    ensures Magnitude(sqrt, Scale(v, k)) == Abs(k) * Magnitude(sqrt, v)
  {
    SqrtScale(sqrt, Dot(v, v), k, Dot(Scale(v, k), Scale(v, k)));
  }

  /** Scaling a vector by `k` scales its length by `|k|`. */
  lemma MagnitudeScale(sqrt: real -> real, v: Vec3, k: real)
    requires IsSqrt(sqrt)
    ensures Magnitude(sqrt, Scale(v, k)) == Abs(k) * Magnitude(sqrt, v)
  {
    ScaledDotFacts(v, k);
    MagnitudeOfScaled(sqrt, v, k);
  }

  lemma MagnitudeNeg(sqrt: real -> real, v: Vec3)
    ensures Magnitude(sqrt, Neg(v)) == Magnitude(sqrt, v)
  {
    assert Dot(Neg(v), Neg(v)) == Dot(v, v);
  }

  /**
   * `normalized` gives zero for the zero vector and a unit vector pointing
   * the same way for every other vector.
   */
  lemma NormalizedFacts(sqrt: real -> real, v: Vec3)
    requires IsSqrt(sqrt)
    ensures v == Zero ==> Normalized(sqrt, v) == Zero
    ensures v != Zero ==> Dot(Normalized(sqrt, v), Normalized(sqrt, v)) == 1.0
    ensures v != Zero ==> Magnitude(sqrt, Normalized(sqrt, v)) == 1.0
    ensures v != Zero ==> 0.0 < Magnitude(sqrt, v) &&
                          Normalized(sqrt, v) == Scale(v, 1.0 / Magnitude(sqrt, v))
  {
    MagnitudeFacts(sqrt, v);
    if v != Zero {
      var m := Magnitude(sqrt, v);
      var n := Normalized(sqrt, v);
      assert n == Scale(v, 1.0 / m);
      DotScaleBoth(v, 1.0 / m);
      assert Sq(1.0 / m) * Sq(m) == 1.0;
      SqrtUnique(sqrt, Dot(n, n), 1.0);
    }
  }

  /** A normalized vector is a unit vector or zero. */
  lemma NormalizedUnitOrZero(sqrt: real -> real, v: Vec3)
    requires IsSqrt(sqrt)
    ensures var n := Normalized(sqrt, v); Dot(n, n) == 1.0 || n == Zero
  {
    NormalizedFacts(sqrt, v);
  }

  /** Only the zero vector normalizes to zero, with or without a sign flip. */
  lemma NormalizedZeroIff(sqrt: real -> real, v: Vec3)
    requires IsSqrt(sqrt)
    ensures Normalized(sqrt, v) == Zero <==> v == Zero
    ensures Neg(Normalized(sqrt, v)) == Zero <==> v == Zero
  {
    NormalizedFacts(sqrt, v);
    if v == Zero {
      NegZero();
    } else {
      UnitNonZero(Normalized(sqrt, v));
    }
  }

  lemma UnitNonZero(n: Vec3)
    requires Dot(n, n) == 1.0
    ensures n != Zero && Neg(n) != Zero
  {
    DotSelfZero(n);
    NegNonZero(n);
  }

  lemma DotSelfZero(n: Vec3)
    ensures n == Zero ==> Dot(n, n) == 0.0
  {
    if n == Zero {
      DotZero(n);
    }
  }

  lemma NegZero()
    ensures Neg(Zero) == Zero
  {}

  lemma NegNonZero(n: Vec3)
    requires n != Zero
    ensures Neg(n) != Zero
  {
    ZeroIff(n);
    ZeroIff(Neg(n));
  }

  lemma NormalizedNeg(sqrt: real -> real, v: Vec3)
    ensures Normalized(sqrt, Neg(v)) == Neg(Normalized(sqrt, v))
  {
    MagnitudeNeg(sqrt, v);
  }

  lemma AddZero(v: Vec3)
    ensures Add(v, Zero) == v
  {}

  lemma DotExpand(u: Vec3, w: Vec3)
    ensures Dot(Sub(u, w), Sub(u, w)) == Dot(u, u) - 2.0 * Dot(u, w) + Dot(w, w)
    ensures Dot(Add(u, w), Add(u, w)) == Dot(u, u) + 2.0 * Dot(u, w) + Dot(w, w)
  {}

  lemma DotZero(w: Vec3)
    ensures Dot(Zero, w) == 0.0 && Dot(w, Zero) == 0.0
  {}

  lemma UnitDotBounds(u: Vec3, w: Vec3)
    requires Dot(u, u) == 1.0 && Dot(w, w) == 1.0
    ensures -1.0 <= Dot(u, w) <= 1.0
  {
    DotSelfNonNegative(Sub(u, w));
    DotSelfNonNegative(Add(u, w));
    DotExpand(u, w);
  }

  /** Any two normalized vectors have a dot product in [-1, 1]. */
  lemma NormalizedDotBounds(sqrt: real -> real, a: Vec3, b: Vec3)
    requires IsSqrt(sqrt)
    ensures -1.0 <= Dot(Normalized(sqrt, a), Normalized(sqrt, b)) <= 1.0
  {
    var u, w := Normalized(sqrt, a), Normalized(sqrt, b);
    NormalizedUnitOrZero(sqrt, a);
    NormalizedUnitOrZero(sqrt, b);
    if u == Zero {
      DotZero(w);
    } else if w == Zero {
      DotZero(u);
    } else {
      UnitDotBounds(u, w);
    }
  }

  /** Comparing distances is the same as comparing squared distances. */
  lemma DistanceOrder(sqrt: real -> real, a: Vec3, b: Vec3, c: Vec3, d: Vec3)
    requires IsSqrt(sqrt)
    ensures Distance(sqrt, a, b) <= Distance(sqrt, c, d) <==> SqrDistance(a, b) <= SqrDistance(c, d)
    ensures Distance(sqrt, a, b) < Distance(sqrt, c, d) <==> SqrDistance(a, b) < SqrDistance(c, d)
  {
    DotSelfNonNegative(Sub(a, b));
    DotSelfNonNegative(Sub(c, d));
    SqrtMonotone(sqrt, SqrDistance(a, b), SqrDistance(c, d));
  }

  lemma DistanceFacts(sqrt: real -> real, a: Vec3, b: Vec3)
    requires IsSqrt(sqrt)
    ensures 0.0 <= Distance(sqrt, a, b)
    ensures Distance(sqrt, a, b) == 0.0 <==> a == b
  {
    MagnitudeFacts(sqrt, Sub(a, b));
    SubZero(a, b);
  }

  lemma ClampMagnitudeShortens(sqrt: real -> real, v: Vec3, maxLength: real)
    requires IsSqrt(sqrt)
    requires 0.0 <= maxLength && Sq(maxLength) < Dot(v, v)
    ensures Magnitude(sqrt, ClampMagnitude(sqrt, v, maxLength)) == maxLength
  {
    MagnitudeFacts(sqrt, v);
    SqSign(maxLength);
    var m := Magnitude(sqrt, v);
    assert 0.0 < m;
    MagnitudeScale(sqrt, v, maxLength / m);
    assert Abs(maxLength / m) * m == maxLength;
  }

  lemma ClampMagnitudeKeeps(sqrt: real -> real, v: Vec3, maxLength: real)
    requires IsSqrt(sqrt)
    requires 0.0 <= maxLength && Dot(v, v) <= Sq(maxLength)
    ensures Magnitude(sqrt, v) <= maxLength
  {
    DotSelfNonNegative(v);
    SqSign(maxLength);
    SqrtMonotone(sqrt, Dot(v, v), Sq(maxLength));
    SqrtUnique(sqrt, Sq(maxLength), maxLength);
  }

  /** `ClampMagnitude` never returns a vector longer than a non-negative bound. */
  lemma ClampMagnitudeBound(sqrt: real -> real, v: Vec3, maxLength: real)
    requires IsSqrt(sqrt)
    requires 0.0 <= maxLength
    ensures Magnitude(sqrt, ClampMagnitude(sqrt, v, maxLength)) <= maxLength
    ensures Dot(v, v) <= Sq(maxLength) ==> ClampMagnitude(sqrt, v, maxLength) == v
  {
    if Dot(v, v) > Sq(maxLength) {
      ClampMagnitudeShortens(sqrt, v, maxLength);
    } else {
      ClampMagnitudeKeeps(sqrt, v, maxLength);
    }
  }

  lemma Magnitude2Facts(sqrt: real -> real, v: Vec2)
    requires IsSqrt(sqrt)
    ensures 0.0 <= Magnitude2(sqrt, v)
    ensures Sq(Magnitude2(sqrt, v)) == Dot2(v, v)
    ensures Magnitude2(sqrt, v) == 0.0 <==> v == Zero2
  {
    SqSign(v.x);
    SqSign(v.y);
    var m := Magnitude2(sqrt, v);
    assert Sq(m) == Dot2(v, v);
    if m == 0.0 {
      assert Sq(m) == 0.0;
    }
  }

  /** `Vector2.Normalize` gives a vector of length one, or zero for zero. */
  lemma Normalized2Facts(sqrt: real -> real, v: Vec2)
    requires IsSqrt(sqrt)
    ensures v == Zero2 ==> Normalized2(sqrt, v) == Zero2
    ensures v != Zero2 ==> Magnitude2(sqrt, Normalized2(sqrt, v)) == 1.0
  {
    Magnitude2Facts(sqrt, v);
    if v != Zero2 {
      var m := Magnitude2(sqrt, v);
      var n := Normalized2(sqrt, v);
      assert Dot2(n, n) == Sq(1.0 / m) * Dot2(v, v);
      assert Sq(1.0 / m) * Sq(m) == 1.0;
      SqrtUnique(sqrt, Dot2(n, n), 1.0);
    }
  }

  /** A vector is its direction stretched by its length. */
  lemma NormalizedTimesMagnitude(sqrt: real -> real, v: Vec3)
    requires IsSqrt(sqrt)
    ensures Scale(Normalized(sqrt, v), Magnitude(sqrt, v)) == v
  {
    NormalizedFacts(sqrt, v);
    if v == Zero {
      MagnitudeFacts(sqrt, v);
    } else {
      var m := Magnitude(sqrt, v);
      assert (1.0 / m) * m == 1.0;
    }
  }

  /** Stretching a unit vector by `s` gives a vector of length `|s|`. */
  lemma UnitMagnitudeScale(sqrt: real -> real, n: Vec3, s: real)
    requires IsSqrt(sqrt)
    requires Dot(n, n) == 1.0
    ensures Magnitude(sqrt, Scale(n, s)) == Abs(s)
  {
    SqrtUnique(sqrt, Dot(n, n), 1.0);
    MagnitudeScale(sqrt, n, s);
  }

  lemma NegDot(u: Vec3, w: Vec3)
    ensures Dot(Neg(u), w) == -Dot(u, w)
  {}

  /** The projection of a vector on its own direction is its length. */
  lemma DotNormalizedSelf(sqrt: real -> real, v: Vec3)
    requires IsSqrt(sqrt)
    ensures Dot(Normalized(sqrt, v), v) == Magnitude(sqrt, v)
  {
    MagnitudeFacts(sqrt, v);
    var m := Magnitude(sqrt, v);
    if m > 0.0 {
      var n := Normalized(sqrt, v);
      assert Dot(n, v) == (1.0 / m) * Dot(v, v);
      assert (1.0 / m) * Sq(m) == m;
    } else {
      DotZero(v);
    }
  }

  /** The projection of a vector on a unit direction is at most the vector's length. */
  lemma DotAtMostMagnitude(sqrt: real -> real, c: Vec3, u: Vec3)
    requires IsSqrt(sqrt)
    requires Dot(u, u) == 1.0
    ensures Dot(c, u) <= Magnitude(sqrt, c)
  {
    var n, m := Normalized(sqrt, c), Magnitude(sqrt, c);
    NormalizedTimesMagnitude(sqrt, c);
    MagnitudeFacts(sqrt, c);
    NormalizedUnitOrZero(sqrt, c);
    if n == Zero {
      DotZero(u);
      assert Dot(n, u) == 0.0;
    } else {
      UnitDotBounds(n, u);
    }
    ScaledDotAtMost(n, m, u);
  }

  lemma ScaledDotAtMost(n: Vec3, m: real, u: Vec3)
    requires 0.0 <= m && Dot(n, u) <= 1.0
    ensures Dot(Scale(n, m), u) <= m
  {
    assert Dot(Scale(n, m), u) == m * Dot(n, u);
    MulNonNeg(m, 1.0 - Dot(n, u));
  }

  /** Clamping the zero vector gives the zero vector. */
  lemma ClampOfZero(sqrt: real -> real, maxLength: real)
    ensures ClampMagnitude(sqrt, Zero, maxLength) == Zero
  {
    SqSign(maxLength);
    DotZero(Zero);
  }

  /** Clamping to length zero gives the zero vector. */
  lemma ClampToNothing(sqrt: real -> real, v: Vec3)
    requires IsSqrt(sqrt)
    ensures ClampMagnitude(sqrt, v, 0.0) == Zero
  {
    var c := ClampMagnitude(sqrt, v, 0.0);
    ClampMagnitudeBound(sqrt, v, 0.0);
    MagnitudeFacts(sqrt, c);
  }

  lemma DistanceNonNegative(sqrt: real -> real, a: Vec3, b: Vec3)
    requires IsSqrt(sqrt)
    ensures 0.0 <= Distance(sqrt, a, b)
  {
    DotSelfNonNegative(Sub(a, b));
  }

  lemma DistanceToSelf(sqrt: real -> real, a: Vec3)
    requires IsSqrt(sqrt)
    ensures Distance(sqrt, a, a) == 0.0
  {
    assert Sub(a, a) == Zero;
    SqrtFacts(sqrt, 0.0);
  }
}
