/**
 * `VectorMath.IsolateDirection` and `VectorMath.NegateDirection`, the two
 * projections the gravity system splits velocities with. Their library is
 * not part of this model; they are defined here as the vector projection of
 * `v` onto the line of `dir` and as `v` minus that projection.
 */
module VectorMath {
  import opened Maths

  /** The component of `v` along `dir`; zero when `dir` is zero. */
  function IsolateDirection(sqrt: real -> real, v: Vec3, dir: Vec3): Vec3
  {
    var n := Normalized(sqrt, dir);
    Scale(n, Dot(v, n))
  }

  /** `v` with its component along `dir` removed. */
  function NegateDirection(sqrt: real -> real, v: Vec3, dir: Vec3): Vec3
  {
    Sub(v, IsolateDirection(sqrt, v, dir))
  }

  // ---------------------------------------------------------------------
  // Linear algebra used below.
  // ---------------------------------------------------------------------

  lemma DotScaleLeft(u: Vec3, c: real, w: Vec3)
    ensures Dot(Scale(u, c), w) == c * Dot(u, w)
  {}

  lemma DotSubLeft(u: Vec3, v: Vec3, w: Vec3)
    ensures Dot(Sub(u, v), w) == Dot(u, w) - Dot(v, w)
  {}

  lemma DotAddLeft(u: Vec3, v: Vec3, w: Vec3)
    ensures Dot(Add(u, v), w) == Dot(u, w) + Dot(v, w)
  {}

  lemma DotNegRight(u: Vec3, w: Vec3)
    ensures Dot(u, Neg(w)) == -Dot(u, w)
  {}

  lemma ScaleZero(u: Vec3)
    ensures Scale(u, 0.0) == Zero && Scale(Zero, 0.0) == Zero
  {}

  lemma ScaleOfZero(c: real)
    ensures Scale(Zero, c) == Zero
  {}

  lemma ScaleAddFactor(u: Vec3, a: real, b: real)
    ensures Scale(u, a + b) == Add(Scale(u, a), Scale(u, b))
  {}

  lemma ScaleScale(u: Vec3, a: real, b: real)
    ensures Scale(Scale(u, a), b) == Scale(u, a * b)
  {}

  lemma ScaleNegNeg(u: Vec3, c: real)
    ensures Scale(Neg(u), -c) == Scale(u, c)
  {}

  // ---------------------------------------------------------------------
  // Projection facts.
  // ---------------------------------------------------------------------

  /** The two parts add back up to the original vector. */
  lemma Decompose(sqrt: real -> real, v: Vec3, dir: Vec3)
    ensures Add(NegateDirection(sqrt, v, dir), IsolateDirection(sqrt, v, dir)) == v
  {}

  /** Projecting onto the unit vector `n` a multiple of `n` changes nothing. */
  lemma ProjectMultiple(n: Vec3, c: real)
    requires Dot(n, n) == 1.0
    ensures Scale(n, Dot(Scale(n, c), n)) == Scale(n, c)
  {
    DotScaleLeft(n, c, n);
  }

  /** Projecting onto the unit vector `n` the rejection of `v` from `n` gives zero. */
  lemma ProjectRejection(n: Vec3, v: Vec3)
    requires Dot(n, n) == 1.0
    ensures Dot(Sub(v, Scale(n, Dot(v, n))), n) == 0.0
  {
    DotSubLeft(v, Scale(n, Dot(v, n)), n);
    DotScaleLeft(n, Dot(v, n), n);
  }

  lemma IsolateAlongZero(sqrt: real -> real, v: Vec3, dir: Vec3)
    requires Normalized(sqrt, dir) == Zero
    ensures IsolateDirection(sqrt, v, dir) == Zero
  {
    ScaleOfZero(Dot(v, Zero));
  }

  /** Isolating twice is isolating once. */
  lemma IsolateIdempotent(sqrt: real -> real, v: Vec3, dir: Vec3)
    requires IsSqrt(sqrt)
    ensures IsolateDirection(sqrt, IsolateDirection(sqrt, v, dir), dir) == IsolateDirection(sqrt, v, dir)
  {
    var n := Normalized(sqrt, dir);
    NormalizedUnitOrZero(sqrt, dir);
    if n == Zero {
      IsolateAlongZero(sqrt, v, dir);
      IsolateAlongZero(sqrt, Zero, dir);
    } else {
      ProjectMultiple(n, Dot(v, n));
    }
  }

  /** What `NegateDirection` leaves has no component along `dir`. */
  lemma IsolateOfNegate(sqrt: real -> real, v: Vec3, dir: Vec3)
    requires IsSqrt(sqrt)
    ensures IsolateDirection(sqrt, NegateDirection(sqrt, v, dir), dir) == Zero
  {
    var n := Normalized(sqrt, dir);
    NormalizedUnitOrZero(sqrt, dir);
    if n == Zero {
      IsolateAlongZero(sqrt, NegateDirection(sqrt, v, dir), dir);
    } else {
      ProjectRejection(n, v);
      ScaleZero(n);
    }
  }

  /** What `IsolateDirection` leaves lies entirely along `dir`. */
  lemma NegateOfIsolate(sqrt: real -> real, v: Vec3, dir: Vec3)
    requires IsSqrt(sqrt)
    ensures NegateDirection(sqrt, IsolateDirection(sqrt, v, dir), dir) == Zero
  {
    IsolateIdempotent(sqrt, v, dir);
  }

  /** Negating twice is negating once. */
  lemma NegateIdempotent(sqrt: real -> real, v: Vec3, dir: Vec3)
    requires IsSqrt(sqrt)
    ensures NegateDirection(sqrt, NegateDirection(sqrt, v, dir), dir) == NegateDirection(sqrt, v, dir)
  {
    IsolateOfNegate(sqrt, v, dir);
  }

  /** Only the line of `dir` matters, not which way it points. */
  lemma IsolateOpposite(sqrt: real -> real, v: Vec3, dir: Vec3)
    ensures IsolateDirection(sqrt, v, Neg(dir)) == IsolateDirection(sqrt, v, dir)
  {
    var n := Normalized(sqrt, dir);
    NormalizedNeg(sqrt, dir);
    DotNegRight(v, n);
    ScaleNegNeg(n, Dot(v, n));
  }

  lemma NegateOpposite(sqrt: real -> real, v: Vec3, dir: Vec3)
    ensures NegateDirection(sqrt, v, Neg(dir)) == NegateDirection(sqrt, v, dir)
  {
    IsolateOpposite(sqrt, v, dir);
  }

  /** `IsolateDirection` is linear in `v`: sums ... */
  lemma IsolateAdd(sqrt: real -> real, v: Vec3, w: Vec3, dir: Vec3)
    ensures IsolateDirection(sqrt, Add(v, w), dir) ==
            Add(IsolateDirection(sqrt, v, dir), IsolateDirection(sqrt, w, dir))
  {
    var n := Normalized(sqrt, dir);
    DotAddLeft(v, w, n);
    ScaleAddFactor(n, Dot(v, n), Dot(w, n));
  }

  /** ... and multiples. */
  lemma IsolateScale(sqrt: real -> real, v: Vec3, k: real, dir: Vec3)
    ensures IsolateDirection(sqrt, Scale(v, k), dir) == Scale(IsolateDirection(sqrt, v, dir), k)
  {
    var n := Normalized(sqrt, dir);
    DotScaleLeft(v, k, n);
    ScaleScale(n, Dot(v, n), k);
  }

  lemma NegateAdd(sqrt: real -> real, v: Vec3, w: Vec3, dir: Vec3)
    ensures NegateDirection(sqrt, Add(v, w), dir) ==
            Add(NegateDirection(sqrt, v, dir), NegateDirection(sqrt, w, dir))
  {
    IsolateAdd(sqrt, v, w, dir);
  }

  lemma NegateScale(sqrt: real -> real, v: Vec3, k: real, dir: Vec3)
    ensures NegateDirection(sqrt, Scale(v, k), dir) == Scale(NegateDirection(sqrt, v, dir), k)
  {
    IsolateScale(sqrt, v, k, dir);
  }

  /** The direction of a rejection from `dir` is itself perpendicular to `dir`. */
  lemma IsolateOfNormalizedNegate(sqrt: real -> real, v: Vec3, dir: Vec3)
    requires IsSqrt(sqrt)
    ensures IsolateDirection(sqrt, Normalized(sqrt, NegateDirection(sqrt, v, dir)), dir) == Zero
  {
    var f := NegateDirection(sqrt, v, dir);
    IsolateOfNegate(sqrt, v, dir);
    if Magnitude(sqrt, f) > 0.0 {
      IsolateScale(sqrt, f, 1.0 / Magnitude(sqrt, f), dir);
      ScaleOfZero(1.0 / Magnitude(sqrt, f));
    } else {
      assert Normalized(sqrt, f) == Zero;
      ScaleZero(Normalized(sqrt, dir));
    }
  }

  /** A direction has no component off its own line. */
  lemma NegateOfOwnDirection(sqrt: real -> real, s: real, dir: Vec3)
    requires IsSqrt(sqrt)
    ensures NegateDirection(sqrt, Scale(Normalized(sqrt, dir), s), dir) == Zero
  {
    var n := Normalized(sqrt, dir);
    NormalizedUnitOrZero(sqrt, dir);
    NegateScale(sqrt, n, s, dir);
    if n == Zero {
      IsolateAlongZero(sqrt, n, dir);
    } else {
      ProjectMultiple(n, 1.0);
      assert Scale(n, 1.0) == n;
    }
    ScaleOfZero(s);
  }

  /** A vector has no component off its own line, nor does any multiple of it. */
  lemma NegateAlongOwnLine(sqrt: real -> real, dir: Vec3, k: real)
    requires IsSqrt(sqrt)
    ensures NegateDirection(sqrt, Scale(dir, k), dir) == Zero
  {
    NormalizedTimesMagnitude(sqrt, dir);
    NegateOfOwnDirection(sqrt, Magnitude(sqrt, dir), dir);
    NegateScale(sqrt, dir, k, dir);
    ScaleOfZero(k);
  }
}
