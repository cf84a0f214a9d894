/**
 * The velocity arithmetic of `DGSBody`, stated on values. Each state-changing
 * method of the `DGSBody` class is specified by one of these functions: the
 * new target velocity is the function applied to the old one. `up` is the
 * body's local up direction as the gravity resolver reports it.
 */
module BodyMotion {
  import opened Maths
  import opened VectorMath

  datatype AccelerationMode = Basic | Source | Quake

  datatype ForceMode = Force | Acceleration | Impulse | VelocityChange

  // ---------------------------------------------------------------------
  // Flat and down parts of a velocity.
  // ---------------------------------------------------------------------

  /** `FlatVel` / `TrueFlatVel`: what is left of `v` once its part along `up` is removed. */
  function FlatPart(sqrt: real -> real, v: Vec3, up: Vec3): Vec3
  {
    NegateDirection(sqrt, v, up)
  }

  /** `DownVel` / `TrueDownVel`: the part of `v` along `-up`. */
  function DownPart(sqrt: real -> real, v: Vec3, up: Vec3): Vec3
  {
    IsolateDirection(sqrt, v, Neg(up))
  }

  /** `Acceleration`: the change of the engine velocity since it was stored, times the step. */
  function AccelerationOf(velocity: Vec3, stored: Vec3, fixedDeltaTime: real): Vec3
  {
    Scale(Sub(velocity, stored), fixedDeltaTime)
  }

  lemma DownPartIsIsolate(sqrt: real -> real, v: Vec3, up: Vec3)
    ensures DownPart(sqrt, v, up) == IsolateDirection(sqrt, v, up)
  {
    IsolateOpposite(sqrt, v, up);
  }

  /**
   * A velocity is its flat part plus its down part; the flat part has no
   * down part and the down part no flat part, so each is idempotent.
   */
  lemma FlatDownSplit(sqrt: real -> real, v: Vec3, up: Vec3)
    requires IsSqrt(sqrt)
    ensures Add(FlatPart(sqrt, v, up), DownPart(sqrt, v, up)) == v
    ensures DownPart(sqrt, FlatPart(sqrt, v, up), up) == Zero
    ensures FlatPart(sqrt, DownPart(sqrt, v, up), up) == Zero
    ensures FlatPart(sqrt, FlatPart(sqrt, v, up), up) == FlatPart(sqrt, v, up)
    ensures DownPart(sqrt, DownPart(sqrt, v, up), up) == DownPart(sqrt, v, up)
  {
    DownPartIsIsolate(sqrt, v, up);
    DownPartIsIsolate(sqrt, FlatPart(sqrt, v, up), up);
    DownPartIsIsolate(sqrt, DownPart(sqrt, v, up), up);
    Decompose(sqrt, v, up);
    IsolateOfNegate(sqrt, v, up);
    NegateOfIsolate(sqrt, v, up);
    NegateIdempotent(sqrt, v, up);
    IsolateIdempotent(sqrt, v, up);
  }

  /** `FlatDownSplit`'s first three facts, for any `sqrt`, so that the body's getters can state them. */
  lemma SplitWhenSqrt(sqrt: real -> real, v: Vec3, up: Vec3)
    ensures IsSqrt(sqrt) ==> Add(FlatPart(sqrt, v, up), DownPart(sqrt, v, up)) == v
    ensures IsSqrt(sqrt) ==> DownPart(sqrt, FlatPart(sqrt, v, up), up) == Zero
    ensures IsSqrt(sqrt) ==> FlatPart(sqrt, DownPart(sqrt, v, up), up) == Zero
  {
    if IsSqrt(sqrt) {
      FlatDownSplit(sqrt, v, up);
    }
  }

  /** Both parts are linear: the parts of a sum are the sums of the parts. */
  lemma PartsOfSum(sqrt: real -> real, v: Vec3, w: Vec3, up: Vec3)
    ensures FlatPart(sqrt, Add(v, w), up) == Add(FlatPart(sqrt, v, up), FlatPart(sqrt, w, up))
    ensures DownPart(sqrt, Add(v, w), up) == Add(DownPart(sqrt, v, up), DownPart(sqrt, w, up))
  {
    NegateAdd(sqrt, v, w, up);
    IsolateAdd(sqrt, v, w, Neg(up));
  }

  /** A flat vector plus a down vector splits back into exactly those two. */
  lemma SplitOfSum(sqrt: real -> real, f: Vec3, d: Vec3, up: Vec3)
    requires IsSqrt(sqrt)
    requires DownPart(sqrt, f, up) == Zero && FlatPart(sqrt, d, up) == Zero
    ensures FlatPart(sqrt, Add(f, d), up) == f
    ensures DownPart(sqrt, Add(f, d), up) == d
  {
    PartsOfSum(sqrt, f, d, up);
    FlatDownSplit(sqrt, f, up);
    FlatDownSplit(sqrt, d, up);
  }

  /** Any multiple of the direction of a flat part is itself flat. */
  lemma FlatDirectionIsFlat(sqrt: real -> real, v: Vec3, s: real, up: Vec3)
    requires IsSqrt(sqrt)
    ensures DownPart(sqrt, Scale(Normalized(sqrt, FlatPart(sqrt, v, up)), s), up) == Zero
    ensures FlatPart(sqrt, Scale(Normalized(sqrt, FlatPart(sqrt, v, up)), s), up)
            == Scale(Normalized(sqrt, FlatPart(sqrt, v, up)), s)
  {
    var n := Normalized(sqrt, FlatPart(sqrt, v, up));
    IsolateOfNormalizedNegate(sqrt, v, up);
    IsolateScale(sqrt, n, s, up);
    ScaleOfZero(s);
    DownPartIsIsolate(sqrt, Scale(n, s), up);
  }

  // ---------------------------------------------------------------------
  // DGSCharacterAccelerate.
  // ---------------------------------------------------------------------

  /**
   * Source-style speed change along the wish direction: `accel * dt`, cut
   * back so the projected speed ends exactly at `wishSpeed` when it would
   * pass it. It is the largest change meeting both bounds.
   */
  function SourceSpeedChange(projVel: real, wishSpeed: real, accel: real, dt: real): (delta: real)
    ensures projVel + delta <= wishSpeed
    ensures delta <= accel * dt
    ensures delta == accel * dt || projVel + delta == wishSpeed
  {
    var delta := accel * dt;
    if projVel + delta > wishSpeed then wishSpeed - projVel else delta
  }

  /**
   * Quake-style speed change along the wish direction: nothing once the
   * projected speed has reached `wishSpeed`; otherwise `accel * wishSpeed *
   * dt`, cut back to the speed still missing.
   */
  function QuakeSpeedChange(projVel: real, wishSpeed: real, accel: real, dt: real): (r: real)
    ensures wishSpeed - projVel <= 0.0 ==> r == 0.0
    ensures 0.0 < wishSpeed - projVel ==> projVel + r <= wishSpeed
    ensures 0.0 < wishSpeed - projVel ==> r <= accel * wishSpeed * dt
    ensures 0.0 < wishSpeed - projVel ==> r == accel * wishSpeed * dt || projVel + r == wishSpeed
    ensures 0.0 <= accel && 0.0 <= dt && 0.0 <= wishSpeed ==> 0.0 <= r
  {
    var addSpeed := wishSpeed - projVel;
    if addSpeed <= 0.0 then 0.0
    else
      var accelerationSpeed := accel * wishSpeed * dt;
      if accelerationSpeed > addSpeed then addSpeed
      else
        QuakeStepNonNegative(accel, wishSpeed, dt);
        accelerationSpeed
  }

  lemma QuakeStepNonNegative(accel: real, wishSpeed: real, dt: real)
    ensures 0.0 <= accel && 0.0 <= dt && 0.0 <= wishSpeed ==> 0.0 <= accel * wishSpeed * dt
  {
    if 0.0 <= accel && 0.0 <= dt && 0.0 <= wishSpeed {
      MulNonNeg(accel, wishSpeed);
      MulNonNeg(accel * wishSpeed, dt);
    }
  }

  /**
   * The change `DGSCharacterAccelerate` makes to the target velocity, given
   * the flat engine velocity `initial` and the (already friction-scaled)
   * acceleration.
   */
  function AccelerationDelta(sqrt: real -> real, initial: Vec3, wishVelocity: Vec3,
                             accel: real, dt: real, mode: AccelerationMode): (d: Vec3)
    ensures mode == Basic && accel * dt == 0.0 ==> d == Zero
    ensures mode == Basic && accel * dt == 1.0 ==> Add(initial, d) == wishVelocity
  {
    var wishDirection := Normalized(sqrt, wishVelocity);
    var wishSpeed := Magnitude(sqrt, wishVelocity);
    match mode
    case Basic => Scale(Sub(wishVelocity, initial), accel * dt)
    case Source =>
      Scale(wishDirection, SourceSpeedChange(Dot(initial, wishDirection), wishSpeed, accel, dt))
    case Quake =>
      Scale(wishDirection, QuakeSpeedChange(Dot(initial, wishDirection), wishSpeed, accel, dt))
  }

  /**
   * Basic mode moves the engine's flat velocity the fraction `accel * dt` of
   * the way to the wish velocity, component by component.
   */
  lemma BasicIsLerp(sqrt: real -> real, initial: Vec3, wishVelocity: Vec3, accel: real, dt: real)
    ensures var k := accel * dt;
            Add(initial, AccelerationDelta(sqrt, initial, wishVelocity, accel, dt, Basic)) ==
            Vec3(LerpUnclamped(initial.x, wishVelocity.x, k),
                 LerpUnclamped(initial.y, wishVelocity.y, k),
                 LerpUnclamped(initial.z, wishVelocity.z, k))
  {}

  /**
   * For `0 <= accel * dt <= 1` Basic mode never overshoots: each component
   * ends between the engine's flat velocity and the wish velocity.
   */
  lemma BasicNoOvershoot(sqrt: real -> real, initial: Vec3, wishVelocity: Vec3, accel: real, dt: real)
    requires 0.0 <= accel * dt <= 1.0
    ensures var r := Add(initial, AccelerationDelta(sqrt, initial, wishVelocity, accel, dt, Basic));
            Between(initial.x, r.x, wishVelocity.x) &&
            Between(initial.y, r.y, wishVelocity.y) &&
            Between(initial.z, r.z, wishVelocity.z)
  {
    var k := accel * dt;
    BasicIsLerp(sqrt, initial, wishVelocity, accel, dt);
    LerpUnclampedBounds(initial.x, wishVelocity.x, k);
    LerpUnclampedBounds(initial.y, wishVelocity.y, k);
    LerpUnclampedBounds(initial.z, wishVelocity.z, k);
  }

  /** `v` lies between `a` and `b`, whichever is larger. */
  predicate Between(a: real, v: real, b: real)
  {
    (a <= v <= b) || (b <= v <= a)
  }

  /** With no wish velocity, Source and Quake change nothing. */
  lemma AccelerationZeroWish(sqrt: real -> real, initial: Vec3, accel: real, dt: real, mode: AccelerationMode)
    requires IsSqrt(sqrt)
    requires mode != Basic
    ensures AccelerationDelta(sqrt, initial, Zero, accel, dt, mode) == Zero
  {
    NormalizedFacts(sqrt, Zero);
    var wishSpeed := Magnitude(sqrt, Zero);
    var s := if mode == Source then SourceSpeedChange(Dot(initial, Zero), wishSpeed, accel, dt)
             else QuakeSpeedChange(Dot(initial, Zero), wishSpeed, accel, dt);
    ScaleOfZero(s);
  }

  /** Source and Quake only ever push along the wish direction. */
  lemma AccelerationAlongWish(sqrt: real -> real, initial: Vec3, wishVelocity: Vec3,
                              accel: real, dt: real, mode: AccelerationMode)
    requires IsSqrt(sqrt)
    requires mode != Basic
    ensures NegateDirection(sqrt, AccelerationDelta(sqrt, initial, wishVelocity, accel, dt, mode), wishVelocity) == Zero
  {
    var n := Normalized(sqrt, wishVelocity);
    var wishSpeed := Magnitude(sqrt, wishVelocity);
    var s := if mode == Source then SourceSpeedChange(Dot(initial, n), wishSpeed, accel, dt)
             else QuakeSpeedChange(Dot(initial, n), wishSpeed, accel, dt);
    NegateOfOwnDirection(sqrt, s, wishVelocity);
  }

  /** Stepping by `s` along a unit vector raises the projection onto it by `s`. */
  lemma ProjectionAfterStep(initial: Vec3, n: Vec3, s: real)
    requires Dot(n, n) == 1.0
    ensures Dot(Add(initial, Scale(n, s)), n) == Dot(initial, n) + s
  {
    DotAddLeft(initial, Scale(n, s), n);
    DotScaleLeft(n, s, n);
  }

  /**
   * Source mode: afterwards the flat velocity's projection on the wish
   * direction is `accel * dt` higher, or exactly the wish speed when that
   * would pass it (so a projection above the wish speed is pulled back).
   */
  lemma SourceProjection(sqrt: real -> real, initial: Vec3, wishVelocity: Vec3, accel: real, dt: real)
    requires IsSqrt(sqrt)
    requires wishVelocity != Zero
    ensures var n := Normalized(sqrt, wishVelocity);
            var p := Dot(initial, n);
            var p' := Dot(Add(initial, AccelerationDelta(sqrt, initial, wishVelocity, accel, dt, Source)), n);
            p' <= Magnitude(sqrt, wishVelocity) &&
            (p' == p + accel * dt || p' == Magnitude(sqrt, wishVelocity))
  {
    var n := Normalized(sqrt, wishVelocity);
    NormalizedFacts(sqrt, wishVelocity);
    ProjectionAfterStep(initial, n, SourceSpeedChange(Dot(initial, n), Magnitude(sqrt, wishVelocity), accel, dt));
  }

  /**
   * Quake mode: a projection at or above the wish speed is left alone; a
   * lower one rises but never past the wish speed, and with non-negative
   * acceleration and step it never falls.
   */
  lemma QuakeProjection(sqrt: real -> real, initial: Vec3, wishVelocity: Vec3, accel: real, dt: real)
    requires IsSqrt(sqrt)
    requires wishVelocity != Zero
    ensures var n := Normalized(sqrt, wishVelocity);
            var wishSpeed := Magnitude(sqrt, wishVelocity);
            var p := Dot(initial, n);
            var p' := Dot(Add(initial, AccelerationDelta(sqrt, initial, wishVelocity, accel, dt, Quake)), n);
            (wishSpeed <= p ==> p' == p) &&
            (p < wishSpeed ==> p' <= wishSpeed) &&
            (0.0 <= accel && 0.0 <= dt ==> p <= p')
  {
    var n := Normalized(sqrt, wishVelocity);
    NormalizedFacts(sqrt, wishVelocity);
    MagnitudeFacts(sqrt, wishVelocity);
    ProjectionAfterStep(initial, n, QuakeSpeedChange(Dot(initial, n), Magnitude(sqrt, wishVelocity), accel, dt));
  }

  // ---------------------------------------------------------------------
  // AddForce, AddTorque, Gravity.
  // ---------------------------------------------------------------------

  /** The velocity change each force mode stands for, for a body of mass `m`. */
  function ForceModeDelta(force: Vec3, dt: real, m: real, mode: ForceMode): (d: Vec3)
    requires m != 0.0
    ensures dt == 0.0 && (mode == Force || mode == Acceleration) ==> d == Zero
  {
    match mode
    case Force => Div(Scale(force, dt), m)
    case Acceleration => Scale(force, dt)
    case Impulse => Div(force, m)
    case VelocityChange => force
  }

  /** `Force` and `Impulse` divide by the mass: the mass times the change is the force times the step, or the force itself. */
  lemma ForceModeMomentum(force: Vec3, dt: real, m: real)
    requires m != 0.0
    ensures Scale(ForceModeDelta(force, dt, m, Force), m) == Scale(force, dt)
    ensures Scale(ForceModeDelta(force, dt, m, Impulse), m) == force
  {}

  /**
   * `AddForce` adds the mode's change and then, whatever the mode, the
   * force interpretation once more.
   */
  function AddForceDelta(force: Vec3, dt: real, m: real, mode: ForceMode): (d: Vec3)
    requires m != 0.0
    ensures dt == 0.0 ==> d == ForceModeDelta(force, dt, m, mode)
  {
    NoTrailingTerm(force, m);
    AddZero(ForceModeDelta(force, dt, m, mode));
    Add(ForceModeDelta(force, dt, m, mode), Div(Scale(force, dt), m))
  }

  /** With a zero time step the term `AddForce` adds after its switch is zero. */
  lemma NoTrailingTerm(force: Vec3, m: real)
    requires m != 0.0
    ensures Div(Scale(force, 0.0), m) == Zero
  {
    assert Scale(force, 0.0) == Zero;
    assert Div(Zero, m) == Zero;
  }

  /**
   * With a zero time step the trailing term vanishes: `VelocityChange`
   * adds exactly the given vector, `Impulse` exactly `force / m`, and the
   * time-scaled modes nothing.
   */
  lemma AddForceInstant(force: Vec3, m: real, mode: ForceMode)
    requires m != 0.0
    ensures AddForceDelta(force, 0.0, m, mode) == ForceModeDelta(force, 0.0, m, mode)
    ensures AddForceDelta(force, 0.0, m, VelocityChange) == force
    ensures AddForceDelta(force, 0.0, m, Impulse) == Div(force, m)
    ensures mode == Force || mode == Acceleration ==> AddForceDelta(force, 0.0, m, mode) == Zero
  {
    assert Scale(force, 0.0) == Zero;
    assert Div(Zero, m) == Zero;
  }

  /**
   * Outside a zero time step every mode gets the extra term: in `Force`
   * mode the force is applied twice, and `VelocityChange` adds more than
   * the given vector whenever `dt * force / m` is not zero.
   */
  lemma AddForceTrailingTerm(force: Vec3, dt: real, m: real)
    requires m != 0.0
    ensures AddForceDelta(force, dt, m, Force) == Scale(ForceModeDelta(force, dt, m, Force), 2.0)
    ensures AddForceDelta(force, dt, m, VelocityChange) == force <==> Div(Scale(force, dt), m) == Zero
  {
    var extra := Div(Scale(force, dt), m);
    AddSelf(extra);
    AddUnchanged(force, extra);
  }

  lemma AddSelf(e: Vec3)
    ensures Add(e, e) == Scale(e, 2.0)
  {}

  lemma AddUnchanged(a: Vec3, e: Vec3)
    ensures Add(a, e) == a <==> e == Zero
  {
    if Add(a, e) == a {
      assert e.x == 0.0 && e.y == 0.0 && e.z == 0.0;
    }
  }

  /** What `Gravity` adds: `gravityMagnitude * dt` along `-up`. */
  function GravityDelta(up: Vec3, gravityMagnitude: real, dt: real): (d: Vec3)
    ensures Dot(d, up) == -(gravityMagnitude * dt) * Dot(up, up)
  {
    DotScaleLeft(Neg(up), gravityMagnitude * dt, up);
    Scale(Neg(up), gravityMagnitude * dt)
  }

  /** Gravity's change has no flat part and, for a unit `up`, length `|g * dt|`. */
  lemma GravityDeltaIsDown(sqrt: real -> real, up: Vec3, gravityMagnitude: real, dt: real)
    requires IsSqrt(sqrt)
    ensures FlatPart(sqrt, GravityDelta(up, gravityMagnitude, dt), up) == Zero
    ensures Dot(up, up) == 1.0 ==>
              Magnitude(sqrt, GravityDelta(up, gravityMagnitude, dt)) == Abs(gravityMagnitude * dt)
  {
    var k := gravityMagnitude * dt;
    assert GravityDelta(up, gravityMagnitude, dt) == Scale(up, -k);
    NegateAlongOwnLine(sqrt, up, -k);
    if Dot(up, up) == 1.0 {
      UnitMagnitudeScale(sqrt, up, -k);
    }
  }

  // ---------------------------------------------------------------------
  // Friction, NegateDownVelocity, ClampFlatVelocity, LerpFlatVelocity.
  // ---------------------------------------------------------------------

  /**
   * `Friction`: when the target velocity points against the measured
   * acceleration, take `friction * dt` off along the flat direction.
   */
  function FrictionResult(sqrt: real -> real, target: Vec3, acceleration: Vec3,
                          friction: real, dt: real, up: Vec3): (r: Vec3)
    ensures 0.0 <= Dot(target, acceleration) ==> r == target
  {
    if Dot(target, acceleration) < 0.0 then
      Add(target, Scale(Scale(Neg(Normalized(sqrt, FlatPart(sqrt, target, up))), friction), dt))
    else target
  }

  /**
   * Friction never touches the down part, and when it acts it shortens
   * the flat velocity along its own direction by `friction * dt`.
   */
  lemma FrictionFacts(sqrt: real -> real, target: Vec3, acceleration: Vec3,
                      friction: real, dt: real, up: Vec3)
    requires IsSqrt(sqrt)
    ensures var r := FrictionResult(sqrt, target, acceleration, friction, dt, up);
            DownPart(sqrt, r, up) == DownPart(sqrt, target, up)
    ensures var r := FrictionResult(sqrt, target, acceleration, friction, dt, up);
            var f := FlatPart(sqrt, target, up);
            Dot(target, acceleration) < 0.0 ==>
              FlatPart(sqrt, r, up) == Scale(Normalized(sqrt, f), Magnitude(sqrt, f) - friction * dt)
  {
    if Dot(target, acceleration) < 0.0 {
      var f := FlatPart(sqrt, target, up);
      var n := Normalized(sqrt, f);
      var k := -(friction * dt);
      FrictionStep(n, friction, dt);
      assert FrictionResult(sqrt, target, acceleration, friction, dt, up) == Add(target, Scale(n, k));
      PartsOfSum(sqrt, target, Scale(n, k), up);
      FlatDirectionIsFlat(sqrt, target, k, up);
      NormalizedTimesMagnitude(sqrt, f);
      ScaleAddFactor(n, Magnitude(sqrt, f), k);
    }
  }

  lemma FrictionStep(n: Vec3, friction: real, dt: real)
    ensures Scale(Scale(Neg(n), friction), dt) == Scale(n, -(friction * dt))
  {}

  /** When friction acts and `friction * dt` is at most the flat speed, the flat speed drops by exactly that. */
  lemma FrictionFlatSpeed(sqrt: real -> real, target: Vec3, acceleration: Vec3,
                          friction: real, dt: real, up: Vec3)
    requires IsSqrt(sqrt)
    requires Dot(target, acceleration) < 0.0
    requires FlatPart(sqrt, target, up) != Zero
    requires friction * dt <= Magnitude(sqrt, FlatPart(sqrt, target, up))
    ensures var r := FrictionResult(sqrt, target, acceleration, friction, dt, up);
            Magnitude(sqrt, FlatPart(sqrt, r, up))
            == Magnitude(sqrt, FlatPart(sqrt, target, up)) - friction * dt
  {
    var f := FlatPart(sqrt, target, up);
    var n := Normalized(sqrt, f);
    FrictionFacts(sqrt, target, acceleration, friction, dt, up);
    NormalizedFacts(sqrt, f);
    UnitMagnitudeScale(sqrt, n, Magnitude(sqrt, f) - friction * dt);
  }

  /**
   * `NegateDownVelocity`: when the engine velocity has any down speed, drop
   * the target's component along `-up`.
   */
  function NegatedDown(sqrt: real -> real, target: Vec3, trueVelocity: Vec3, up: Vec3): (r: Vec3)
    ensures Magnitude(sqrt, DownPart(sqrt, trueVelocity, up)) <= 0.0 ==> r == target
  {
    if Magnitude(sqrt, DownPart(sqrt, trueVelocity, up)) > 0.0 then
      NegateDirection(sqrt, target, Neg(up))
    else target
  }

  /** When it acts, `NegateDownVelocity` zeroes the down part and keeps the flat part. */
  lemma NegatedDownFacts(sqrt: real -> real, target: Vec3, trueVelocity: Vec3, up: Vec3)
    requires IsSqrt(sqrt)
    requires Magnitude(sqrt, DownPart(sqrt, trueVelocity, up)) > 0.0
    ensures DownPart(sqrt, NegatedDown(sqrt, target, trueVelocity, up), up) == Zero
    ensures FlatPart(sqrt, NegatedDown(sqrt, target, trueVelocity, up), up) == FlatPart(sqrt, target, up)
  {
    NegateOpposite(sqrt, target, up);
    FlatDownSplit(sqrt, target, up);
  }

  /**
   * The flat speed `ClampFlatVelocity` aims for: a hard clamp, or a lerp by
   * `t` from the flat speed towards whichever bound is nearer.
   */
  function ClampedFlatSpeed(flatSpeed: real, minSpeed: real, maxSpeed: real, smooth: bool, t: real): (speed: real)
    ensures !smooth && minSpeed <= maxSpeed ==> minSpeed <= speed <= maxSpeed
    ensures !smooth && minSpeed <= flatSpeed <= maxSpeed ==> speed == flatSpeed
    ensures !smooth && minSpeed <= maxSpeed && maxSpeed < flatSpeed ==> speed == maxSpeed
    ensures !smooth && flatSpeed < minSpeed ==> speed == minSpeed
    ensures smooth ==> var bound := if Abs(minSpeed - flatSpeed) < Abs(maxSpeed - flatSpeed) then minSpeed else maxSpeed;
                       (flatSpeed <= bound ==> flatSpeed <= speed <= bound) &&
                       (bound <= flatSpeed ==> bound <= speed <= flatSpeed) &&
                       (t <= 0.0 ==> speed == flatSpeed) &&
                       (1.0 <= t ==> speed == bound)
  {
    if smooth then
      Lerp(flatSpeed,
           if Abs(minSpeed - flatSpeed) < Abs(maxSpeed - flatSpeed) then minSpeed else maxSpeed,
           t)
    else Clamp(flatSpeed, minSpeed, maxSpeed)
  }

  /**
   * `ClampFlatVelocity`: nothing when the magnitude of the whole target
   * velocity is within bounds; otherwise the flat direction is kept, its
   * speed replaced, and the down part added back.
   */
  function ClampedFlat(sqrt: real -> real, target: Vec3, up: Vec3,
                       minSpeed: real, maxSpeed: real, smooth: bool, t: real): (r: Vec3)
    ensures minSpeed <= Magnitude(sqrt, target) <= maxSpeed ==> r == target
  {
    if Magnitude(sqrt, target) <= maxSpeed && Magnitude(sqrt, target) >= minSpeed then target
    else
      var flat := FlatPart(sqrt, target, up);
      var speed := ClampedFlatSpeed(Magnitude(sqrt, flat), minSpeed, maxSpeed, smooth, t);
      Add(Scale(Normalized(sqrt, flat), speed), DownPart(sqrt, target, up))
  }

  /**
   * Outside the bounds, `ClampFlatVelocity` keeps the down part and the
   * flat direction and sets the flat speed to the chosen speed (a flat
   * part of zero stays zero).
   */
  lemma ClampedFlatFacts(sqrt: real -> real, target: Vec3, up: Vec3,
                         minSpeed: real, maxSpeed: real, smooth: bool, t: real)
    requires IsSqrt(sqrt)
    requires !(minSpeed <= Magnitude(sqrt, target) <= maxSpeed)
    ensures var r := ClampedFlat(sqrt, target, up, minSpeed, maxSpeed, smooth, t);
            var flat := FlatPart(sqrt, target, up);
            var speed := ClampedFlatSpeed(Magnitude(sqrt, flat), minSpeed, maxSpeed, smooth, t);
            DownPart(sqrt, r, up) == DownPart(sqrt, target, up) &&
            FlatPart(sqrt, r, up) == Scale(Normalized(sqrt, flat), speed) &&
            (flat != Zero && 0.0 <= speed ==> Magnitude(sqrt, FlatPart(sqrt, r, up)) == speed)
  {
    var flat := FlatPart(sqrt, target, up);
    var speed := ClampedFlatSpeed(Magnitude(sqrt, flat), minSpeed, maxSpeed, smooth, t);
    var n := Normalized(sqrt, flat);
    FlatDirectionIsFlat(sqrt, target, speed, up);
    FlatDownSplit(sqrt, target, up);
    SplitOfSum(sqrt, Scale(n, speed), DownPart(sqrt, target, up), up);
    if flat != Zero && 0.0 <= speed {
      NormalizedFacts(sqrt, flat);
      UnitMagnitudeScale(sqrt, n, speed);
    }
  }

  /**
   * In hard mode with `0 <= minSpeed <= maxSpeed`, a non-zero flat velocity
   * ends with its speed inside the bounds.
   */
  lemma ClampedFlatHardBounds(sqrt: real -> real, target: Vec3, up: Vec3, minSpeed: real, maxSpeed: real, t: real)
    requires IsSqrt(sqrt)
    requires 0.0 <= minSpeed <= maxSpeed
    requires FlatPart(sqrt, target, up) != Zero
    ensures var r := ClampedFlat(sqrt, target, up, minSpeed, maxSpeed, false, t);
            minSpeed <= Magnitude(sqrt, FlatPart(sqrt, r, up)) <= maxSpeed ||
            r == target
  {
    if !(minSpeed <= Magnitude(sqrt, target) <= maxSpeed) {
      ClampedFlatFacts(sqrt, target, up, minSpeed, maxSpeed, false, t);
    }
  }

  /**
   * `LerpFlatVelocity`: step by `t` of the way from the flat engine velocity
   * to `goal`, clamped to the distance between the target velocity and `goal`.
   */
  function LerpedFlat(sqrt: real -> real, target: Vec3, trueVelocity: Vec3, goal: Vec3, up: Vec3, t: real): (r: Vec3)
    ensures t == 0.0 ==> r == target
    ensures IsSqrt(sqrt) && goal == target ==> r == target
  {
    var delta := Scale(Sub(goal, FlatPart(sqrt, trueVelocity, up)), t);
    var limit := Distance(sqrt, target, goal);
    var step := ClampMagnitude(sqrt, delta, limit);
    NoStep(sqrt, Sub(goal, FlatPart(sqrt, trueVelocity, up)), t, limit);
    ClampAtGoal(sqrt, delta, target);
    AddZero(target);
    Add(target, step)
  }

  /** A zero fraction makes no lerp step. */
  lemma NoStep(sqrt: real -> real, diff: Vec3, t: real, limit: real)
    ensures t == 0.0 ==> ClampMagnitude(sqrt, Scale(diff, t), limit) == Zero
  {
    if t == 0.0 {
      ScaleZero(diff);
      ClampOfZero(sqrt, limit);
    }
  }

  /** Already at the goal, the lerp step is clamped away entirely. */
  lemma ClampAtGoal(sqrt: real -> real, delta: Vec3, target: Vec3)
    ensures IsSqrt(sqrt) ==> ClampMagnitude(sqrt, delta, Distance(sqrt, target, target)) == Zero
  {
    if IsSqrt(sqrt) {
      DistanceToSelf(sqrt, target);
      ClampToNothing(sqrt, delta);
    }
  }

  /** `LerpFlatVelocity` never moves the target further than its distance to `goal`. */
  lemma LerpedFlatStep(sqrt: real -> real, target: Vec3, trueVelocity: Vec3, goal: Vec3, up: Vec3, t: real)
    requires IsSqrt(sqrt)
    ensures Distance(sqrt, LerpedFlat(sqrt, target, trueVelocity, goal, up, t), target)
            <= Distance(sqrt, target, goal)
  {
    var delta := Scale(Sub(goal, FlatPart(sqrt, trueVelocity, up)), t);
    var limit := Distance(sqrt, target, goal);
    var c := ClampMagnitude(sqrt, delta, limit);
    DistanceFacts(sqrt, target, goal);
    ClampMagnitudeBound(sqrt, delta, limit);
    assert Sub(Add(target, c), target) == c;
  }
}
