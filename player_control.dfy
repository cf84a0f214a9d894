/**
 * `DGSPlayerController`: the movement policy layered on a `DGSBody`. Each
 * frame it clamps the movement input, picks ground movement, plain air
 * movement or air control, and may jump.
 *
 * The facing vectors (`transform.right`, `transform.forward`), the up
 * direction, the frame time, the jump velocity and the angle that
 * `Vector3.Angle` measures between the body's flat velocity and the wish
 * direction are parameters: they come from the engine and from code that is
 * not part of this model.
 */
module PlayerControl {
  import opened Maths
  import opened VectorMath
  import opened BodyMotion
  import opened Bodies

  datatype MovementSettings = MovementSettings(maxSpeed: real, acceleration: real, deceleration: real)

  /** The inspector defaults of the controller's settings. */
  const DefaultAirControl: real := 0.3
  const DefaultGroundAccelerationMode: AccelerationMode := Basic
  const DefaultAirAccelerationMode: AccelerationMode := Source
  const DefaultGroundSettings: MovementSettings := MovementSettings(7.0, 14.0, 10.0)
  const DefaultAirSettings: MovementSettings := MovementSettings(7.0, 2.0, 2.0)
  const DefaultStrafeSettings: MovementSettings := MovementSettings(1.0, 50.0, 50.0)

  /** The half-width of the strafe window is half of this many degrees. */
  function AirStrafeAngle(airControl: real): (s: real)
    ensures 0.0 <= airControl <= 1.0 ==> 0.0 <= s <= 5.0
    ensures s == 0.0 <==> airControl == 1.0
    ensures airControl == DefaultAirControl ==> s == 3.5
  {
    5.0 * (1.0 - airControl)
  }

  /** More air control narrows the strafe window. */
  lemma AirStrafeAngleDecreasing(a1: real, a2: real)
    requires a1 <= a2
    ensures AirStrafeAngle(a2) <= AirStrafeAngle(a1)
  {}

  // ---------------------------------------------------------------------
  // Input.
  // ---------------------------------------------------------------------

  /** `Update`'s input clamp: an input longer than 1 is normalized, any other is kept. */
  function ClampInput(sqrt: real -> real, inputs: Vec2): (r: Vec2)
    ensures Magnitude2(sqrt, inputs) <= 1.0 ==> r == inputs
  {
    if Magnitude2(sqrt, inputs) > 1.0 then Normalized2(sqrt, inputs) else inputs
  }

  /** The clamped input never exceeds length 1, and is exactly 1 long when it was clamped. */
  lemma ClampInputFacts(sqrt: real -> real, inputs: Vec2)
    requires IsSqrt(sqrt)
    ensures Magnitude2(sqrt, ClampInput(sqrt, inputs)) <= 1.0
    ensures Magnitude2(sqrt, inputs) > 1.0 ==> Magnitude2(sqrt, ClampInput(sqrt, inputs)) == 1.0
    ensures ClampInput(sqrt, ClampInput(sqrt, inputs)) == ClampInput(sqrt, inputs)
  {
    if Magnitude2(sqrt, inputs) > 1.0 {
      Magnitude2Facts(sqrt, inputs);
      Normalized2Facts(sqrt, inputs);
    }
  }

  /** The world-space direction the input asks for: `x` along `right`, `y` along `forward`. */
  function WishDirection(inputs: Vec2, right: Vec3, forward: Vec3): (w: Vec3)
    ensures inputs == Zero2 ==> w == Zero
  {
    Add(Scale(right, inputs.x), Scale(forward, inputs.y))
  }

  /** Facing vectors of unit length at right angles to each other. */
  predicate Orthonormal(right: Vec3, forward: Vec3)
  {
    Dot(right, right) == 1.0 && Dot(forward, forward) == 1.0 && Dot(right, forward) == 0.0
  }

  /** With orthonormal facing vectors the wish direction is exactly as long as the input. */
  lemma WishDirectionMagnitude(sqrt: real -> real, inputs: Vec2, right: Vec3, forward: Vec3)
    requires Orthonormal(right, forward)
    ensures Dot(WishDirection(inputs, right, forward), WishDirection(inputs, right, forward)) == Dot2(inputs, inputs)
    ensures Magnitude(sqrt, WishDirection(inputs, right, forward)) == Magnitude2(sqrt, inputs)
  {
    var a := Scale(right, inputs.x);
    var b := Scale(forward, inputs.y);
    DotExpand(a, b);
    DotScaleBoth(right, inputs.x);
    DotScaleBoth(forward, inputs.y);
    CrossTermZero(right, forward, inputs.x, inputs.y);
  }

  lemma CrossTermZero(right: Vec3, forward: Vec3, x: real, y: real)
    requires Dot(right, forward) == 0.0
    ensures Dot(Scale(right, x), Scale(forward, y)) == 0.0
  {
    DotScaleLeft(right, x, Scale(forward, y));
    assert Dot(right, Scale(forward, y)) == y * Dot(right, forward);
  }

  /** With orthonormal facing vectors the wish direction is zero only for a zero input. */
  lemma WishDirectionZero(sqrt: real -> real, inputs: Vec2, right: Vec3, forward: Vec3)
    requires IsSqrt(sqrt)
    requires Orthonormal(right, forward)
    ensures Magnitude(sqrt, WishDirection(inputs, right, forward)) == 0.0 <==> inputs == Zero2
  {
    WishDirectionMagnitude(sqrt, inputs, right, forward);
    Magnitude2Facts(sqrt, inputs);
  }

  // ---------------------------------------------------------------------
  // Strafing.
  // ---------------------------------------------------------------------

  /**
   * `CanStrafe`: exactly one input axis is in use, the wish direction is
   * not zero, and `angle` (between the target's flat velocity and the wish
   * direction) lies strictly inside 90 degrees plus or minus half the air
   * strafe angle.
   */
  function CanStrafe(sqrt: real -> real, inputs: Vec2, right: Vec3, forward: Vec3,
                     angle: real, airControl: real): (b: bool)
    ensures Magnitude(sqrt, WishDirection(inputs, right, forward)) == 0.0 ==> !b
    ensures inputs.x != 0.0 && inputs.y != 0.0 ==> !b
    ensures b ==> 90.0 - AirStrafeAngle(airControl) * 0.5 < angle < 90.0 + AirStrafeAngle(airControl) * 0.5
  {
    if Magnitude(sqrt, WishDirection(inputs, right, forward)) == 0.0 || (inputs.x != 0.0 && inputs.y != 0.0) then
      false
    else
      var min := 90.0 - AirStrafeAngle(airControl) * 0.5;
      var max := 90.0 + AirStrafeAngle(airControl) * 0.5;
      angle < max && angle > min
  }

  /** Conversely, a single-axis non-zero input at an angle inside the window can strafe. */
  lemma CanStrafeInsideWindow(sqrt: real -> real, inputs: Vec2, right: Vec3, forward: Vec3,
                              angle: real, airControl: real)
    requires Magnitude(sqrt, WishDirection(inputs, right, forward)) != 0.0
    requires inputs.x == 0.0 || inputs.y == 0.0
    requires 90.0 - AirStrafeAngle(airControl) * 0.5 < angle < 90.0 + AirStrafeAngle(airControl) * 0.5
    ensures CanStrafe(sqrt, inputs, right, forward, angle, airControl)
  {}

  /** Full air control closes the window: strafing never happens. */
  lemma NoStrafeWithFullAirControl(sqrt: real -> real, inputs: Vec2, right: Vec3, forward: Vec3, angle: real)
    ensures !CanStrafe(sqrt, inputs, right, forward, angle, 1.0)
  {
    var b := CanStrafe(sqrt, inputs, right, forward, angle, 1.0);
    assert AirStrafeAngle(1.0) == 0.0;
  }

  /** With air control in [0, 1], strafing needs an angle strictly between 87.5 and 92.5 degrees. */
  lemma StrafeWindowBounds(sqrt: real -> real, inputs: Vec2, right: Vec3, forward: Vec3,
                           angle: real, airControl: real)
    requires 0.0 <= airControl <= 1.0
    requires CanStrafe(sqrt, inputs, right, forward, angle, airControl)
    ensures 87.5 < angle < 92.5
  {
    assert AirStrafeAngle(airControl) <= 5.0;
  }

  /** With air control below 1, a single-axis input at exactly a right angle can strafe. */
  lemma StrafeAtRightAngle(sqrt: real -> real, inputs: Vec2, right: Vec3, forward: Vec3, airControl: real)
    requires IsSqrt(sqrt)
    requires Orthonormal(right, forward)
    requires inputs != Zero2 && (inputs.x == 0.0 || inputs.y == 0.0)
    requires airControl < 1.0
    ensures CanStrafe(sqrt, inputs, right, forward, 90.0, airControl)
  {
    WishDirectionZero(sqrt, inputs, right, forward);
  }

  // ---------------------------------------------------------------------
  // Movement rates.
  // ---------------------------------------------------------------------

  /** The speed a move aims for: the wish direction's length times the settings' maximum speed. */
  function WishSpeed(sqrt: real -> real, wish: Vec3, settings: MovementSettings): real
  {
    Magnitude(sqrt, wish) * settings.maxSpeed
  }

  /** The rate a move uses: deceleration when working against the current motion, else acceleration. */
  function Rate(settings: MovementSettings, opposing: bool): real
  {
    if opposing then settings.deceleration else settings.acceleration
  }

  /** How well the flat velocity lines up with the wish direction: the dot product of the two directions. */
  function Congruence(sqrt: real -> real, flatVel: Vec3, wish: Vec3): real
  {
    Dot(Normalized(sqrt, flatVel), Normalized(sqrt, wish))
  }

  /** The congruence always lies in [-1, 1]. */
  lemma CongruenceBounds(sqrt: real -> real, flatVel: Vec3, wish: Vec3)
    requires IsSqrt(sqrt)
    ensures -1.0 <= Congruence(sqrt, flatVel, wish) <= 1.0
  {
    NormalizedDotBounds(sqrt, flatVel, wish);
  }

  /**
   * `AirMove`'s wish speed and rate: the air settings, with deceleration
   * when the congruence is negative; when strafing, the speed is capped at
   * the strafe maximum and the rate is the strafe acceleration.
   */
  function AirMoveSpeedAndRate(sqrt: real -> real, flatVel: Vec3, wish: Vec3, strafing: bool,
                               air: MovementSettings, strafe: MovementSettings): (p: (real, real))
    ensures !strafing ==> p.0 == Magnitude(sqrt, wish) * air.maxSpeed
    ensures !strafing ==> (p.1 == air.deceleration <==> Congruence(sqrt, flatVel, wish) < 0.0 || air.deceleration == air.acceleration)
    ensures !strafing ==>
              p.1 == (if Congruence(sqrt, flatVel, wish) < 0.0 then air.deceleration else air.acceleration)
    ensures strafing ==> p.0 <= strafe.maxSpeed && p.0 <= Magnitude(sqrt, wish) * air.maxSpeed
    ensures strafing ==> p.0 == Min(Magnitude(sqrt, wish) * air.maxSpeed, strafe.maxSpeed)
    ensures strafing ==> p.1 == strafe.acceleration
  {
    var wishSpeed := WishSpeed(sqrt, wish, air);
    var accel := Rate(air, Congruence(sqrt, flatVel, wish) < 0.0);
    if strafing then
      (if wishSpeed > strafe.maxSpeed then strafe.maxSpeed else wishSpeed, strafe.acceleration)
    else (wishSpeed, accel)
  }

  /**
   * The velocity change `AirControl` builds before scaling it by the air
   * control and the time step. `speed` is the target's flat speed, `flatVel`
   * the true flat velocity and `angle` the angle between their directions.
   */
  function AirControlDelta(sqrt: real -> real, speed: real, flatVel: Vec3, wish: Vec3, airControl: real,
                           air: MovementSettings, physicsTimeInterval: real, angle: real): (delta: Vec3)
    ensures airControl != 1.0 && 0.0 <= Congruence(sqrt, flatVel, wish) ==> delta == Zero
    ensures airControl == 1.0 ==>
              delta == Scale(Sub(Scale(wish, Magnitude(sqrt, wish) * Min(speed, air.maxSpeed)), flatVel),
                             Rate(air, Congruence(sqrt, flatVel, wish) < 0.0))
  {
    var congruent := Congruence(sqrt, flatVel, wish);
    var wishSpeed := Magnitude(sqrt, wish) * Min(speed, air.maxSpeed);
    var accel := Rate(air, congruent < 0.0);
    var k := ReversalBoost(airControl, congruent, physicsTimeInterval);
    if airControl == 1.0 then
      Scale(Sub(Scale(wish, wishSpeed), flatVel), accel)
    else if congruent < -0.975 then
      Scale(Sub(Scale(wish, wishSpeed), flatVel), accel * k)
    else if congruent < 0.0 then
      var error := 1.0 + angle / 45.0;
      var n := Normalized(sqrt, wish);
      var d := Vec3(n.x * (wishSpeed + wish.x * k), n.y * (wishSpeed + wish.y * k), n.z * (wishSpeed + wish.z * k));
      Scale(Normalized(sqrt, d), error * Magnitude(sqrt, wish) * wishSpeed * k)
    else
      Zero
  }

  /** `AirControl`'s secondary acceleration factor `k`, which grows with the air control and the congruence. */
  function ReversalBoost(airControl: real, congruent: real, physicsTimeInterval: real): real
  {
    64.0 * airControl * Sq(congruent) * physicsTimeInterval + 1.0
  }

  /**
   * When the wish direction nearly reverses the flat velocity, `AirControl`
   * makes the same change as full air control would, boosted by a factor of
   * at least 1.
   */
  lemma AirControlReversal(sqrt: real -> real, speed: real, flatVel: Vec3, wish: Vec3, airControl: real,
                           air: MovementSettings, physicsTimeInterval: real, angle: real)
    requires 0.0 <= airControl < 1.0 && 0.0 <= physicsTimeInterval
    requires Congruence(sqrt, flatVel, wish) < -0.975
    ensures var k := ReversalBoost(airControl, Congruence(sqrt, flatVel, wish), physicsTimeInterval);
            1.0 <= k &&
            AirControlDelta(sqrt, speed, flatVel, wish, airControl, air, physicsTimeInterval, angle) ==
            Scale(AirControlDelta(sqrt, speed, flatVel, wish, 1.0, air, physicsTimeInterval, angle), k)
  {
    var c := Congruence(sqrt, flatVel, wish);
    var k := ReversalBoost(airControl, c, physicsTimeInterval);
    SqSign(c);
    MulNonNeg(64.0 * airControl, Sq(c));
    MulNonNeg(64.0 * airControl * Sq(c), physicsTimeInterval);
    var full := Sub(Scale(wish, Magnitude(sqrt, wish) * Min(speed, air.maxSpeed)), flatVel);
    ScaleScale(full, Rate(air, c < 0.0), k);
  }

  /** A zero wish direction: nothing opposes it and any wish speed along it is zero. */
  lemma NoWish(target: Vec3, wish: Vec3, wishSpeed: real)
    requires wish == Zero
    ensures Dot(target, wish) == 0.0 && Scale(wish, wishSpeed) == Zero
  {}

  /** Basic acceleration towards a standstill takes `flat * a * dt` off the target. */
  lemma BasicBrake(sqrt: real -> real, target: Vec3, flat: Vec3, wishSpeed: real, a: real, dt: real)
    ensures Add(target, AccelerationDelta(sqrt, flat, Scale(Zero, wishSpeed), a, dt, Basic)) ==
            Sub(target, Scale(flat, a * dt))
  {
    assert Scale(Zero, wishSpeed) == Zero;
  }

  /** A zero force added as a velocity change leaves the target velocity as it was. */
  lemma AddForceOfZero(c: real, dt: real, m: real)
    requires m != 0.0
    ensures AddForceDelta(Scale(Zero, c), dt, m, VelocityChange) == Zero
  {
    assert Scale(Zero, c) == Zero;
    assert Scale(Zero, dt) == Zero;
    assert Div(Zero, m) == Zero;
  }

  /**
   * What a jump does to the target velocity when the engine velocity has a
   * component along the up line (rising or falling): the flat part is kept
   * and the part along `up` becomes exactly the jump velocity along `up`.
   */
  lemma JumpWithVerticalSpeed(sqrt: real -> real, target: Vec3, trueVelocity: Vec3, up: Vec3, jumpVelocity: real)
    requires IsSqrt(sqrt)
    requires Magnitude(sqrt, DownPart(sqrt, trueVelocity, up)) > 0.0
    ensures var r := Add(NegatedDown(sqrt, target, trueVelocity, up), Scale(up, jumpVelocity));
            FlatPart(sqrt, r, up) == FlatPart(sqrt, target, up) &&
            DownPart(sqrt, r, up) == Scale(up, jumpVelocity)
  {
    var n := NegatedDown(sqrt, target, trueVelocity, up);
    NegatedDownFacts(sqrt, target, trueVelocity, up);
    NegateAlongOwnLine(sqrt, up, jumpVelocity);
    SplitOfSum(sqrt, n, Scale(up, jumpVelocity), up);
    FlatDownSplit(sqrt, n, up);
    assert Add(FlatPart(sqrt, n, up), Zero) == FlatPart(sqrt, n, up);
  }

  /** A jump when the engine velocity has no component along the up line simply adds the jump velocity along `up`. */
  lemma JumpWithoutVerticalSpeed(sqrt: real -> real, target: Vec3, trueVelocity: Vec3, up: Vec3, jumpVelocity: real)
    requires Magnitude(sqrt, DownPart(sqrt, trueVelocity, up)) <= 0.0
    ensures Add(NegatedDown(sqrt, target, trueVelocity, up), Scale(up, jumpVelocity)) == Add(target, Scale(up, jumpVelocity))
  {}

  // ---------------------------------------------------------------------
  // The controller.
  // ---------------------------------------------------------------------

  class DGSPlayerController {
    const body: DGSBody
    const airControl: real
    const groundAccelerationMode: AccelerationMode
    const airAccelerationMode: AccelerationMode
    const groundSettings: MovementSettings
    const airSettings: MovementSettings
    const strafeSettings: MovementSettings

    var movementInputs: Vec2
    /** How many times `JumpAbility.Use` has been called. */
    var jumpsUsed: nat

    ghost predicate Valid()
    {
      body.Valid() && 0.0 <= airControl <= 1.0
    }

    /**
     * The settings are the inspector's: `airControl` is a value in [0, 1];
     * the `Default...` constants hold the values a new component starts with.
     */
    constructor(body: DGSBody, airControl: real,
                groundAccelerationMode: AccelerationMode, airAccelerationMode: AccelerationMode,
                groundSettings: MovementSettings, airSettings: MovementSettings,
                strafeSettings: MovementSettings)
      requires body.Valid()
      requires 0.0 <= airControl <= 1.0
      ensures Valid()
      ensures this.body == body
      ensures this.airControl == airControl
      ensures this.groundAccelerationMode == groundAccelerationMode
      ensures this.airAccelerationMode == airAccelerationMode
      ensures this.groundSettings == groundSettings && this.airSettings == airSettings
      ensures this.strafeSettings == strafeSettings
      ensures movementInputs == Zero2 && jumpsUsed == 0
    {
      this.body := body;
      this.airControl := airControl;
      this.groundAccelerationMode := groundAccelerationMode;
      this.airAccelerationMode := airAccelerationMode;
      this.groundSettings := groundSettings;
      this.airSettings := airSettings;
      this.strafeSettings := strafeSettings;
      movementInputs := Zero2;
      jumpsUsed := 0;
    }

    function Wish(right: Vec3, forward: Vec3): Vec3
      reads this`movementInputs
    {
      WishDirection(movementInputs, right, forward)
    }

    /** `CanStrafe()` for the current input; `angle` is measured from the target's flat velocity. */
    predicate CanStrafeNow(right: Vec3, forward: Vec3, angle: real)
      reads this`movementInputs
    {
      CanStrafe(body.sqrt, movementInputs, right, forward, angle, airControl)
    }

    /** The target velocity `GroundMove` produces. */
    function GroundMoveTarget(physicsTimeInterval: real, right: Vec3, forward: Vec3, up: Vec3): Vec3
      reads this`movementInputs, body`targetVelocity, body`velocity, body`isGrounded, body`groundFriction
    {
      var wish := Wish(right, forward);
      var wishSpeed := WishSpeed(body.sqrt, wish, groundSettings);
      var accel := Rate(groundSettings, Dot(body.targetVelocity, wish) < 0.0);
      Add(body.targetVelocity,
          AccelerationDelta(body.sqrt, body.TrueFlatVel(up), Scale(wish, wishSpeed),
                            body.GroundedAcceleration(accel), physicsTimeInterval, groundAccelerationMode))
    }

    /** The target velocity `AirMove` produces, strafing or not. */
    function AirMoveTarget(physicsTimeInterval: real, right: Vec3, forward: Vec3, up: Vec3, strafing: bool): Vec3
      reads this`movementInputs, body`targetVelocity, body`velocity, body`isGrounded, body`groundFriction
    {
      var wish := Wish(right, forward);
      var p := AirMoveSpeedAndRate(body.sqrt, body.TrueFlatVel(up), wish, strafing, airSettings, strafeSettings);
      Add(body.targetVelocity,
          AccelerationDelta(body.sqrt, body.TrueFlatVel(up), Scale(wish, p.0),
                            body.GroundedAcceleration(p.1), physicsTimeInterval, airAccelerationMode))
    }

    /** The target velocity `AirControl` produces; `angle` is measured from the true flat velocity. */
    function AirControlTarget(physicsTimeInterval: real, right: Vec3, forward: Vec3, up: Vec3, angle: real): Vec3
      requires body.Valid()
      reads this`movementInputs, body`targetVelocity, body`velocity
    {
      var delta := AirControlDelta(body.sqrt, Magnitude(body.sqrt, body.FlatVel(up)), body.TrueFlatVel(up),
                                   Wish(right, forward), airControl, airSettings, physicsTimeInterval, angle);
      Add(body.targetVelocity,
          AddForceDelta(Scale(delta, airControl * physicsTimeInterval), physicsTimeInterval, body.mass.mass, VelocityChange))
    }

    /** The input-gathering part of `Update`: stores the clamped movement input. */
    method GatherMovementInputs(horizontal: real, vertical: real)
      modifies this`movementInputs
      ensures movementInputs == ClampInput(body.sqrt, Vec2(horizontal, vertical))
    {
      movementInputs := Vec2(horizontal, vertical);
      if Magnitude2(body.sqrt, movementInputs) > 1.0 {
        movementInputs := Normalized2(body.sqrt, movementInputs);
      }
    }

    method GroundMove(physicsTimeInterval: real, right: Vec3, forward: Vec3, up: Vec3)
      modifies body`targetVelocity
      ensures body.targetVelocity == old(GroundMoveTarget(physicsTimeInterval, right, forward, up))
    {
      var wish := WishDirection(movementInputs, right, forward);
      var wishSpeed := WishSpeed(body.sqrt, wish, groundSettings);
      var accel := if Dot(body.targetVelocity, wish) < 0.0 then groundSettings.deceleration
                   else groundSettings.acceleration;
      var _ := body.DGSCharacterAccelerate(Scale(wish, wishSpeed), physicsTimeInterval, accel,
                                           groundAccelerationMode, up);
    }

    /**
     * With no input, `GroundMove` in `Basic` mode brakes: the flat engine
     * velocity is taken off at the (friction-scaled) acceleration rate.
     */
    lemma GroundMoveBrakes(physicsTimeInterval: real, right: Vec3, forward: Vec3, up: Vec3)
      requires movementInputs == Zero2
      requires groundAccelerationMode == Basic
      ensures GroundMoveTarget(physicsTimeInterval, right, forward, up) ==
              Sub(body.targetVelocity,
                  Scale(body.TrueFlatVel(up), body.GroundedAcceleration(groundSettings.acceleration) * physicsTimeInterval))
    {
      var wish := Wish(right, forward);
      NoWish(body.targetVelocity, wish, WishSpeed(body.sqrt, wish, groundSettings));
      assert Rate(groundSettings, Dot(body.targetVelocity, wish) < 0.0) == groundSettings.acceleration;
      BasicBrake(body.sqrt, body.targetVelocity, body.TrueFlatVel(up), WishSpeed(body.sqrt, wish, groundSettings),
                 body.GroundedAcceleration(groundSettings.acceleration), physicsTimeInterval);
    }

    /** With no input, `GroundMove` in `Source` or `Quake` mode leaves the target velocity alone. */
    lemma GroundMoveIdle(physicsTimeInterval: real, right: Vec3, forward: Vec3, up: Vec3)
      requires IsSqrt(body.sqrt)
      requires movementInputs == Zero2
      requires groundAccelerationMode != Basic
      ensures GroundMoveTarget(physicsTimeInterval, right, forward, up) == body.targetVelocity
    {
      var wish := Wish(right, forward);
      NoWish(body.targetVelocity, wish, WishSpeed(body.sqrt, wish, groundSettings));
      AccelerationZeroWish(body.sqrt, body.TrueFlatVel(up), body.GroundedAcceleration(groundSettings.acceleration),
                           physicsTimeInterval, groundAccelerationMode);
      AddZero(body.targetVelocity);
    }

    /** `strafeAngle` is the angle `CanStrafe` measures, from the target's flat velocity. */
    method AirMove(physicsTimeInterval: real, right: Vec3, forward: Vec3, up: Vec3, strafeAngle: real)
      modifies body`targetVelocity
      ensures body.targetVelocity ==
              old(AirMoveTarget(physicsTimeInterval, right, forward, up, CanStrafeNow(right, forward, strafeAngle)))
    {
      var flatVel := body.TrueFlatVel(up);
      var wish := WishDirection(movementInputs, right, forward);
      var congruent := Congruence(body.sqrt, flatVel, wish);
      var wishSpeed := WishSpeed(body.sqrt, wish, airSettings);
      var accel := if congruent < 0.0 then airSettings.deceleration else airSettings.acceleration;
      var strafing := CanStrafe(body.sqrt, movementInputs, right, forward, strafeAngle, airControl);
      if strafing {
        if wishSpeed > strafeSettings.maxSpeed {
          wishSpeed := strafeSettings.maxSpeed;
        }
        accel := strafeSettings.acceleration;
      }
      assert (wishSpeed, accel) == AirMoveSpeedAndRate(body.sqrt, flatVel, wish, strafing, airSettings, strafeSettings);
      var _ := body.DGSCharacterAccelerate(Scale(wish, wishSpeed), physicsTimeInterval, accel,
                                           airAccelerationMode, up);
    }

    /** `angle` is the angle between the true flat velocity and the wish direction. */
    method AirControl(physicsTimeInterval: real, right: Vec3, forward: Vec3, up: Vec3, angle: real)
      requires Valid()
      modifies body`targetVelocity
      ensures body.targetVelocity == old(AirControlTarget(physicsTimeInterval, right, forward, up, angle))
      ensures airControl != 1.0 && 0.0 <= old(Congruence(body.sqrt, body.TrueFlatVel(up), Wish(right, forward))) ==>
                body.targetVelocity == old(body.targetVelocity)
    {
      var speed := Magnitude(body.sqrt, body.FlatVel(up));
      var flatVel := body.TrueFlatVel(up);
      var wish := WishDirection(movementInputs, right, forward);
      var congruent := Congruence(body.sqrt, flatVel, wish);
      var delta := AirControlDelta(body.sqrt, speed, flatVel, wish, airControl, airSettings,
                                   physicsTimeInterval, angle);
      if airControl != 1.0 && 0.0 <= congruent {
        AddForceOfZero(airControl * physicsTimeInterval, physicsTimeInterval, body.mass.mass);
      }
      body.AddForce(Scale(delta, airControl * physicsTimeInterval), physicsTimeInterval, VelocityChange);
    }

    /**
     * The movement part of `Update`: ground movement when grounded; in the
     * air, `AirMove` unless `CanStrafe()` holds, then `AirControl`. So
     * `AirMove` always runs here with its strafe branch off.
     */
    method Move(physicsTimeInterval: real, right: Vec3, forward: Vec3, up: Vec3,
                strafeAngle: real, controlAngle: real)
      requires Valid()
      modifies body`targetVelocity
      ensures old(body.isGrounded) ==>
                body.targetVelocity == old(GroundMoveTarget(physicsTimeInterval, right, forward, up))
      ensures !old(body.isGrounded) && !old(CanStrafeNow(right, forward, strafeAngle)) ==>
                body.targetVelocity == old(AirMoveTarget(physicsTimeInterval, right, forward, up, false))
      ensures !old(body.isGrounded) && old(CanStrafeNow(right, forward, strafeAngle)) ==>
                body.targetVelocity == old(AirControlTarget(physicsTimeInterval, right, forward, up, controlAngle))
    {
      if body.isGrounded {
        GroundMove(physicsTimeInterval, right, forward, up);
      } else if !CanStrafe(body.sqrt, movementInputs, right, forward, strafeAngle, airControl) {
        AirMove(physicsTimeInterval, right, forward, up, strafeAngle);
      } else {
        AirControl(physicsTimeInterval, right, forward, up, controlAngle);
      }
    }

    /**
     * `DoJump`: first the down velocity is negated, then `jumpVelocity`
     * along `up` is added as an instant velocity change, then a jump is
     * used up.
     */
    method DoJump(up: Vec3, jumpVelocity: real)
      requires Valid()
      modifies body`targetVelocity, this`jumpsUsed
      ensures body.targetVelocity ==
              Add(NegatedDown(body.sqrt, old(body.targetVelocity), body.velocity, up), Scale(up, jumpVelocity))
      ensures jumpsUsed == old(jumpsUsed) + 1
    {
      var _ := body.NegateDownVelocity(up);
      AddForceInstant(Scale(up, jumpVelocity), body.mass.mass, VelocityChange);
      body.AddForce(Scale(up, jumpVelocity), 0.0, VelocityChange);
      jumpsUsed := jumpsUsed + 1;
    }
  }
}
