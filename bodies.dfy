/**
 * The `DGSBody` component: a body whose target velocity is updated in place
 * by the character accelerator, forces, friction and gravity, and handed to
 * the engine's rigid body on each fixed step.
 *
 * The engine's square root is the `sqrt` the body is built with. The local
 * up direction and the gravity magnitude that the gravity resolver reports
 * for this body are passed to the methods that read them, and so is the
 * engine's fixed time step. The ground check is represented by the fields it
 * exposes (`isGrounded`, `storedGrounded`, `timeSinceLastGrounded`) and by
 * the friction of the ground body (`groundFriction`).
 */
module Bodies {
  import opened Maths
  import opened VectorMath
  import opened Masses
  import opened Materials
  import opened BodyMotion

  datatype MotorMode = Static | PID | SimpleCharacter | AdvancedCharacter

  /** Which of the mutually exclusive first-phase updates a fixed step ran. */
  datatype StepBranch = Landed | GroundFriction | Falling | Coasting

  /**
   * The first phase of `FixedUpdate`: landing when grounded now but not
   * before, friction while staying grounded, gravity once airborne for
   * strictly longer than the coyote time, and nothing otherwise.
   */
  function BranchOf(isGrounded: bool, storedGrounded: bool,
                    timeSinceLastGrounded: real, coyoteTime: real): (b: StepBranch)
    ensures b == Landed <==> isGrounded && !storedGrounded
    ensures b == GroundFriction <==> isGrounded && storedGrounded
    ensures b == Falling <==> !isGrounded && timeSinceLastGrounded > coyoteTime
    ensures b == Coasting <==> !isGrounded && timeSinceLastGrounded <= coyoteTime
  {
    if isGrounded then
      if !storedGrounded then Landed else GroundFriction
    else if timeSinceLastGrounded > coyoteTime then Falling
    else Coasting
  }

  /** The target velocity after the first phase of a fixed step. */
  function FirstPhase(sqrt: real -> real, branch: StepBranch, target: Vec3, velocity: Vec3,
                      stored: Vec3, up: Vec3, groundFriction: real,
                      gravityMagnitude: real, fixedDeltaTime: real): Vec3
  {
    match branch
    case Landed => NegatedDown(sqrt, target, velocity, up)
    case GroundFriction =>
      FrictionResult(sqrt, target, AccelerationOf(velocity, stored, fixedDeltaTime),
                     groundFriction, fixedDeltaTime, up)
    case Falling => Add(target, GravityDelta(up, gravityMagnitude, fixedDeltaTime))
    case Coasting => target
  }

  /**
   * The switch of `DGSCharacterAccelerate`: the change of velocity for one
   * call, from the flat engine velocity and the friction-scaled acceleration.
   */
  method AccelerationStep(sqrt: real -> real, initialVelocity: Vec3, wishVelocity: Vec3,
                          physicsTimeInterval: real, accel: real, accelerationMode: AccelerationMode)
    returns (deltaVelocity: Vec3)
    ensures deltaVelocity == AccelerationDelta(sqrt, initialVelocity, wishVelocity, accel,
                                               physicsTimeInterval, accelerationMode)
  {
    var wishDirection := Normalized(sqrt, wishVelocity);
    var wishSpeed := Magnitude(sqrt, wishVelocity);
    match accelerationMode {
      case Basic =>
        var accelSpeed := accel * physicsTimeInterval;
        deltaVelocity := Scale(Sub(wishVelocity, initialVelocity), accelSpeed);
      case Source =>
        var projVel := Dot(initialVelocity, wishDirection);
        var delta := accel * physicsTimeInterval;
        if projVel + delta > wishSpeed {
          delta := wishSpeed - projVel;
        }
        deltaVelocity := Scale(wishDirection, delta);
      case Quake =>
        var initialSpeed := Dot(initialVelocity, wishDirection);
        var addSpeed := wishSpeed - initialSpeed;
        if addSpeed <= 0.0 {
          deltaVelocity := Zero;
          ScaleZero(wishDirection);
        } else {
          var accelerationSpeed := accel * wishSpeed * physicsTimeInterval;
          if accelerationSpeed > addSpeed {
            accelerationSpeed := addSpeed;
          }
          deltaVelocity := Scale(wishDirection, accelerationSpeed);
        }
    }
  }

  /** Flat engine speeds at or below this are rounded away on the ground. */
  const RoundingSpeed: real := 0.01

  /** The inspector default of `m_CoyoteTime`, in seconds. */
  const DefaultCoyoteTime: real := 0.1

  class DGSBody {
    const sqrt: real -> real
    const motorMode: MotorMode
    const mass: DGSMass
    const material: DGSMaterial
    const coyoteTime: real

    /** `m_GlobalTargetVelocity` */
    var targetVelocity: Vec3
    /** `m_StoredVelocity` */
    var storedVelocity: Vec3
    /** The rigid body's `velocity` and `angularVelocity`. */
    var velocity: Vec3
    var angularVelocity: Vec3

    /** What the ground check reports. */
    var isGrounded: bool
    var storedGrounded: bool
    var timeSinceLastGrounded: real
    /** `GetDGSFriction()`: the material friction of the body underfoot. */
    var groundFriction: real

    ghost predicate Valid()
    {
      IsSqrt(sqrt) && mass.mass != 0.0 && 0.0 <= material.friction <= 1.0
    }

    /** `coyoteTime` is the inspector's `m_CoyoteTime`, a value in [0, 1]. */
    constructor(sqrt: real -> real, motorMode: MotorMode, mass: DGSMass, material: DGSMaterial,
                coyoteTime: real)
      requires IsSqrt(sqrt) && mass.mass != 0.0 && 0.0 <= material.friction <= 1.0
      requires 0.0 <= coyoteTime <= 1.0
      ensures Valid()
      ensures this.motorMode == motorMode && this.mass == mass && this.material == material
      ensures this.coyoteTime == coyoteTime
      ensures targetVelocity == Zero && storedVelocity == Zero
      ensures velocity == Zero && angularVelocity == Zero
    {
      this.sqrt := sqrt;
      this.motorMode := motorMode;
      this.mass := mass;
      this.material := material;
      this.coyoteTime := coyoteTime;
      targetVelocity := Zero;
      storedVelocity := Zero;
      velocity := Zero;
      angularVelocity := Zero;
      isGrounded := false;
      storedGrounded := false;
      timeSinceLastGrounded := 0.0;
      groundFriction := 0.0;
    }

    // -------------------------------------------------------------------
    // Getters.
    // -------------------------------------------------------------------

    /** The target velocity with its part along `up` removed: it has no down part, and adds back up with `DownVel`. */
    function FlatVel(up: Vec3): (r: Vec3)
      reads this`targetVelocity
      ensures IsSqrt(sqrt) ==> DownPart(sqrt, r, up) == Zero
      ensures IsSqrt(sqrt) ==> Add(r, DownPart(sqrt, targetVelocity, up)) == targetVelocity
    {
      SplitWhenSqrt(sqrt, targetVelocity, up);
      FlatPart(sqrt, targetVelocity, up)
    }

    /** The target velocity's part along `up`: it has no flat part, and adds back up with `FlatVel`. */
    function DownVel(up: Vec3): (r: Vec3)
      reads this`targetVelocity
      ensures IsSqrt(sqrt) ==> FlatPart(sqrt, r, up) == Zero
      ensures IsSqrt(sqrt) ==> Add(FlatPart(sqrt, targetVelocity, up), r) == targetVelocity
    {
      SplitWhenSqrt(sqrt, targetVelocity, up);
      DownPart(sqrt, targetVelocity, up)
    }

    /** `FlatVel` of the engine velocity. */
    function TrueFlatVel(up: Vec3): (r: Vec3)
      reads this`velocity
      ensures IsSqrt(sqrt) ==> DownPart(sqrt, r, up) == Zero
      ensures IsSqrt(sqrt) ==> Add(r, DownPart(sqrt, velocity, up)) == velocity
    {
      SplitWhenSqrt(sqrt, velocity, up);
      FlatPart(sqrt, velocity, up)
    }

    /** `DownVel` of the engine velocity. */
    function TrueDownVel(up: Vec3): (r: Vec3)
      reads this`velocity
      ensures IsSqrt(sqrt) ==> FlatPart(sqrt, r, up) == Zero
      ensures IsSqrt(sqrt) ==> Add(FlatPart(sqrt, velocity, up), r) == velocity
    {
      SplitWhenSqrt(sqrt, velocity, up);
      DownPart(sqrt, velocity, up)
    }

    /** Zero when the engine velocity has not changed since it was stored, or for a zero step. */
    function Acceleration(fixedDeltaTime: real): (a: Vec3)
      reads this`velocity, this`storedVelocity
      ensures velocity == storedVelocity ==> a == Zero
      ensures fixedDeltaTime == 0.0 ==> a == Zero
    {
      SubZero(velocity, storedVelocity);
      ScaleOfZero(fixedDeltaTime);
      ScaleZero(Sub(velocity, storedVelocity));
      AccelerationOf(velocity, storedVelocity, fixedDeltaTime)
    }

    /** The acceleration after the ground's friction scales it, as `DGSCharacterAccelerate` uses it. */
    function GroundedAcceleration(acceleration: real): real
      reads this`isGrounded, this`groundFriction
    {
      if isGrounded then acceleration * groundFriction else acceleration
    }

    // -------------------------------------------------------------------
    // Operations.
    // -------------------------------------------------------------------

    /** Accelerates the target velocity towards `wishVelocity` and returns it. */
    method DGSCharacterAccelerate(wishVelocity: Vec3, physicsTimeInterval: real, acceleration: real,
                                  accelerationMode: AccelerationMode, up: Vec3) returns (r: Vec3)
      modifies this`targetVelocity
      ensures targetVelocity == Add(old(targetVelocity),
                AccelerationDelta(sqrt, TrueFlatVel(up), wishVelocity,
                                  GroundedAcceleration(acceleration), physicsTimeInterval, accelerationMode))
      ensures r == targetVelocity
    {
      var initialVelocity := TrueFlatVel(up);
      var accel := acceleration;
      if isGrounded {
        accel := accel * groundFriction;
      }
      assert accel == GroundedAcceleration(acceleration);
      var deltaVelocity := AccelerationStep(sqrt, initialVelocity, wishVelocity, physicsTimeInterval,
                                            accel, accelerationMode);
      targetVelocity := Add(targetVelocity, deltaVelocity);
      r := targetVelocity;
    }

    /** Adds a force to the target velocity, interpreted by `forceMode`. */
    method AddForce(force: Vec3, physicsTimeInterval: real, forceMode: ForceMode)
      requires Valid()
      modifies this`targetVelocity
      ensures targetVelocity == Add(old(targetVelocity), AddForceDelta(force, physicsTimeInterval, mass.mass, forceMode))
    {
      match forceMode {
        case Force =>
          targetVelocity := Add(targetVelocity, Div(Scale(force, physicsTimeInterval), mass.mass));
        case Acceleration =>
          targetVelocity := Add(targetVelocity, Scale(force, physicsTimeInterval));
        case Impulse =>
          targetVelocity := Add(targetVelocity, Div(force, mass.mass));
        case VelocityChange =>
          targetVelocity := Add(targetVelocity, force);
      }
      targetVelocity := Add(targetVelocity, Div(Scale(force, physicsTimeInterval), mass.mass));
    }

    /** Adds a torque to the angular velocity, interpreted by `torqueMode`; nothing else changes. */
    method AddTorque(torque: Vec3, physicsTimeInterval: real, torqueMode: ForceMode)
      requires Valid()
      modifies this`angularVelocity
      ensures angularVelocity == Add(old(angularVelocity), ForceModeDelta(torque, physicsTimeInterval, mass.mass, torqueMode))
    {
      match torqueMode {
        case Force =>
          angularVelocity := Add(angularVelocity, Div(Scale(torque, physicsTimeInterval), mass.mass));
        case Acceleration =>
          angularVelocity := Add(angularVelocity, Scale(torque, physicsTimeInterval));
        case Impulse =>
          angularVelocity := Add(angularVelocity, Div(torque, mass.mass));
        case VelocityChange =>
          angularVelocity := Add(angularVelocity, torque);
      }
    }

    /** Pulls the target velocity along `-up` by `gravityMagnitude * dt`, exactly. */
    method Gravity(physicsTimeInterval: real, gravityMagnitude: real, up: Vec3)
      requires Valid()
      modifies this`targetVelocity
      ensures targetVelocity == Add(old(targetVelocity), GravityDelta(up, gravityMagnitude, physicsTimeInterval))
    {
      var force := Scale(Neg(up), gravityMagnitude * physicsTimeInterval);
      AddForceInstant(force, mass.mass, VelocityChange);
      AddForce(force, 0.0, VelocityChange);
    }

    method Friction(friction: real, physicsTimeInterval: real, fixedDeltaTime: real, up: Vec3)
      modifies this`targetVelocity
      ensures targetVelocity == FrictionResult(sqrt, old(targetVelocity), Acceleration(fixedDeltaTime),
                                               friction, physicsTimeInterval, up)
    {
      if Dot(targetVelocity, Acceleration(fixedDeltaTime)) < 0.0 {
        targetVelocity := Add(targetVelocity,
          Scale(Scale(Neg(Normalized(sqrt, FlatVel(up))), friction), physicsTimeInterval));
      }
    }

    /**
     * Drops the target's down part when the engine velocity has any down
     * speed; returns the engine's down speed minus the target's new one.
     */
    method NegateDownVelocity(up: Vec3) returns (r: real)
      modifies this`targetVelocity
      ensures targetVelocity == NegatedDown(sqrt, old(targetVelocity), velocity, up)
      ensures r == Magnitude(sqrt, TrueDownVel(up)) - Magnitude(sqrt, DownVel(up))
    {
      var downSpeed := Magnitude(sqrt, TrueDownVel(up));
      if downSpeed > 0.0 {
        targetVelocity := NegateDirection(sqrt, targetVelocity, Neg(up));
      }
      r := downSpeed - Magnitude(sqrt, DownVel(up));
    }

    /** Keeps only the target's down part; returns the new target speed. */
    method IsolateDownVelocity(up: Vec3) returns (r: real)
      modifies this`targetVelocity
      ensures targetVelocity == DownPart(sqrt, old(targetVelocity), up)
      ensures r == Magnitude(sqrt, targetVelocity)
    {
      targetVelocity := IsolateDirection(sqrt, targetVelocity, Neg(up));
      r := Magnitude(sqrt, targetVelocity);
    }

    method ClampFlatVelocity(minSpeed: real, maxSpeed: real, smooth: bool, physicsTimeInterval: real, up: Vec3)
      modifies this`targetVelocity
      ensures targetVelocity == ClampedFlat(sqrt, old(targetVelocity), up, minSpeed, maxSpeed, smooth, physicsTimeInterval)
    {
      if Magnitude(sqrt, targetVelocity) <= maxSpeed && Magnitude(sqrt, targetVelocity) >= minSpeed {
        return;
      }
      var flatSpeed := Magnitude(sqrt, FlatVel(up));
      var speed: real;
      if smooth {
        speed := Lerp(flatSpeed,
                      if Abs(minSpeed - flatSpeed) < Abs(maxSpeed - flatSpeed) then minSpeed else maxSpeed,
                      physicsTimeInterval);
      } else {
        speed := Clamp(flatSpeed, minSpeed, maxSpeed);
      }
      targetVelocity := Add(Scale(Normalized(sqrt, FlatVel(up)), speed), DownVel(up));
    }

    method LerpFlatVelocity(goal: Vec3, t: real, up: Vec3)
      modifies this`targetVelocity
      ensures targetVelocity == LerpedFlat(sqrt, old(targetVelocity), velocity, goal, up, t)
    {
      var init := targetVelocity;
      var delta := Scale(Sub(goal, TrueFlatVel(up)), t);
      targetVelocity := Add(targetVelocity, ClampMagnitude(sqrt, delta, Distance(sqrt, init, goal)));
    }

    /**
     * One physics step: the first phase (landing, friction, gravity or
     * nothing), then in `AdvancedCharacter` mode the hand-off of the target
     * velocity to the engine and the rounding of a near-still grounded body,
     * then caching of the engine velocity.
     */
    method FixedUpdate(up: Vec3, gravityMagnitude: real, fixedDeltaTime: real) returns (branch: StepBranch)
      requires Valid()
      modifies this`targetVelocity, this`velocity, this`storedVelocity
      ensures branch == BranchOf(isGrounded, storedGrounded, timeSinceLastGrounded, coyoteTime)
      ensures var mid := FirstPhase(sqrt, branch, old(targetVelocity), old(velocity), old(storedVelocity),
                                    up, groundFriction, gravityMagnitude, fixedDeltaTime);
              if motorMode == AdvancedCharacter then
                velocity == mid &&
                targetVelocity == (if isGrounded && Magnitude(sqrt, FlatPart(sqrt, mid, up)) <= RoundingSpeed
                                   then DownPart(sqrt, mid, up) else mid)
              else
                velocity == old(velocity) && targetVelocity == mid
      ensures storedVelocity == velocity
    {
      branch := BranchOf(isGrounded, storedGrounded, timeSinceLastGrounded, coyoteTime);
      if isGrounded {
        if !storedGrounded {
          var _ := NegateDownVelocity(up);
        } else {
          Friction(groundFriction, fixedDeltaTime, fixedDeltaTime, up);
        }
      } else {
        if timeSinceLastGrounded > coyoteTime {
          Gravity(fixedDeltaTime, gravityMagnitude, up);
        }
      }
      if motorMode == AdvancedCharacter {
        velocity := targetVelocity;
        if isGrounded && Magnitude(sqrt, TrueFlatVel(up)) <= RoundingSpeed {
          var _ := IsolateDownVelocity(up);
        }
      }
      storedVelocity := velocity;
    }
  }
}
