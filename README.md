# Dynamic Gravity System — a verified model

This project models the core of the Dynamic Gravity System, a Unity layer
for gravity and character movement:

- **`DGSBody`** (`bodies.dfy`, `body_motion.dfy`): a body whose target velocity
  is updated in place. The class `Bodies.DGSBody` holds the target, stored,
  engine and angular velocities and what the ground check reports. Its
  methods follow the C# methods statement by statement:
  - the character accelerator in Basic, Source and Quake styles;
  - `AddForce` and `AddTorque` with the four force modes;
  - `Gravity` and `Friction`;
  - `NegateDownVelocity` and `IsolateDownVelocity`;
  - `ClampFlatVelocity` and `LerpFlatVelocity`;
  - the fixed physics step.

  Each method's new state is tied to a function in `BodyMotion`, and the
  lemmas there state what the source promises about it.
- **`DGSManager`** (`manager.dfy`): the gravity resolver. It has:
  - the filter that drops bodies with gravity type `None`;
  - the two linear scans for the closest body and the closest distance, as
    loops with invariants;
  - the pure up-direction, gravity-magnitude and range-of-influence
    functions.
- **`DGSPlayerController`** (`player_control.dfy`): the movement policy. It has:
  - the input clamp;
  - the strafe test and the air strafe angle;
  - the ground/air dispatch;
  - `GroundMove`, `AirMove` and `AirControl`, which change the body's
    target velocity through the body's own methods;
  - the jump sequence.
- **`DGSMaterial`** (`materials.dfy`): the constructor's friction clamp.
- **`DGSMass`** (`masses.dfy`): the gravity-settings record.

Vectors are `Vec3`/`Vec2` over `real`.

Unity's square root has no closed form here, so every operation that measures
a vector takes the engine's square root as a parameter `sqrt`. The facts are
proved for any `sqrt` satisfying `Maths.IsSqrt`: non-negative, with a square
equal to its argument. `magnitude`, `normalized`, `Distance` and
`ClampMagnitude` are defined from it in `maths.dfy`.

`VectorMath.IsolateDirection` and `VectorMath.NegateDirection` belong to a
utility library that is not part of this model. They are defined as:
- the projection of `v` onto the line of `dir`;
- `v` minus that projection.

This is an assumption about that library (`vector_math.dfy`).

Points where the code's behaviour is easy to misread:
- `AddForce` adds `dt * force / mass` a second time after the mode switch, in
  every mode. The model keeps that term (`BodyMotion.AddForceDelta`), and
  `BodyMotion.AddForceTrailingTerm` states its consequences.
- `ClampFlatVelocity` returns early when the magnitude of the whole target
  velocity lies in the bounds, not the flat speed.
- `CanStrafe` measures its angle from the target's flat velocity (`FlatVel`).
  `AirMove` and `AirControl` measure theirs from the engine's flat velocity
  (`TrueFlatVel`).
- `AirMove` caps its speed for strafing when `CanStrafe()` holds. `Update`
  calls it only when `CanStrafe()` fails, so that branch never runs from
  `Update`. `PlayerControl.DGSPlayerController.Move` states this.

## Model

| member | source | states |
|---|---|---|
| Maths.Clamp | DGSBody.cs:530 | `Mathf.Clamp`: the result lies in [min, max] when min <= max; a value inside is kept; a value below min gives min, and one above max gives max when min <= max |
| Maths.Clamp01 | DGSMaterial.cs:17 | the result lies in [0, 1]; a value inside is kept; below 0 gives 0, above 1 gives 1 |
| Maths.Lerp | DGSBody.cs:523-526 | `Mathf.Lerp` lands between its two ends; t <= 0 gives the start, t >= 1 the end |
| Maths.LerpUnclampedBounds | DGSBody.cs:523-526 | for a fraction in [0, 1] the interpolated value lies between the two ends and hits each end at 0 and 1 |
| Maths.NormalizedFacts | DGSPlayerController.cs:185-186 | `normalized` maps zero to zero and any other vector to a unit vector in the same direction |
| Maths.NormalizedUnitOrZero | DGSManager.cs:106 | a normalized vector is a unit vector or zero |
| Maths.NormalizedDotBounds | DGSPlayerController.cs:184-186 | the dot product of two normalized vectors lies in [-1, 1] |
| Maths.ClampMagnitudeBound | DGSBody.cs:545 | `ClampMagnitude` never returns a vector longer than the limit, and keeps a vector within it |
| Maths.ClampMagnitudeShortens | DGSBody.cs:545 | a vector longer than the limit comes back exactly as long as the limit |
| Maths.Magnitude2Facts | DGSPlayerController.cs:99 | a 2-vector's magnitude is non-negative, squares to its dot product, and is zero only for the zero vector |
| Maths.Normalized2Facts | DGSPlayerController.cs:99 | `Vector2.Normalize` keeps zero and makes any other vector unit length |
| Maths.DistanceToSelf | DGSManager.cs:92 | a body is at distance 0 from itself |
| Maths.DistanceNonNegative | DGSManager.cs:77 | distances are never negative |
| Maths.MagnitudeFacts | DGSBody.cs:97-100 | `magnitude` is non-negative, squares to the vector's dot product with itself, and is zero exactly for the zero vector |
| Maths.MagnitudeScale | DGSBody.cs:530-533 | stretching a vector by `k` multiplies its magnitude by `abs(k)` |
| Maths.MagnitudeNeg | DGSBody.cs:94-96 | a reversed vector has the same magnitude |
| Maths.NormalizedZeroIff | DGSManager.cs:104-111 | `normalized` gives zero, with or without a sign flip, exactly for the zero vector |
| Maths.NormalizedNeg | DGSManager.cs:106 | normalizing a reversed vector reverses the normalized vector |
| Maths.DotNormalizedSelf | DGSManager.cs:106-111 | a vector projects onto its own normalized direction as its magnitude |
| Maths.DistanceFacts | DGSManager.cs:77 | `Vector3.Distance` is non-negative and zero exactly between equal points |
| Maths.DistanceOrder | DGSManager.cs:77-80 | comparing distances is comparing squared distances |
| Maths.ClampMagnitudeKeeps | DGSBody.cs:545 | a vector whose squared length is within the squared limit is within the limit |
| Maths.ClampOfZero | DGSBody.cs:545 | `ClampMagnitude` keeps the zero vector |
| Maths.ClampToNothing | DGSBody.cs:545 | clamping to length zero gives the zero vector |
| Maths.DotAtMostMagnitude | DGSManager.cs:65-66 | a vector's projection on a unit direction is at most its magnitude |
| VectorMath.Decompose | DGSBody.cs:89-96 | a vector is the sum of its negated and isolated parts along a direction |
| VectorMath.IsolateIdempotent | DGSBody.cs:503 | isolating a direction twice is isolating it once |
| VectorMath.NegateIdempotent | DGSBody.cs:493 | negating a direction twice is negating it once |
| VectorMath.IsolateOfNegate | DGSBody.cs:89-96 | what is left after negating a direction has no part along it |
| VectorMath.NegateOfIsolate | DGSBody.cs:89-96 | the part isolated along a direction has nothing off that direction |
| VectorMath.IsolateOpposite | DGSBody.cs:94-96 | isolating along `-up` equals isolating along `up` |
| VectorMath.NegateOpposite | DGSBody.cs:89-92 | negating along `-up` equals negating along `up` |
| VectorMath.IsolateAdd | DGSBody.cs:89-96 | `IsolateDirection` of a sum is the sum of the isolated parts |
| VectorMath.IsolateScale | DGSBody.cs:89-96 | `IsolateDirection` of a multiple is that multiple of the isolated part |
| VectorMath.NegateAdd | DGSBody.cs:89-96 | `NegateDirection` of a sum is the sum of the negated parts |
| VectorMath.NegateScale | DGSBody.cs:89-96 | `NegateDirection` of a multiple is that multiple of the negated part |
| VectorMath.IsolateOfNormalizedNegate | DGSBody.cs:533 | the direction of what `NegateDirection` leaves has no part along the direction |
| VectorMath.NegateAlongOwnLine | DGSPlayerController.cs:287-290 | any multiple of a direction has nothing left after that direction is negated |
| Materials.NewMaterial | DGSMaterial.cs:15-19 | friction lands in [0, 1], is kept when already inside, is 0 below and 1 above; bounciness is stored as given |
| Materials.NewMaterialIdempotent | DGSMaterial.cs:17 | rebuilding a material from a clamped friction keeps that friction |
| BodyMotion.FlatDownSplit | DGSBody.cs:89-96 | a velocity is its flat part plus its down part; the flat part has no down part and vice versa, and each part is idempotent |
| BodyMotion.PartsOfSum | DGSBody.cs:89-96 | the flat and down parts of a sum are the sums of the parts |
| BodyMotion.SplitOfSum | DGSBody.cs:533 | a flat vector plus a down vector splits back into exactly those two |
| BodyMotion.FlatDirectionIsFlat | DGSBody.cs:474 | any multiple of the normalized flat velocity is flat |
| BodyMotion.SourceSpeedChange | DGSBody.cs:294-305 | the Source speed change never takes the projected speed past the wish speed and never exceeds `accel * dt`; it is `accel * dt` or ends exactly at the wish speed |
| BodyMotion.QuakeSpeedChange | DGSBody.cs:313-336 | Quake adds nothing once the projection reaches the wish speed; otherwise the added speed is at most what is missing and at most `accel * wishSpeed * dt`, and it is non-negative for non-negative inputs |
| BodyMotion.AccelerationDelta | DGSBody.cs:268-339 | in Basic mode a zero `accel * dt` changes nothing and `accel * dt = 1` takes the engine's flat velocity exactly to the wish velocity |
| BodyMotion.BasicIsLerp | DGSBody.cs:279-288 | for every `accel * dt`, Basic mode takes the engine's flat velocity to the unclamped lerp, component by component, towards the wish velocity by the fraction `accel * dt` |
| BodyMotion.BasicNoOvershoot | DGSBody.cs:279-288 | for `0 <= accel * dt <= 1` each component of the new flat velocity lies between the engine's and the wish velocity's |
| BodyMotion.AccelerationZeroWish | DGSBody.cs:270-271 | with a zero wish velocity, Source and Quake change nothing |
| BodyMotion.AccelerationAlongWish | DGSBody.cs:305 | Source and Quake changes lie along the wish direction |
| BodyMotion.SourceProjection | DGSBody.cs:290-307 | the engine's flat velocity plus the Source change projects onto the wish direction at most the wish speed, and either `accel * dt` above the engine's own projection or exactly the wish speed (the target velocity itself is not what is projected) |
| BodyMotion.QuakeProjection | DGSBody.cs:309-338 | for the engine's flat velocity plus the Quake change: a projection on the wish direction at or above the wish speed is unchanged; a lower one stays at most the wish speed and does not fall for non-negative rates (the target velocity itself is not what is projected) |
| BodyMotion.ForceModeDelta | DGSBody.cs:365-383 | with a zero time step, `Force` and `Acceleration` change nothing |
| BodyMotion.ForceModeMomentum | DGSBody.cs:367-380 | `Force` and `Impulse` divide by the mass: the mass times the change is the force times the step, or the force |
| BodyMotion.AddForceDelta | DGSBody.cs:358-386 | with a zero time step, `AddForce` adds exactly the mode's change |
| BodyMotion.NoTrailingTerm | DGSBody.cs:385 | with a zero time step the term added after the switch is zero |
| BodyMotion.AddForceInstant | DGSBody.cs:358-386 | with dt = 0, `VelocityChange` adds exactly the force, `Impulse` exactly force / mass, and the time-scaled modes nothing |
| BodyMotion.AddForceTrailingTerm | DGSBody.cs:385 | the trailing term doubles what `Force` adds, and `VelocityChange` adds exactly the force only when `dt * force / mass` is zero |
| BodyMotion.GravityDelta | DGSBody.cs:457-459 | gravity's change projects onto `up` as `-(g * dt)` times the squared length of `up`, so `-(g * dt)` for a unit up |
| BodyMotion.GravityDeltaIsDown | DGSBody.cs:455-460 | gravity's change has no flat part and, for a unit up, length `abs(g * dt)` |
| BodyMotion.FrictionResult | DGSBody.cs:473 | friction leaves the target alone when it does not point against the measured acceleration |
| BodyMotion.FrictionFacts | DGSBody.cs:470-475 | friction never changes the down part; when it acts it scales the flat velocity along its own direction to `speed - friction * dt` |
| BodyMotion.FrictionFlatSpeed | DGSBody.cs:470-475 | when friction acts and `friction * dt` is at most the flat speed, the flat speed drops by exactly that |
| BodyMotion.NegatedDown | DGSBody.cs:492-493 | with no engine down speed the target is unchanged |
| BodyMotion.NegatedDownFacts | DGSBody.cs:490-495 | when it acts, the target's down part becomes zero and its flat part is kept |
| BodyMotion.ClampedFlatSpeed | DGSBody.cs:520-531 | hard mode clamps the flat speed into [min, max], keeps an in-range speed, gives min for a speed below min and max for one above max; smooth mode lands between the flat speed and the nearer bound, at the flat speed for t <= 0 and at the bound for t >= 1 |
| BodyMotion.ClampedFlat | DGSBody.cs:518-519 | a target whose whole magnitude is within the bounds is untouched |
| BodyMotion.ClampedFlatFacts | DGSBody.cs:516-534 | out of bounds, the down part is kept and the flat part becomes the flat direction times the chosen speed, whose length is that speed |
| BodyMotion.ClampedFlatHardBounds | DGSBody.cs:516-534 | in hard mode with 0 <= min <= max, a non-zero flat velocity ends with its speed in [min, max], or the target is untouched |
| BodyMotion.LerpedFlat | DGSBody.cs:541-546 | `LerpFlatVelocity` leaves the target unchanged for `t = 0`, and when the target already equals the goal |
| BodyMotion.NoStep | DGSBody.cs:544-545 | a zero fraction makes no lerp step |
| BodyMotion.ClampAtGoal | DGSBody.cs:545 | at the goal the lerp step is clamped to nothing |
| BodyMotion.LerpedFlatStep | DGSBody.cs:541-546 | `LerpFlatVelocity` never moves the target further than its distance to the goal |
| Bodies.BranchOf | DGSBody.cs:191-216 | exactly one first-phase branch runs: landing, friction, gravity only when airborne strictly longer than the coyote time, or nothing |
| Bodies.AccelerationStep | DGSBody.cs:268-339 | the accelerator's switch computes exactly the Basic, Source or Quake change |
| Bodies.DGSBody.constructor | DGSBody.cs:63-66 | a new body is valid and at rest, with the configured motor mode, mass, material and coyote time in [0, 1] (inspector default `DefaultCoyoteTime` = 0.1) |
| Bodies.DGSBody.FlatVel | DGSBody.cs:91-92 | the target velocity's flat part has no down part and adds back up to the target with the down part |
| Bodies.DGSBody.DownVel | DGSBody.cs:95-96 | the target velocity's down part has no flat part and adds back up to the target with the flat part |
| Bodies.DGSBody.TrueFlatVel | DGSBody.cs:89-90 | the engine velocity's flat part has no down part and adds back up to the engine velocity with the down part |
| Bodies.DGSBody.TrueDownVel | DGSBody.cs:93-94 | the engine velocity's down part has no flat part and adds back up to the engine velocity with the flat part |
| Bodies.DGSBody.Acceleration | DGSBody.cs:87-88 | the acceleration is zero when the engine velocity equals the stored one, and for a zero step |
| Bodies.DGSBody.DGSCharacterAccelerate | DGSBody.cs:264-346 | the target grows by the mode's change from the engine's flat velocity, with the acceleration scaled by the ground friction when grounded; the new target is returned; nothing else changes |
| Bodies.DGSBody.AddForce | DGSBody.cs:358-386 | the target grows by the mode's change plus `dt * force / mass`; nothing else changes |
| Bodies.DGSBody.AddTorque | DGSBody.cs:399-427 | only the angular velocity changes, by the mode's change alone |
| Bodies.DGSBody.Gravity | DGSBody.cs:455-460 | the target grows by exactly `g * dt` along `-up` |
| Bodies.DGSBody.Friction | DGSBody.cs:470-475 | the target becomes the friction result for the measured acceleration |
| Bodies.DGSBody.NegateDownVelocity | DGSBody.cs:490-495 | the target's down part is dropped when the engine has down speed; returns the engine down speed minus the new down speed |
| Bodies.DGSBody.IsolateDownVelocity | DGSBody.cs:501-505 | the target becomes its down part; returns its new magnitude |
| Bodies.DGSBody.ClampFlatVelocity | DGSBody.cs:516-534 | the target becomes the clamped-flat result |
| Bodies.DGSBody.LerpFlatVelocity | DGSBody.cs:541-546 | the target moves by the lerp step clamped to its distance to the goal |
| Bodies.DGSBody.FixedUpdate | DGSBody.cs:184-247 | the first phase runs; `AdvancedCharacter` hands the target to the engine and rounds a slow grounded flat velocity away; the stored velocity equals the new engine velocity, which the rounding does not touch |
| Manager.ActiveBodies | DGSManager.cs:37-41 | the kept bodies are exactly the found bodies whose gravity type is not `None` |
| Manager.ActiveBodiesAppend | DGSManager.cs:37-41 | filtering distributes over concatenation, so order is kept |
| Manager.ActiveBodiesKeepsActive | DGSManager.cs:37-41 | a list of gravity-exerting bodies is kept whole |
| Manager.ClosestIndex | DGSManager.cs:74-83 | the scan settles on no body or on a body other than `b1` |
| Manager.ClosestBody | DGSManager.cs:70-85 | the closest body is `b1` itself or a listed body with another id |
| Manager.ClosestIndexFacts | DGSManager.cs:70-85 | no body is found exactly when every listed body is `b1`; the found body is at least as near as every other body and strictly nearer than every earlier one |
| Manager.ClosestBodyFacts | DGSManager.cs:70-85 | the result is `b1` when no other body is listed; otherwise a listed body other than `b1` no further than any other |
| Manager.MinOfIsMinimum | DGSManager.cs:89-98 | the running minimum is infinity exactly for no values; otherwise it is one of them and no greater than any |
| Manager.MinDistance | DGSManager.cs:87-99 | the closest distance is infinity exactly for an empty list |
| Manager.MinDistanceStep | DGSManager.cs:92-96 | one more body replaces the running distance only when strictly nearer |
| Manager.MinDistanceIsMinimum | DGSManager.cs:87-99 | the closest distance is infinity exactly for an empty list; otherwise it is some listed body's distance and no greater than any |
| Manager.MinDistanceFacts | DGSManager.cs:87-99 | the closest distance is non-negative, and 0 when `b1` itself is listed |
| Manager.DistanceMatchesClosest | DGSManager.cs:70-99 | when `b1` is not listed, both scans agree on the closest distance |
| Manager.SimplifiedMagnitude | DGSManager.cs:119-120 | `G / distance` is infinity exactly for a zero distance; otherwise times the distance it gives `G` back |
| Manager.SimplifiedMagnitudeDecreases | DGSManager.cs:119-120 | with a positive constant, simplified gravity is positive and weakens with distance |
| Manager.DGSManager.constructor | DGSManager.cs:12-17 | a new resolver has the configured G (default `DefaultGravitationalConstant` = 6.67e-11), the given simplified flag and no bodies |
| Manager.DGSManager.GetSceneBodies | DGSManager.cs:33-44 | the stored and returned list is the filter of the found bodies |
| Manager.DGSManager.GetClosestDGSBody | DGSManager.cs:70-85 | the loop returns the closest body of the scan, `b1` when there is none |
| Manager.DGSManager.GetDistanceToClosestDGSBody | DGSManager.cs:87-99 | the loop returns the closest distance over all listed bodies, `b1` included |
| Manager.DGSManager.GetDGSUpDirection | DGSManager.cs:101-112 | up is a unit vector or zero; against the source's gravity direction for a `VectorDirection` source, otherwise from the source towards `b1`; it is zero exactly when that direction is zero (for example a lone `b1`, which is its own source) |
| Manager.DGSManager.GetDGSGravityMagnitude | DGSManager.cs:114-123 | `G / distance` only for a centre-of-mass source with the simplified flag on; the source's own magnitude otherwise |
| Manager.DGSManager.IsInRangeOfInfluence | DGSManager.cs:55-68 | for a centre-of-mass `b1`: never in range for a non-positive reach, and with coinciding centres in range exactly for a positive reach; otherwise always in range when `b1`'s centre is nearer the origin than `b2`'s range |
| Manager.DGSManager.HeightAtMostMagnitude | DGSManager.cs:65-66 | the height of `b1`'s centre along its up direction is at most the centre's distance from the origin |
| Manager.DGSManager.CentreDistanceFacts | DGSManager.cs:59-60 | the distance between centres is non-negative and zero for coinciding centres |
| Manager.DGSManager.InRangeByCentres | DGSManager.cs:57-61 | for a centre-of-mass `b1`, the range test fails for a non-positive reach and, for a non-negative one, holds exactly when the squared distance is below the squared reach |
| PlayerControl.AirStrafeAngle | DGSPlayerController.cs:67 | the strafe angle lies in [0, 5] for air control in [0, 1], is 0 exactly at full air control, and is 3.5 by default |
| PlayerControl.AirStrafeAngleDecreasing | DGSPlayerController.cs:67 | more air control never widens the strafe angle |
| PlayerControl.ClampInput | DGSPlayerController.cs:99 | an input of length at most 1 is kept |
| PlayerControl.ClampInputFacts | DGSPlayerController.cs:99 | the clamped input is at most 1 long, exactly 1 when it was clamped, and clamping again changes nothing |
| PlayerControl.WishDirection | DGSPlayerController.cs:274-278 | no input gives no wish direction |
| PlayerControl.WishDirectionMagnitude | DGSPlayerController.cs:274-278 | with orthonormal facing vectors the wish direction is as long as the input |
| PlayerControl.WishDirectionZero | DGSPlayerController.cs:274-278 | with orthonormal facing vectors the wish direction is zero exactly for no input |
| PlayerControl.CanStrafe | DGSPlayerController.cs:312-321 | no strafe with a zero wish direction or with both axes in use; a strafe only strictly inside `90 +/- angle / 2` |
| PlayerControl.CanStrafeInsideWindow | DGSPlayerController.cs:314-320 | conversely, a non-zero single-axis input strictly inside the window strafes |
| PlayerControl.NoStrafeWithFullAirControl | DGSPlayerController.cs:317-320 | with air control 1 there is never a strafe |
| PlayerControl.StrafeWindowBounds | DGSPlayerController.cs:317-320 | with air control in [0, 1], a strafe needs an angle strictly between 87.5 and 92.5 |
| PlayerControl.StrafeAtRightAngle | DGSPlayerController.cs:312-321 | a non-zero single-axis input at exactly 90 degrees strafes when air control is below 1 |
| PlayerControl.CongruenceBounds | DGSPlayerController.cs:184-186 | the congruence lies in [-1, 1] |
| PlayerControl.AirMoveSpeedAndRate | DGSPlayerController.cs:188-201 | without strafing: wish speed `abs(wish) * air.maxSpeed`, and the rate is the air deceleration when the congruence is negative and the air acceleration otherwise; when strafing: speed `min(abs(wish) * air.maxSpeed, strafe.maxSpeed)` and rate the strafe acceleration |
| PlayerControl.AirControlDelta | DGSPlayerController.cs:223-259 | with air control other than 1 and non-negative congruence the change is zero; with full air control it is `(wish * abs(wish) * min(speed, air.maxSpeed) - flatVel) * rate` |
| PlayerControl.AirControlReversal | DGSPlayerController.cs:232-244 | when the congruence is below -0.975, the change is the full-air-control change times `k`, and `k >= 1` for air control in [0, 1) and a non-negative time step |
| PlayerControl.AddForceOfZero | DGSPlayerController.cs:260-261 | a zero change added as a velocity change changes nothing |
| PlayerControl.JumpWithVerticalSpeed | DGSPlayerController.cs:281-290 | when the engine velocity has a component along the up line (rising or falling), a jump keeps the flat part and makes the part along up exactly the jump velocity along up |
| PlayerControl.JumpWithoutVerticalSpeed | DGSPlayerController.cs:281-290 | when the engine velocity has no component along the up line, a jump adds the jump velocity along up to the target unchanged |
| PlayerControl.DGSPlayerController.constructor | DGSPlayerController.cs:34-48 | a new controller holds the configured air control in [0, 1], acceleration modes and movement settings, with no input and no jump used; the inspector defaults (air control 0.3, Basic on the ground, Source in the air, ground (7, 14, 10), air (7, 2, 2), strafe (1, 50, 50)) are the `Default...` constants |
| PlayerControl.DGSPlayerController.GatherMovementInputs | DGSPlayerController.cs:95-99 | the stored input is the clamped input |
| PlayerControl.DGSPlayerController.GroundMove | DGSPlayerController.cs:164-176 | the body accelerates towards `wish * abs(wish) * ground.maxSpeed`, decelerating exactly when the target points against the wish |
| PlayerControl.DGSPlayerController.GroundMoveBrakes | DGSPlayerController.cs:164-176 | with no input in Basic mode, ground movement takes the engine's flat velocity off at the friction-scaled acceleration rate |
| PlayerControl.DGSPlayerController.GroundMoveIdle | DGSPlayerController.cs:164-176 | with no input in Source or Quake mode, ground movement changes nothing |
| PlayerControl.DGSPlayerController.AirMove | DGSPlayerController.cs:179-207 | the body accelerates with the air speed and rate, or the strafe cap and rate when `CanStrafe` holds |
| PlayerControl.DGSPlayerController.AirControl | DGSPlayerController.cs:212-262 | the air-control change scaled by `airControl * dt` is added as a velocity change; with air control other than 1 and non-negative congruence the target is unchanged |
| PlayerControl.DGSPlayerController.Move | DGSPlayerController.cs:131-143 | grounded runs `GroundMove`; airborne runs `AirControl` when `CanStrafe` holds and `AirMove` otherwise, with its strafe branch off |
| PlayerControl.DGSPlayerController.DoJump | DGSPlayerController.cs:281-294 | the down velocity is negated first, then the jump velocity along up is added exactly, then one jump is used |

## Left out

- Unity lifecycle and engine plumbing are not modelled:
  - `Awake`, `Update` scheduling, `FindObjectsOfType`;
  - the manager singleton with `Destroy`/`DontDestroyOnLoad`;
  - `Rigidbody` setup and `LateUpdate`.

  The engine velocity is a field. Time steps (`Time.deltaTime`,
  `Time.fixedDeltaTime`) are parameters.
- Orientation is not modelled: `Rotate`, `Orient`, the quaternion code, mouse
  look and the camera. The facing vectors `transform.right` and
  `transform.forward` are parameters.
- The ground check's update (`UpdateGrounded`, `DoOnGrounded`,
  `DoWhenGrounded`) is not modelled. Its results are the body fields
  `isGrounded`, `storedGrounded`, `timeSinceLastGrounded` and
  `groundFriction`.
- `JumpAbility` is represented only by the count of jumps used. The jump
  input and `IsReady` guard in `Update` are not modelled, nor is
  `GetJumpVelocity`. The jump velocity is a parameter of
  `PlayerControl.DGSPlayerController.DoJump`.
- Crouching, `InputManager` polling and debug drawing are not modelled. The
  raw input axes are parameters.
- The up direction and gravity magnitude that the resolver reports are
  parameters of the body's methods. The resolver itself is modelled
  separately.
- `Vector3.Angle` has no closed form here. The angles that `CanStrafe` and
  `AirControl` measure are parameters.
- Square roots are not computed. Every statement holds for any function
  satisfying `Maths.IsSqrt`.
- IEEE floats are not modelled: rounding, NaN and single precision. The model
  works over exact reals.
  - `Mathf.Infinity` is the `Manager.Extended` value `Infinity`.
  - `G / 0` is also `Infinity`.
- `Maths.Normalized` and `Maths.Normalized2`: do not model Unity's 1e-5
  threshold below which a vector normalizes to zero. Only the exact zero
  vector does.
- `Bodies.DGSBody`: a mass of zero, which the source would divide by, is
  excluded by `Valid()`.
- `PID` and `SimpleCharacter` have empty cases in the position-update
  switch of the fixed step (DGSBody.cs:219-230), as `Static` does, and the
  model treats the three alike there. Two differences are not modelled:
  - the ground check runs for them but not for `Static` (DGSBody.cs:187-188);
  - `Static` auto-orients in `LateUpdate` and they do not (DGSBody.cs:140-163).
- Default arguments are explicit parameters, and every call passes them:
  `accelerationMode = Basic` (DGSBody.cs:266), `forceMode = ForceMode.Force`
  (DGSBody.cs:359, 400), `smooth = false` and `physicsTimeInterval = .5f`
  (DGSBody.cs:516), and `t = .5f` (DGSBody.cs:541).
- `VectorMath` is not part of this model. Its two functions are defined as
  projections onto and off a direction. Their facts hold for that
  definition only.
- `PlayerControl.AirControlDelta`: for a congruence in [-0.975, 0) the change
  is stated only by its definition. That branch normalizes a
  component-wise product and scales it by an error term from the angle, and
  no property of it is proved.
- `Manager.DGSManager.IsInRangeOfInfluence`: for a `b1` that is not a
  centre of mass, only the sufficient condition above is proved; the exact
  test is its definition.
- `Manager.SceneBody`: a transform is represented by its position, and body
  identity by an `id`.
- `b2.transform.lossyScale` is the field `lossyScale`.
- `Manager.DGSManager.IsInRangeOfInfluence` and the up direction use the
  bodies' snapshot positions, not live transforms.
