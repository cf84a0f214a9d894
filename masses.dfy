/**
 * `DGSMass`: the gravity settings of a body. The record has no behaviour of
 * its own; the centre-of-mass transform is represented by its position.
 */
module Masses {
  import opened Maths

  datatype GravityType = VectorDirection | TransformCenterOfMass | None

  datatype DGSMass = DGSMass(
    gravType: GravityType,
    mass: real,
    gravityMagnitude: real,
    rangeOfInfluence: real,
    gravityDirection: Vec3,
    centerOfMass: Vec3)
}
