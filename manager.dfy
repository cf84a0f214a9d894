/**
 * `DGSManager`: the gravity resolver. It keeps the bodies that exert
 * gravity, finds the nearest of them to a body, and derives from that
 * source the body's up direction and gravity magnitude.
 *
 * Bodies are represented by what the resolver reads from them; two entries
 * are the same body exactly when their `id`s agree.
 */
module Manager {
  import opened Maths
  import opened Masses

  /** The default of `universalGravitationalConstant`, 6.67e-11. */
  const DefaultGravitationalConstant: real := 0.0000000000667

  datatype SceneBody = SceneBody(id: nat, position: Vec3, mass: DGSMass, lossyScale: Vec3)

  /** A float that may be `Mathf.Infinity`. */
  datatype Extended = Finite(value: real) | Infinity

  /** `a < d` for a finite `a`. */
  predicate Below(a: real, d: Extended)
  {
    d.Infinity? || a < d.value
  }

  // ---------------------------------------------------------------------
  // GetSceneBodies.
  // ---------------------------------------------------------------------

  predicate ExertsGravity(b: SceneBody)
  {
    b.mass.gravType != None
  }

  /** The bodies of `found` whose gravity type is not `None`, in order. */
  function ActiveBodies(found: seq<SceneBody>): (r: seq<SceneBody>)
    ensures |r| <= |found|
    ensures forall b :: b in r ==> b in found && ExertsGravity(b)
    ensures forall b :: b in found && ExertsGravity(b) ==> b in r
  {
    if |found| == 0 then []
    else
      var last := found[|found| - 1];
      var prefix := found[..|found| - 1];
      assert found == prefix + [last];
      ActiveBodies(prefix) + (if ExertsGravity(last) then [last] else [])
  }

  /** Filtering keeps the order: it distributes over concatenation. */
  lemma {:induction false} ActiveBodiesAppend(a: seq<SceneBody>, b: seq<SceneBody>)
    ensures ActiveBodies(a + b) == ActiveBodies(a) + ActiveBodies(b)
    decreases |b|
  {
    if |b| == 0 {
      assert a + b == a;
    } else {
      var last := b[|b| - 1];
      var prefix := b[..|b| - 1];
      var kept := if ExertsGravity(last) then [last] else [];
      assert (a + b)[..|a + b| - 1] == a + prefix;
      assert (a + b)[|a + b| - 1] == last;
      calc {
        ActiveBodies(a + b);
        ActiveBodies(a + prefix) + kept;
        { ActiveBodiesAppend(a, prefix); }
        ActiveBodies(a) + ActiveBodies(prefix) + kept;
        ActiveBodies(a) + (ActiveBodies(prefix) + kept);
        ActiveBodies(a) + ActiveBodies(b);
      }
    }
  }

  /** A list in which every body exerts gravity is kept whole. */
  lemma {:induction false} ActiveBodiesKeepsActive(found: seq<SceneBody>)
    requires forall b :: b in found ==> ExertsGravity(b)
    ensures ActiveBodies(found) == found
    decreases |found|
  {
    if |found| > 0 {
      var prefix := found[..|found| - 1];
      ActiveBodiesKeepsActive(prefix);
      assert found == prefix + [found[|found| - 1]];
    }
  }

  // ---------------------------------------------------------------------
  // GetClosestDGSBody and GetDistanceToClosestDGSBody.
  // ---------------------------------------------------------------------

  function DistanceTo(sqrt: real -> real, body: SceneBody, b1: SceneBody): real
  {
    Distance(sqrt, body.position, b1.position)
  }

  /**
   * The index the scan of `GetClosestDGSBody` settles on, or -1 when no
   * listed body is other than `b1`: a body replaces the current best only
   * when strictly nearer.
   */
  function ClosestIndex(sqrt: real -> real, bodies: seq<SceneBody>, b1: SceneBody): (k: int)
    ensures -1 <= k < |bodies|
    ensures 0 <= k ==> bodies[k].id != b1.id
  {
    if |bodies| == 0 then -1
    else
      var k := ClosestIndex(sqrt, bodies[..|bodies| - 1], b1);
      var body := bodies[|bodies| - 1];
      if body.id == b1.id then k
      else if k < 0 || DistanceTo(sqrt, body, b1) < DistanceTo(sqrt, bodies[k], b1) then |bodies| - 1
      else k
  }

  /** The body `GetClosestDGSBody` returns: `b1` itself, or a listed body with another id. */
  function ClosestBody(sqrt: real -> real, bodies: seq<SceneBody>, b1: SceneBody): (b: SceneBody)
    ensures b == b1 || (b in bodies && b.id != b1.id)
  {
    var k := ClosestIndex(sqrt, bodies, b1);
    if k < 0 then b1 else bodies[k]
  }

  function ClosestDistance(sqrt: real -> real, bodies: seq<SceneBody>, b1: SceneBody): Extended
  {
    var k := ClosestIndex(sqrt, bodies, b1);
    if k < 0 then Infinity else Finite(DistanceTo(sqrt, bodies[k], b1))
  }

  /**
   * The scan finds no body exactly when every listed body is `b1`;
   * otherwise it finds one at least as near as every other body, and
   * strictly nearer than every other body listed before it.
   */
  lemma {:induction false} ClosestIndexFacts(sqrt: real -> real, bodies: seq<SceneBody>, b1: SceneBody)
    ensures var k := ClosestIndex(sqrt, bodies, b1);
            k < 0 <==> forall j :: 0 <= j < |bodies| ==> bodies[j].id == b1.id
    ensures var k := ClosestIndex(sqrt, bodies, b1);
            0 <= k ==> forall j :: 0 <= j < |bodies| && bodies[j].id != b1.id ==>
                          DistanceTo(sqrt, bodies[k], b1) <= DistanceTo(sqrt, bodies[j], b1)
    ensures var k := ClosestIndex(sqrt, bodies, b1);
            0 <= k ==> forall j :: 0 <= j < k && bodies[j].id != b1.id ==>
                          DistanceTo(sqrt, bodies[k], b1) < DistanceTo(sqrt, bodies[j], b1)
    decreases |bodies|
  {
    if |bodies| > 0 {
      var prefix := bodies[..|bodies| - 1];
      ClosestIndexFacts(sqrt, prefix, b1);
      assert forall j :: 0 <= j < |prefix| ==> prefix[j] == bodies[j];
    }
  }

  /** `GetClosestDGSBody` never returns another body with `b1`'s id, and returns `b1` when there is no other. */
  lemma ClosestBodyFacts(sqrt: real -> real, bodies: seq<SceneBody>, b1: SceneBody)
    ensures var b := ClosestBody(sqrt, bodies, b1);
            b == b1 || (b in bodies && b.id != b1.id)
    ensures (forall j :: 0 <= j < |bodies| ==> bodies[j].id == b1.id) ==> ClosestBody(sqrt, bodies, b1) == b1
    ensures (exists j :: 0 <= j < |bodies| && bodies[j].id != b1.id) ==>
              var b := ClosestBody(sqrt, bodies, b1);
              b in bodies && b.id != b1.id &&
              forall x :: x in bodies && x.id != b1.id ==> DistanceTo(sqrt, b, b1) <= DistanceTo(sqrt, x, b1)
  {
    ClosestIndexFacts(sqrt, bodies, b1);
  }

  /** The least of `ds`, keeping the earlier value on ties; infinity for none. */
  function MinOf(ds: seq<real>): Extended
  {
    if |ds| == 0 then Infinity
    else
      var d := MinOf(ds[..|ds| - 1]);
      if Below(ds[|ds| - 1], d) then Finite(ds[|ds| - 1]) else d
  }

  /** `MinOf` is infinity exactly for no values; otherwise it is one of them and no greater than any. */
  lemma {:induction false} MinOfIsMinimum(ds: seq<real>)
    ensures MinOf(ds).Infinity? <==> |ds| == 0
    ensures MinOf(ds).Finite? ==> forall i :: 0 <= i < |ds| ==> MinOf(ds).value <= ds[i]
    ensures MinOf(ds).Finite? ==> exists i :: 0 <= i < |ds| && MinOf(ds).value == ds[i]
    decreases |ds|
  {
    if |ds| > 0 {
      var prefix := ds[..|ds| - 1];
      MinOfIsMinimum(prefix);
      if MinOf(ds) == MinOf(prefix) && MinOf(ds).Finite? {
        var i :| 0 <= i < |prefix| && MinOf(prefix).value == prefix[i];
        assert MinOf(ds).value == ds[i];
      }
    }
  }

  /** Among non-negative values, one that is zero makes the minimum zero. */
  lemma MinOfZero(ds: seq<real>, i: int)
    requires 0 <= i < |ds| && ds[i] == 0.0
    requires forall j :: 0 <= j < |ds| ==> 0.0 <= ds[j]
    ensures MinOf(ds) == Finite(0.0)
  {
    MinOfIsMinimum(ds);
  }

  /** Non-negative values have a non-negative minimum. */
  lemma MinOfNonNegative(ds: seq<real>)
    requires forall j :: 0 <= j < |ds| ==> 0.0 <= ds[j]
    ensures MinOf(ds).Finite? ==> 0.0 <= MinOf(ds).value
  {
    MinOfIsMinimum(ds);
  }

  /** The distances from each listed body to `b1`, in list order. */
  function Distances(sqrt: real -> real, bodies: seq<SceneBody>, b1: SceneBody): (ds: seq<real>)
    ensures |ds| == |bodies|
  {
    if |bodies| == 0 then []
    else Distances(sqrt, bodies[..|bodies| - 1], b1) + [DistanceTo(sqrt, bodies[|bodies| - 1], b1)]
  }

  /** Entry `i` of `Distances` is the distance of body `i`. */
  lemma {:induction false} DistancesAt(sqrt: real -> real, bodies: seq<SceneBody>, b1: SceneBody, i: int)
    requires 0 <= i < |bodies|
    ensures Distances(sqrt, bodies, b1)[i] == DistanceTo(sqrt, bodies[i], b1)
    decreases |bodies|
  {
    if i < |bodies| - 1 {
      DistancesAt(sqrt, bodies[..|bodies| - 1], b1, i);
    }
  }

  /** The nearest distance over all listed bodies, `b1` included; infinity for none. */
  function MinDistance(sqrt: real -> real, bodies: seq<SceneBody>, b1: SceneBody): (d: Extended)
    ensures d.Infinity? <==> |bodies| == 0
  {
    MinOfIsMinimum(Distances(sqrt, bodies, b1));
    MinOf(Distances(sqrt, bodies, b1))
  }

  /** One more body: the scan of `GetDistanceToClosestDGSBody` takes its distance only when strictly nearer. */
  lemma MinDistanceStep(sqrt: real -> real, bodies: seq<SceneBody>, b1: SceneBody, body: SceneBody)
    ensures var d := MinDistance(sqrt, bodies, b1);
            var d' := DistanceTo(sqrt, body, b1);
            MinDistance(sqrt, bodies + [body], b1) == if Below(d', d) then Finite(d') else d
  {
    var ds := Distances(sqrt, bodies + [body], b1);
    assert (bodies + [body])[..|bodies|] == bodies;
    assert ds[..|ds| - 1] == Distances(sqrt, bodies, b1);
  }

  /**
   * `GetDistanceToClosestDGSBody` is infinity exactly for an empty list;
   * otherwise it is the distance of some listed body and no greater than
   * that of any listed body.
   */
  lemma MinDistanceIsMinimum(sqrt: real -> real, bodies: seq<SceneBody>, b1: SceneBody)
    ensures MinDistance(sqrt, bodies, b1).Infinity? <==> |bodies| == 0
    ensures var d := MinDistance(sqrt, bodies, b1);
            d.Finite? ==> forall i :: 0 <= i < |bodies| ==> d.value <= DistanceTo(sqrt, bodies[i], b1)
    ensures var d := MinDistance(sqrt, bodies, b1);
            d.Finite? ==> exists i :: 0 <= i < |bodies| && d.value == DistanceTo(sqrt, bodies[i], b1)
  {
    var ds := Distances(sqrt, bodies, b1);
    MinOfIsMinimum(ds);
    forall i | 0 <= i < |bodies|
      ensures ds[i] == DistanceTo(sqrt, bodies[i], b1)
    {
      DistancesAt(sqrt, bodies, b1, i);
    }
    if MinOf(ds).Finite? {
      var i :| 0 <= i < |ds| && MinOf(ds).value == ds[i];
      assert MinOf(ds).value == DistanceTo(sqrt, bodies[i], b1);
    }
  }

  /** The distance to the closest body is never negative, and is 0 when `b1` itself is listed. */
  lemma MinDistanceFacts(sqrt: real -> real, bodies: seq<SceneBody>, b1: SceneBody)
    requires IsSqrt(sqrt)
    ensures var d := MinDistance(sqrt, bodies, b1);
            d.Finite? ==> 0.0 <= d.value
    ensures b1 in bodies ==> MinDistance(sqrt, bodies, b1) == Finite(0.0)
  {
    DistancesNonNegative(sqrt, bodies, b1);
    MinOfNonNegative(Distances(sqrt, bodies, b1));
    if b1 in bodies {
      var i :| 0 <= i < |bodies| && bodies[i] == b1;
      DistanceZeroAt(sqrt, bodies, b1, i);
      MinOfZero(Distances(sqrt, bodies, b1), i);
    }
  }

  /** A body listed at index `i` that is `b1` itself is at distance 0. */
  lemma DistanceZeroAt(sqrt: real -> real, bodies: seq<SceneBody>, b1: SceneBody, i: int)
    requires IsSqrt(sqrt)
    requires 0 <= i < |bodies| && bodies[i] == b1
    ensures Distances(sqrt, bodies, b1)[i] == 0.0
  {
    DistancesAt(sqrt, bodies, b1, i);
    DistanceToSelf(sqrt, b1.position);
  }

  /** Every distance is non-negative. */
  lemma DistancesNonNegative(sqrt: real -> real, bodies: seq<SceneBody>, b1: SceneBody)
    requires IsSqrt(sqrt)
    ensures forall j :: 0 <= j < |bodies| ==> 0.0 <= Distances(sqrt, bodies, b1)[j]
  {
    forall j | 0 <= j < |bodies|
      ensures 0.0 <= Distances(sqrt, bodies, b1)[j]
    {
      DistancesAt(sqrt, bodies, b1, j);
      DistanceNonNegative(sqrt, bodies[j].position, b1.position);
    }
  }

  /**
   * When `b1` is not listed, both scans agree: the distance to the closest
   * body is the distance to the body `GetClosestDGSBody` picks.
   */
  lemma {:induction false} DistanceMatchesClosest(sqrt: real -> real, bodies: seq<SceneBody>, b1: SceneBody)
    requires forall x :: x in bodies ==> x.id != b1.id
    ensures MinDistance(sqrt, bodies, b1) == ClosestDistance(sqrt, bodies, b1)
    decreases |bodies|
  {
    if |bodies| > 0 {
      var prefix := bodies[..|bodies| - 1];
      assert forall x :: x in prefix ==> x in bodies;
      DistanceMatchesClosest(sqrt, prefix, b1);
    }
  }

  // ---------------------------------------------------------------------
  // Simplified gravity.
  // ---------------------------------------------------------------------

  /** `G / distance` as a float: a zero distance gives positive infinity. */
  function SimplifiedMagnitude(g: real, distance: real): (m: Extended)
    ensures m.Infinity? <==> distance == 0.0
    ensures m.Finite? ==> m.value * distance == g
  {
    if distance == 0.0 then Infinity else Finite(g / distance)
  }

  /** With a positive constant, simplified gravity weakens as the distance grows. */
  lemma SimplifiedMagnitudeDecreases(g: real, d1: real, d2: real)
    requires 0.0 < g && 0.0 < d1 <= d2
    ensures SimplifiedMagnitude(g, d2).value <= SimplifiedMagnitude(g, d1).value
    ensures 0.0 < SimplifiedMagnitude(g, d2).value
  {
    assert g / d2 <= g / d1 by {
      assert g / d2 * d2 == g;
      assert g / d1 * d1 == g;
      if g / d1 < g / d2 {
        MulPos(g / d2 - g / d1, d1);
        MulNonNeg(g / d2, d2 - d1);
      }
    }
    MulPosInverse(g, d2);
  }

  lemma MulPosInverse(g: real, d: real)
    requires 0.0 < g && 0.0 < d
    ensures 0.0 < g / d
  {}

  class DGSManager {
    const sqrt: real -> real
    const universalGravitationalConstant: real
    const simplifiedUniversalForceCalculation: bool
    /** The bodies that exert gravity. */
    var sceneDGSBodies: seq<SceneBody>

    ghost predicate Valid()
    {
      IsSqrt(sqrt)
    }

    /** `universalGravitationalConstant` is a public field; its default is `DefaultGravitationalConstant`. */
    constructor(sqrt: real -> real, universalGravitationalConstant: real, simplified: bool)
      requires IsSqrt(sqrt)
      ensures Valid()
      ensures this.universalGravitationalConstant == universalGravitationalConstant
      ensures simplifiedUniversalForceCalculation == simplified
      ensures sceneDGSBodies == []
    {
      this.sqrt := sqrt;
      this.universalGravitationalConstant := universalGravitationalConstant;
      simplifiedUniversalForceCalculation := simplified;
      sceneDGSBodies := [];
    }

    /** Keeps, in order, the found bodies that exert gravity, and returns them. */
    method GetSceneBodies(found: seq<SceneBody>) returns (r: seq<SceneBody>)
      modifies this`sceneDGSBodies
      ensures sceneDGSBodies == ActiveBodies(found)
      ensures r == sceneDGSBodies
    {
      var dgsList: seq<SceneBody> := [];
      for i := 0 to |found|
        invariant dgsList == ActiveBodies(found[..i])
      {
        assert found[..i + 1][..i] == found[..i];
        var body := found[i];
        if body.mass.gravType == None {
          continue;
        } else {
          dgsList := dgsList + [body];
        }
      }
      assert found[..|found|] == found;
      sceneDGSBodies := dgsList;
      r := sceneDGSBodies;
    }

    /** The nearest listed body other than `b1`, the earliest on a tie; `b1` when there is none. */
    method GetClosestDGSBody(b1: SceneBody) returns (b: SceneBody)
      ensures b == ClosestBody(sqrt, sceneDGSBodies, b1)
    {
      b := b1;
      var d: Extended := Infinity;
      for i := 0 to |sceneDGSBodies|
        invariant b == ClosestBody(sqrt, sceneDGSBodies[..i], b1)
        invariant d == ClosestDistance(sqrt, sceneDGSBodies[..i], b1)
      {
        assert sceneDGSBodies[..i + 1][..i] == sceneDGSBodies[..i];
        var body := sceneDGSBodies[i];
        if body.id == b1.id {
          continue;
        }
        var d' := Distance(sqrt, body.position, b1.position);
        if Below(d', d) {
          d := Finite(d');
          b := body;
        }
      }
      assert sceneDGSBodies[..|sceneDGSBodies|] == sceneDGSBodies;
    }

    /** The nearest distance from `b1` to any listed body, `b1` included; infinity for none. */
    method GetDistanceToClosestDGSBody(b1: SceneBody) returns (d: Extended)
      ensures d == MinDistance(sqrt, sceneDGSBodies, b1)
    {
      d := Infinity;
      for i := 0 to |sceneDGSBodies|
        invariant d == MinDistance(sqrt, sceneDGSBodies[..i], b1)
      {
        assert sceneDGSBodies[..i + 1] == sceneDGSBodies[..i] + [sceneDGSBodies[i]];
        MinDistanceStep(sqrt, sceneDGSBodies[..i], b1, sceneDGSBodies[i]);
        var b := sceneDGSBodies[i];
        var d' := Distance(sqrt, b.position, b1.position);
        if Below(d', d) {
          d := Finite(d');
        }
      }
      assert sceneDGSBodies[..|sceneDGSBodies|] == sceneDGSBodies;
    }

    /**
     * Away from the nearest source: against its gravity direction for a
     * `VectorDirection` source, otherwise from its position towards `b1`.
     * Either way a unit vector, or zero when there is no direction.
     */
    function GetDGSUpDirection(b1: SceneBody): (up: Vec3)
      requires Valid()
      reads this`sceneDGSBodies
      ensures Dot(up, up) == 1.0 || up == Zero
      ensures var b2 := ClosestBody(sqrt, sceneDGSBodies, b1);
              b2.mass.gravType == VectorDirection ==>
                Dot(up, b2.mass.gravityDirection) == -Magnitude(sqrt, b2.mass.gravityDirection)
      ensures var b2 := ClosestBody(sqrt, sceneDGSBodies, b1);
              b2.mass.gravType != VectorDirection ==>
                Dot(up, Sub(b1.position, b2.position)) == Distance(sqrt, b1.position, b2.position)
      ensures var b2 := ClosestBody(sqrt, sceneDGSBodies, b1);
              up == Zero <==>
                (if b2.mass.gravType == VectorDirection then b2.mass.gravityDirection
                 else Sub(b1.position, b2.position)) == Zero
    {
      var b2 := ClosestBody(sqrt, sceneDGSBodies, b1);
      if b2.mass.gravType == VectorDirection then
        var n := Normalized(sqrt, b2.mass.gravityDirection);
        NormalizedZeroIff(sqrt, b2.mass.gravityDirection);
        NormalizedUnitOrZero(sqrt, b2.mass.gravityDirection);
        DotNormalizedSelf(sqrt, b2.mass.gravityDirection);
        NegDot(n, b2.mass.gravityDirection);
        Neg(n)
      else
        var v := Sub(b1.position, b2.position);
        NormalizedZeroIff(sqrt, v);
        NormalizedUnitOrZero(sqrt, v);
        DotNormalizedSelf(sqrt, v);
        Normalized(sqrt, v)
    }

    /**
     * `G / distance` when the nearest source is a centre of mass and the
     * simplified calculation is on; the source's own magnitude otherwise.
     */
    function GetDGSGravityMagnitude(b1: SceneBody): (g: Extended)
      reads this`sceneDGSBodies
      ensures var b2 := ClosestBody(sqrt, sceneDGSBodies, b1);
              !(b2.mass.gravType == TransformCenterOfMass && simplifiedUniversalForceCalculation) ==>
                g == Finite(b2.mass.gravityMagnitude)
      ensures var b2 := ClosestBody(sqrt, sceneDGSBodies, b1);
              b2.mass.gravType == TransformCenterOfMass && simplifiedUniversalForceCalculation ==>
                g == SimplifiedMagnitude(universalGravitationalConstant, Distance(sqrt, b1.position, b2.position))
    {
      var b2 := ClosestBody(sqrt, sceneDGSBodies, b1);
      if b2.mass.gravType == TransformCenterOfMass && simplifiedUniversalForceCalculation then
        SimplifiedMagnitude(universalGravitationalConstant, Distance(sqrt, b1.position, b2.position))
      else
        Finite(b2.mass.gravityMagnitude)
    }

    /**
     * Whether `b1` lies in `b2`'s range of influence. For a `b1` of type
     * `TransformCenterOfMass` the centres are compared against `b2`'s range
     * widened by its scale; otherwise the height of `b1`'s centre along its
     * up direction is compared against `b2`'s range.
     */
    predicate IsInRangeOfInfluence(b1: SceneBody, b2: SceneBody): (r: bool)
      requires Valid()
      reads this`sceneDGSBodies
      ensures var reach := b2.mass.rangeOfInfluence + Magnitude(sqrt, b2.lossyScale);
              b1.mass.gravType == TransformCenterOfMass ==>
                (reach <= 0.0 ==> !r) &&
                (b1.mass.centerOfMass == b2.mass.centerOfMass ==> (r <==> 0.0 < reach))
      ensures b1.mass.gravType != TransformCenterOfMass ==>
                (Magnitude(sqrt, b1.mass.centerOfMass) < b2.mass.rangeOfInfluence ==> r)
    {
      if b1.mass.gravType == TransformCenterOfMass then
        CentreDistanceFacts(b1.mass.centerOfMass, b2.mass.centerOfMass);
        Distance(sqrt, b1.mass.centerOfMass, b2.mass.centerOfMass)
          < b2.mass.rangeOfInfluence + Magnitude(sqrt, b2.lossyScale)
      else
        HeightAtMostMagnitude(b1);
        Dot(b1.mass.centerOfMass, GetDGSUpDirection(b1)) < b2.mass.rangeOfInfluence
    }

    lemma CentreDistanceFacts(c1: Vec3, c2: Vec3)
      requires Valid()
      ensures 0.0 <= Distance(sqrt, c1, c2)
      ensures c1 == c2 ==> Distance(sqrt, c1, c2) == 0.0
    {
      DistanceFacts(sqrt, c1, c2);
    }

    /** The height of `b1`'s centre along its up direction is at most the centre's distance from the origin. */
    lemma HeightAtMostMagnitude(b1: SceneBody)
      requires Valid()
      ensures Dot(b1.mass.centerOfMass, GetDGSUpDirection(b1)) <= Magnitude(sqrt, b1.mass.centerOfMass)
    {
      var c, up := b1.mass.centerOfMass, GetDGSUpDirection(b1);
      MagnitudeFacts(sqrt, c);
      if up == Zero {
        DotZero(c);
      } else {
        DotAtMostMagnitude(sqrt, c, up);
      }
    }

    /**
     * The centre-of-mass test is a squared-distance test: never passed with
     * a negative reach, and otherwise passed exactly when the squared
     * distance is below the squared reach.
     */
    lemma InRangeByCentres(b1: SceneBody, b2: SceneBody)
      requires Valid()
      requires b1.mass.gravType == TransformCenterOfMass
      ensures var reach := b2.mass.rangeOfInfluence + Magnitude(sqrt, b2.lossyScale);
              (reach <= 0.0 ==> !IsInRangeOfInfluence(b1, b2)) &&
              (0.0 <= reach ==>
                 (IsInRangeOfInfluence(b1, b2) <==>
                  SqrDistance(b1.mass.centerOfMass, b2.mass.centerOfMass) < Sq(reach)))
    {
      var c1, c2 := b1.mass.centerOfMass, b2.mass.centerOfMass;
      var reach := b2.mass.rangeOfInfluence + Magnitude(sqrt, b2.lossyScale);
      DistanceFacts(sqrt, c1, c2);
      if 0.0 <= reach {
        SqrtFacts(sqrt, Sq(reach));
        SqrtUnique(sqrt, Sq(reach), reach);
        DotSelfNonNegative(Sub(c1, c2));
        SqSign(reach);
        SqrtMonotone(sqrt, SqrDistance(c1, c2), Sq(reach));
      }
    }
  }
}
