/** `DGSMaterial`: the surface properties of a body. */
module Materials {
  import opened Maths

  datatype DGSMaterial = DGSMaterial(friction: real, bounciness: real)

  /**
   * The `DGSMaterial(frict, bounce)` constructor: friction is clamped into
   * [0, 1], bounciness is stored as given.
   */
  function NewMaterial(frict: real, bounce: real): (m: DGSMaterial)
    ensures 0.0 <= m.friction <= 1.0
    ensures 0.0 <= frict <= 1.0 ==> m.friction == frict
    ensures frict < 0.0 ==> m.friction == 0.0
    ensures 1.0 < frict ==> m.friction == 1.0
    ensures m.bounciness == bounce
  {
    DGSMaterial(Clamp01(frict), bounce)
  }

  /** Building a material from the friction of another changes nothing. */
  lemma NewMaterialIdempotent(frict: real, bounce: real, bounce': real)
    ensures NewMaterial(NewMaterial(frict, bounce).friction, bounce').friction
            == NewMaterial(frict, bounce).friction
  {
    var f := NewMaterial(frict, bounce).friction;
    assert 0.0 <= f <= 1.0;
  }
}
