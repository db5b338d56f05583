/** The explicit layer update shared by rooms and the chimney: the interface moves
    by the net volume flux, then each layer's gravity is its new buoyancy content
    over its new volume, multiplied by the time step exactly as the script does. */
module Layers {
  import opened Building

  /** The interface moves by the net volume flux over the floor area. */
  predicate VolumeBalanced(dt: int, p: ZoneParams, h: real, h': real, qIn: real, qOut: real)
  {
    p.area * (h' - h) == -(dt as real) * (qIn - qOut)
  }

  /** The hot layer's buoyancy content (volume times gravity) after the step is `dt`
      times its content before plus the buoyancy flux in minus the flux out. */
  predicate HotBalanced(dt: int, p: ZoneParams, z: Zone, h': real, gh': real, bIn: real, bOut: real)
  {
    (p.height - h') * p.area * gh' == (dt as real) * ((p.height - z.h) * p.area * z.gh + bIn - bOut)
  }

  /** The cold layer's buoyancy content after the step is `dt` times its content
      before plus the buoyancy of the `drawn` volume of outside air (at gravity
      `gExt`) minus the cold air `entrained` upward. */
  predicate ColdBalanced(dt: int, p: ZoneParams, z: Zone, h': real, gc': real, gExt: real, drawn: real, entrained: real)
  {
    h' * p.area * gc' == (dt as real) * (z.h * p.area * z.gc + gExt * drawn - z.gc * entrained)
  }

  /** The vent's driving head: the gravity difference between the layers times the
      depth of the hot layer. */
  function Head(p: ZoneParams, z: Zone): (d: real)
    ensures d == 0.0 <==> z.gh == z.gc || z.h == p.height
    ensures z.h < p.height ==> (d > 0.0 <==> z.gh > z.gc)
  {
    (z.gh - z.gc) * (p.height - z.h)
  }

  /** Volume flux out of the top vent: the effective vent area times the square root
      of the driving head. */
  function VentOutflow(p: ZoneParams, env: Environment, z: Zone): (q: real)
    ensures p.ventArea == 0.0 ==> q == 0.0
    ensures p.ventArea >= 0.0 && env.sqrt(Head(p, z)) >= 0.0 ==> q >= 0.0
  {
    p.ventArea * env.sqrt(Head(p, z))
  }

  /** Buoyancy flux out of the top vent: the vented volume carries the hot layer's
      gravity. */
  function VentBuoyancy(p: ZoneParams, env: Environment, z: Zone): (b: real)
    ensures z.gh == 0.0 || p.ventArea == 0.0 ==> b == 0.0
  {
    z.gh * VentOutflow(p, env, z)
  }

  /** The vent's orifice law from state `z` to `z'`: the volume outflow is the
      effective vent area times the square root of the driving head, and the
      buoyancy outflow carries that volume at the hot layer's gravity. */
  predicate VentLaw(p: ZoneParams, env: Environment, z: Zone, z': Zone)
  {
    && z'.qOut == VentOutflow(p, env, z)
    && z'.bOut == VentBuoyancy(p, env, z)
  }

  /** Equal inflow and outflow leave the interface where it was. */
  lemma BalancedFlowKeepsLevel(dt: int, p: ZoneParams, h: real, h': real, qIn: real, qOut: real)
    requires p.area != 0.0 && VolumeBalanced(dt, p, h, h', qIn, qOut) && qIn == qOut
    ensures h' == h
  {
    assert p.area * (h' - h) == 0.0;
  }

  /** With no inflow, a non-negative outflow and a non-negative time step the
      interface cannot move down. */
  lemma OutflowRaisesLevel(dt: int, p: ZoneParams, h: real, h': real, qIn: real, qOut: real)
    requires p.area > 0.0 && dt >= 0 && VolumeBalanced(dt, p, h, h', qIn, qOut)
    requires qIn == 0.0 && qOut >= 0.0
    ensures h' >= h
  {
    assert p.area * (h' - h) == (dt as real) * qOut;
    assert (dt as real) * qOut >= 0.0;
  }

  /** Interface height after exchanging `qIn` and `qOut` for one step. */
  function MovedInterface(dt: int, p: ZoneParams, h: real, qIn: real, qOut: real): (h': real)
    requires p.area != 0.0
    ensures VolumeBalanced(dt, p, h, h', qIn, qOut)
  {
    h - (dt as real) * (qIn - qOut) / p.area
  }

  /** Hot-layer gravity after a step, as the script computes it: the step length
      multiplies the whole volume-weighted ratio. */
  function HotGravity(dt: int, p: ZoneParams, z: Zone, h': real, bIn: real, bOut: real): (g: real)
    requires h' != p.height && p.area != 0.0
    ensures HotBalanced(dt, p, z, h', g, bIn, bOut)
  {
    var num := z.gh * (p.height - z.h) * p.area + bIn - bOut;
    var den := (p.height - h') * p.area;
    assert den != 0.0;
    var g := (dt as real) * (num / den);
    assert den * (num / den) == num;
    g
  }

  /** Cold-layer gravity after a step in which a `drawn` volume of outside air at
      gravity `gExt` enters and `entrained` of cold-layer air is carried up into the
      hot layer. */
  function ColdGravity(dt: int, p: ZoneParams, z: Zone, h': real, gExt: real, drawn: real, entrained: real): (g: real)
    requires h' != 0.0 && p.area != 0.0
    ensures ColdBalanced(dt, p, z, h', g, gExt, drawn, entrained)
  {
    var num := z.gc * z.h * p.area + gExt * drawn - z.gc * entrained;
    var den := h' * p.area;
    assert den != 0.0;
    var g := (dt as real) * num / den;
    assert den * ((dt as real) * num / den) == (dt as real) * num;
    g
  }
}
