/** One time step of the chimney (atrium), run after both rooms: it takes in
    what the rooms pushed out this step, vents through its own top opening, and
    refills its cold layer from outside only when it vents more than it receives. */
module Chimney {
  import opened Building
  import opened Layers

  /** The chimney is left alone this step: nobody is in and its hot layer has
      filled it (interface above 99% of the height, a looser threshold than the
      rooms' 99.9%). Nothing about it changes. */
  predicate Gated(p: ZoneParams, z: Zone, off: bool)
    requires p.height != 0.0
    ensures Gated(p, z, off) ==> off
    ensures p.height > 0.0 ==> (Gated(p, z, off) <==> off && z.h > 0.99 * p.height)
  {
    off && z.h / p.height > 0.99
  }

  /** Volume flux the two rooms sent into the chimney this step. */
  function RoomsOutflow(r0: Zone, r1: Zone): real
  {
    r0.qOut + r1.qOut
  }

  /** Cold air carried up by the occupants' plume when the cold layer is recomputed.
      The script evaluates the 5/3 power here at the interface height AFTER the
      move, unlike the inflow, which uses the height before it. */
  function Entrained(cfg: Config, p: ZoneParams, env: Environment, off: bool, h': real): (q: real)
    ensures off || p.people == 0 ==> q == 0.0
  {
    if off then 0.0 else PlumeFlow(cfg, p, env, h')
  }

  /** The balances a chimney update keeps from `z` to `z'` when the rooms send it
      `roomsQ`: volume and hot layer always; the cold layer is refilled from outside
      (and balanced) when the chimney vents more than `roomsQ`, and is otherwise left
      as it was. */
  predicate Refilled(cfg: Config, p: ZoneParams, env: Environment, z: Zone, gExt: real, off: bool,
                     roomsQ: real, z': Zone)
  {
    && VolumeBalanced(cfg.dt, p, z.h, z'.h, z'.qIn, z'.qOut)
    && HotBalanced(cfg.dt, p, z, z'.h, z'.gh, z'.bIn, z'.bOut)
    && (z'.qOut > roomsQ ==>
          ColdBalanced(cfg.dt, p, z, z'.h, z'.gc, gExt, z'.qOut - roomsQ, Entrained(cfg, p, env, off, z'.h)))
    && (!(z'.qOut > roomsQ) ==> z'.gc == z.gc)
  }

  /** Moves the interface, recomputes the hot layer and, when the chimney vents more
      than the rooms send it, refills the cold layer from outside. The only failure is
      a zero divisor: the new interface on the ceiling, or on the floor in a step that
      recomputes the cold layer. A new interface below the floor is no failure here:
      the step then halts on the height test. */
  function Apply(cfg: Config, p: ZoneParams, env: Environment, z: Zone, gExt: real, off: bool,
                 roomsQ: real, qIn: real, qOut: real, bIn: real, bOut: real): (r: Result<Zone>)
    requires p.area != 0.0
    ensures r.Err? ==> r.error == StepError(Atrium, ZeroDivision)
    ensures r.Err? <==>
              || MovedInterface(cfg.dt, p, z.h, qIn, qOut) == p.height
              || (qOut > roomsQ && MovedInterface(cfg.dt, p, z.h, qIn, qOut) == 0.0)
    ensures r.Ok? ==>
              && r.value.qIn == qIn && r.value.qOut == qOut && r.value.bIn == bIn && r.value.bOut == bOut
              && Refilled(cfg, p, env, z, gExt, off, roomsQ, r.value)
  {
    var h' := MovedInterface(cfg.dt, p, z.h, qIn, qOut);
    if h' == p.height then Err(StepError(Atrium, ZeroDivision))
    else
      var gh' := HotGravity(cfg.dt, p, z, h', bIn, bOut);
      if qOut > roomsQ then
        if h' == 0.0 then Err(StepError(Atrium, ZeroDivision))
        else
          var gc' := ColdGravity(cfg.dt, p, z, h', gExt, qOut - roomsQ, Entrained(cfg, p, env, off, h'));
          Ok(Zone(h', gh', gc', qIn, qOut, bIn, bOut))
      else
        Ok(Zone(h', gh', z.gc, qIn, qOut, bIn, bOut))
  }

  /** Volume flux into the chimney's hot layer: what the rooms sent, plus on-hours
      the occupants' plume at the interface height before the move. */
  function InflowVolume(cfg: Config, p: ZoneParams, env: Environment, z: Zone, off: bool, r0: Zone, r1: Zone): (q: real)
    ensures off || p.people == 0 ==> q == RoomsOutflow(r0, r1)
  {
    if off then RoomsOutflow(r0, r1) else RoomsOutflow(r0, r1) + PlumeFlow(cfg, p, env, z.h)
  }

  /** The chimney's interface, moved by its inflow and vent outflow, would land on the
      ceiling, or on the floor in a step where the cold layer is recomputed: the
      zero divisors of the update. */
  predicate Pinned(cfg: Config, p: ZoneParams, env: Environment, z: Zone, off: bool, r0: Zone, r1: Zone)
    requires p.area != 0.0
  {
    var h' := MovedInterface(cfg.dt, p, z.h, InflowVolume(cfg, p, env, z, off, r0, r1), VentOutflow(p, env, z));
    h' == p.height || (VentOutflow(p, env, z) > RoomsOutflow(r0, r1) && h' == 0.0)
  }

  /** The chimney's inflow from `z` to `z'`, given the rooms' states `r0`, `r1` of
      the same step: exactly what the rooms sent off-hours, plus the occupants' plume
      and heat on-hours. */
  predicate Inflow(cfg: Config, p: ZoneParams, env: Environment, z: Zone, off: bool, r0: Zone, r1: Zone, z': Zone)
  {
    && (off ==> z'.qIn == RoomsOutflow(r0, r1) && z'.bIn == r0.bOut + r1.bOut)
    && (!off ==>
          && z'.qIn == RoomsOutflow(r0, r1) + PlumeFlow(cfg, p, env, z.h)
          && z'.bIn == r0.bOut + r1.bOut + PlumeBuoyancy(cfg, p, env, z.gc, z.h))
  }

  /** What a chimney update that is not gated establishes from `z` to `z'`: the vent
      law, the inflow aggregated from the rooms, and the balances with the cold layer
      refilled only when the chimney vents more than the rooms send it. */
  predicate Vented(cfg: Config, p: ZoneParams, env: Environment, z: Zone, off: bool, gExt: real,
                   r0: Zone, r1: Zone, z': Zone)
  {
    && VentLaw(p, env, z, z')
    && Inflow(cfg, p, env, z, off, r0, r1, z')
    && Refilled(cfg, p, env, z, gExt, off, RoomsOutflow(r0, r1), z')
  }

  /** The chimney's exchange off-hours: its inflow is exactly what the rooms sent. */
  function VentEmpty(cfg: Config, p: ZoneParams, env: Environment, z: Zone, gExt: real, r0: Zone, r1: Zone): (r: Result<Zone>)
    requires p.area != 0.0
    ensures r.Err? ==> r.error.zone == Atrium && r.error.kind != ComplexPower
    ensures Head(p, z) < 0.0 ==> r == Err(StepError(Atrium, SqrtDomain))
    ensures Head(p, z) >= 0.0 ==> (r.Err? <==> Pinned(cfg, p, env, z, true, r0, r1))
    ensures r.Ok? ==> Vented(cfg, p, env, z, true, gExt, r0, r1, r.value)
  {
    var head := Head(p, z);
    if head < 0.0 then Err(StepError(Atrium, SqrtDomain))
    else
      Apply(cfg, p, env, z, gExt, true, RoomsOutflow(r0, r1), InflowVolume(cfg, p, env, z, true, r0, r1),
            VentOutflow(p, env, z), r0.bOut + r1.bOut, VentBuoyancy(p, env, z))
  }

  /** The chimney's exchange on-hours: the rooms' outflow plus the occupants' plume
      and heat; a negative base of a fractional power is a failure. */
  function VentOccupied(cfg: Config, p: ZoneParams, env: Environment, z: Zone, gExt: real, r0: Zone, r1: Zone): (r: Result<Zone>)
    requires p.area != 0.0
    ensures r.Err? ==> r.error.zone == Atrium
    ensures Head(p, z) < 0.0 ==> r == Err(StepError(Atrium, SqrtDomain))
    ensures Head(p, z) >= 0.0 && ComplexPlume(cfg, z.h) ==> r == Err(StepError(Atrium, ComplexPower))
    ensures Head(p, z) >= 0.0 && !ComplexPlume(cfg, z.h) ==>
              && (r.Err? <==> Pinned(cfg, p, env, z, false, r0, r1))
              && (r.Err? ==> r.error.kind == ZeroDivision)
    ensures r.Ok? ==> Vented(cfg, p, env, z, false, gExt, r0, r1, r.value)
  {
    var head := Head(p, z);
    if head < 0.0 then Err(StepError(Atrium, SqrtDomain))
    else if ComplexPlume(cfg, z.h) then Err(StepError(Atrium, ComplexPower))
    else
      Apply(cfg, p, env, z, gExt, false, RoomsOutflow(r0, r1), InflowVolume(cfg, p, env, z, false, r0, r1),
            VentOutflow(p, env, z), r0.bOut + r1.bOut + PlumeBuoyancy(cfg, p, env, z.gc, z.h), VentBuoyancy(p, env, z))
  }

  /** The chimney update from state `z`, given whether the step is off-hours, the
      outside air's effective gravity `gExt` and the rooms' states `r0`, `r1`
      produced earlier in the same step. It fails exactly on a negative head, on a
      negative base of the plume's powers on-hours, or on a zero divisor. */
  function Update(cfg: Config, p: ZoneParams, env: Environment, z: Zone, off: bool, gExt: real, r0: Zone, r1: Zone): (r: Result<Zone>)
    requires p.height != 0.0 && p.area != 0.0
    ensures Gated(p, z, off) ==> r == Ok(z)
    ensures r.Err? ==> r.error.zone == Atrium && !Gated(p, z, off)
    ensures !Gated(p, z, off) && Head(p, z) < 0.0 ==> r == Err(StepError(Atrium, SqrtDomain))
    ensures !Gated(p, z, off) && Head(p, z) >= 0.0 && !off && ComplexPlume(cfg, z.h) ==>
              r == Err(StepError(Atrium, ComplexPower))
    ensures !Gated(p, z, off) && Head(p, z) >= 0.0 && (off || !ComplexPlume(cfg, z.h)) ==>
              && (r.Err? <==> Pinned(cfg, p, env, z, off, r0, r1))
              && (r.Err? ==> r.error.kind == ZeroDivision)
    ensures r.Ok? && !Gated(p, z, off) ==> Vented(cfg, p, env, z, off, gExt, r0, r1, r.value)
    ensures r.Ok? && r.value.gc != z.gc ==> !Gated(p, z, off) && r.value.qOut > RoomsOutflow(r0, r1)
  {
    if Gated(p, z, off) then Ok(z)
    else if off then VentEmpty(cfg, p, env, z, gExt, r0, r1)
    else VentOccupied(cfg, p, env, z, gExt, r0, r1)
  }

  /** On-hours, a chimney that vents more than the rooms send it can drop its interface
      below the floor without failing: with the script's constants, one occupant, a
      square root of 2 and a 5/3 power of 20, an interface at 0.05 moves to -1/60 and
      the update succeeds (the step then halts on the height test). */
  lemma BelowFloorIsNoFailure(env: Environment)
    requires env.sqrt(9.95) == 2.0 && env.cbrt(0.00281) == 1.0 && env.pow53(0.05) == 20.0
    ensures var r := Update(SourceConfig(), ZoneParams(10.0, 30.0, 0.5, 1), env, Zone(0.05, 1.0, 0.0, 0.0, 0.0, 0.0, 0.0),
                            false, 0.0, Zone(1.5, 1.0, 0.0, 0.0, 0.0, 0.0, 0.0), Zone(1.5, 1.0, 0.0, 0.0, 0.0, 0.0, 0.0));
            r.Ok? && r.value.h == -1.0 / 60.0
  {
    var cfg := SourceConfig();
    var p := ZoneParams(10.0, 30.0, 0.5, 1);
    var z := Zone(0.05, 1.0, 0.0, 0.0, 0.0, 0.0, 0.0);
    var quiet := Zone(1.5, 1.0, 0.0, 0.0, 0.0, 0.0, 0.0);
    assert cfg.dt == 1 && cfg.plumeConst == 0.15;
    assert Head(p, z) == 9.95;
    assert VentOutflow(p, env, z) == 1.0;
    assert PlumeFlow(cfg, p, env, z.h) == 3.0;
    assert MovedInterface(cfg.dt, p, z.h, 3.0, 1.0) == -1.0 / 60.0;
    var r := Update(cfg, p, env, z, false, 0.0, quiet, quiet);
    assert r.Ok?;
  }
}
