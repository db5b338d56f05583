/** One time step of a room (Ventilation.py, the loop over j in 0..1): the vent
    outflow, the occupants' plume and heat input, then an explicit update of the
    interface height and of both layer gravities. */
module Room {
  import opened Building
  import opened Layers

  /** The room is left alone this step: nobody is in and the hot layer has filled
      it (interface above 99.9% of the height). Only its outflow is reset. */
  predicate Skips(p: ZoneParams, z: Zone, off: bool)
    requires p.height != 0.0
    ensures Skips(p, z, off) ==> off
    ensures p.height > 0.0 ==> (Skips(p, z, off) <==> off && z.h > 0.999 * p.height)
  {
    off && z.h / p.height > 0.999
  }

  /** The balances one step of a room keeps between its state `z` and `z'`. */
  predicate Exchanged(cfg: Config, p: ZoneParams, z: Zone, gExt: real, z': Zone)
  {
    && VolumeBalanced(cfg.dt, p, z.h, z'.h, z'.qIn, z'.qOut)
    && HotBalanced(cfg.dt, p, z, z'.h, z'.gh, z'.bIn, z'.bOut)
    && ColdBalanced(cfg.dt, p, z, z'.h, z'.gc, gExt, z'.qOut, z'.qIn)
  }

  /** Applies one step of exchange to a zone whose fluxes are `qIn`, `qOut`, `bIn`,
      `bOut`: moves the interface, then recomputes both layer gravities; fails when
      the new interface sits on the floor or the ceiling (a zero divisor). */
  function Apply(cfg: Config, id: ZoneId, p: ZoneParams, z: Zone, gExt: real,
                 qIn: real, qOut: real, bIn: real, bOut: real): (r: Result<Zone>)
    requires p.area != 0.0
    ensures r.Err? ==> r.error == StepError(id, ZeroDivision)
    ensures r.Ok? ==>
              && r.value.qIn == qIn && r.value.qOut == qOut && r.value.bIn == bIn && r.value.bOut == bOut
              && Exchanged(cfg, p, z, gExt, r.value)
    ensures r.Err? <==> MovedInterface(cfg.dt, p, z.h, qIn, qOut) == 0.0 || MovedInterface(cfg.dt, p, z.h, qIn, qOut) == p.height
  {
    var h' := MovedInterface(cfg.dt, p, z.h, qIn, qOut);
    if h' == p.height || h' == 0.0 then Err(StepError(id, ZeroDivision))
    else
      var gh' := HotGravity(cfg.dt, p, z, h', bIn, bOut);
      var gc' := ColdGravity(cfg.dt, p, z, h', gExt, qOut, qIn);
      Ok(Zone(h', gh', gc', qIn, qOut, bIn, bOut))
  }

  /** What a room update that is not skipped establishes from `z` to `z'`: the vent
      law, the balances, and the inflow: none off-hours, the occupants' plume and
      heat on-hours. */
  predicate Updated(cfg: Config, p: ZoneParams, env: Environment, z: Zone, off: bool, gExt: real, z': Zone)
  {
    && VentLaw(p, env, z, z')
    && Exchanged(cfg, p, z, gExt, z')
    && (off ==> z'.qIn == 0.0 && z'.bIn == 0.0)
    && (!off ==>
          && z'.qIn == PlumeFlow(cfg, p, env, z.h)
          && z'.bIn == PlumeBuoyancy(cfg, p, env, z.gc, z.h))
  }

  /** Volume flux into the room's hot layer: the occupants' plume at the interface
      height before the move on-hours, nothing off-hours. */
  function InflowVolume(cfg: Config, p: ZoneParams, env: Environment, z: Zone, off: bool): (q: real)
    ensures off || p.people == 0 ==> q == 0.0
  {
    if off then 0.0 else PlumeFlow(cfg, p, env, z.h)
  }

  /** The room's interface, moved by its inflow and vent outflow, would land on the
      floor or the ceiling: the zero divisors of the update. */
  predicate Pinned(cfg: Config, p: ZoneParams, env: Environment, z: Zone, off: bool)
    requires p.area != 0.0
  {
    var h' := MovedInterface(cfg.dt, p, z.h, InflowVolume(cfg, p, env, z, off), VentOutflow(p, env, z));
    h' == 0.0 || h' == p.height
  }

  /** The room's exchange in a step where it is not skipped: vent outflow, then the
      occupants' inflow when someone is in, then the layer update. It fails exactly
      on a negative head, on a negative base of the plume's powers on-hours, or on a
      zero divisor. */
  function Exchange(cfg: Config, id: ZoneId, p: ZoneParams, env: Environment, z: Zone, off: bool, gExt: real): (r: Result<Zone>)
    requires p.area != 0.0
    ensures r.Err? ==> r.error.zone == id
    ensures Head(p, z) < 0.0 ==> r == Err(StepError(id, SqrtDomain))
    ensures Head(p, z) >= 0.0 && !off && ComplexPlume(cfg, z.h) ==> r == Err(StepError(id, ComplexPower))
    ensures Head(p, z) >= 0.0 && (off || !ComplexPlume(cfg, z.h)) ==>
              && (r.Err? <==> Pinned(cfg, p, env, z, off))
              && (r.Err? ==> r.error.kind == ZeroDivision)
    ensures r.Ok? ==> Updated(cfg, p, env, z, off, gExt, r.value)
  {
    var head := Head(p, z);
    if head < 0.0 then Err(StepError(id, SqrtDomain))
    else
      var qOut := VentOutflow(p, env, z);
      var bOut := VentBuoyancy(p, env, z);
      if !off && ComplexPlume(cfg, z.h) then Err(StepError(id, ComplexPower))
      else if off then Apply(cfg, id, p, z, gExt, InflowVolume(cfg, p, env, z, off), qOut, 0.0, bOut)
      else Apply(cfg, id, p, z, gExt, InflowVolume(cfg, p, env, z, off), qOut, PlumeBuoyancy(cfg, p, env, z.gc, z.h), bOut)
  }

  /** The update of room `id` with parameters `p` from state `z`, given whether the
      step is off-hours and the outside air's effective gravity `gExt`. A skipped
      room only has its outflow reset; `B_out` and everything else stay as they were. */
  function Update(cfg: Config, id: ZoneId, p: ZoneParams, env: Environment, z: Zone, off: bool, gExt: real): (r: Result<Zone>)
    requires p.height != 0.0 && p.area != 0.0
    ensures Skips(p, z, off) ==> r == Ok(z.(qOut := 0.0))
    ensures r.Err? ==> r.error.zone == id && !Skips(p, z, off)
    ensures !Skips(p, z, off) && Head(p, z) < 0.0 ==> r == Err(StepError(id, SqrtDomain))
    ensures !Skips(p, z, off) && Head(p, z) >= 0.0 && !off && ComplexPlume(cfg, z.h) ==>
              r == Err(StepError(id, ComplexPower))
    ensures !Skips(p, z, off) && Head(p, z) >= 0.0 && (off || !ComplexPlume(cfg, z.h)) ==>
              && (r.Err? <==> Pinned(cfg, p, env, z, off))
              && (r.Err? ==> r.error.kind == ZeroDivision)
    ensures r.Ok? && !Skips(p, z, off) ==> Updated(cfg, p, env, z, off, gExt, r.value)
  {
    if Skips(p, z, off) then Ok(z.(qOut := 0.0))
    else Exchange(cfg, id, p, env, z, off, gExt)
  }

  /** Balanced inflow and outflow leave the interface where it was. */
  lemma BalancedFlowKeepsInterface(cfg: Config, id: ZoneId, p: ZoneParams, env: Environment, z: Zone, off: bool, gExt: real)
    requires p.height != 0.0 && p.area != 0.0
    requires Update(cfg, id, p, env, z, off, gExt).Ok?
    requires Update(cfg, id, p, env, z, off, gExt).value.qIn == Update(cfg, id, p, env, z, off, gExt).value.qOut
    ensures Update(cfg, id, p, env, z, off, gExt).value.h == z.h
  {
    var r := Update(cfg, id, p, env, z, off, gExt).value;
    if !Skips(p, z, off) {
      BalancedFlowKeepsLevel(cfg.dt, p, z.h, r.h, r.qIn, r.qOut);
    }
  }

  /** With non-negative square roots, vent area and time step, an off-hours update
      never moves a room's interface down: with no occupant plume there is no inflow. */
  lemma OffHoursInterfaceNeverFalls(cfg: Config, id: ZoneId, p: ZoneParams, env: Environment, z: Zone, off: bool, gExt: real)
    requires p.height != 0.0 && p.area > 0.0 && p.ventArea >= 0.0 && cfg.dt >= 0
    requires forall x :: env.sqrt(x) >= 0.0
    requires off
    requires Update(cfg, id, p, env, z, off, gExt).Ok?
    ensures Update(cfg, id, p, env, z, off, gExt).value.h >= z.h
  {
    var r := Update(cfg, id, p, env, z, off, gExt).value;
    if !Skips(p, z, off) {
      assert env.sqrt(Head(p, z)) >= 0.0;
      OutflowRaisesLevel(cfg.dt, p, z.h, r.h, r.qIn, r.qOut);
    }
  }

  /** With a unit time step the balances of an update are conservation laws: the
      hot layer's buoyancy content changes by exactly the flux in minus the flux out,
      and the cold layer's by the outside air drawn in minus the air entrained upward.
      Every room update that is not skipped satisfies `Exchanged` (see `Update`). */
  lemma UnitStepConservesBuoyancy(cfg: Config, p: ZoneParams, z: Zone, gExt: real, z': Zone)
    requires cfg.dt == 1 && Exchanged(cfg, p, z, gExt, z')
    ensures p.area * (z'.h - z.h) == z'.qOut - z'.qIn
    ensures (p.height - z'.h) * p.area * z'.gh == (p.height - z.h) * p.area * z.gh + z'.bIn - z'.bOut
    ensures z'.h * p.area * z'.gc == z.h * p.area * z.gc + gExt * z'.qOut - z.gc * z'.qIn
  {
  }
}
