/** The data of the two-room-plus-chimney building: per-zone geometry, the run
    configuration, the abstracted numerics, and the per-zone two-layer state. */
module Building {
  import Units

  /** Geometry and occupancy of one zone: height H, floor area S, effective vent
      area A_eff and number of people n. */
  datatype ZoneParams = ZoneParams(height: real, area: real, ventArea: real, people: nat)

  /** The constants of a run. `plumeConst` is the plume constant c, `wattsPerPerson`
      the heat input w of one person, `dt` the time step in seconds. */
  datatype Config = Config(
    room0: ZoneParams,
    room1: ZoneParams,
    chimney: ZoneParams,
    plumeConst: real,
    wattsPerPerson: real,
    tNight: real,
    gReal: real,
    leaveWork: bool,
    dt: int)

  /** Everything the step needs but cannot compute exactly: the square root, the
      cube root of the per-person buoyancy, the 5/3 power of the interface height,
      and the outside temperature at a given second of the run. */
  datatype Environment = Environment(
    sqrt: real -> real,
    cbrt: real -> real,
    pow53: real -> real,
    ambient: int -> real)

  /** Two-layer state of one zone: interface height, hot and cold layer gravity,
      and the volume and buoyancy fluxes into and out of the hot layer as last set. */
  datatype Zone = Zone(h: real, gh: real, gc: real, qIn: real, qOut: real, bIn: real, bOut: real)

  datatype State = State(room0: Zone, room1: Zone, chimney: Zone)

  datatype ZoneId = Room0 | Room1 | Atrium

  /** Runtime failures of the step: a negative square-root argument (a math domain
      error), a negative base of a fractional power (a complex value), a zero divisor. */
  datatype ErrorKind = SqrtDomain | ComplexPower | ZeroDivision

  datatype StepError = StepError(zone: ZoneId, kind: ErrorKind)

  datatype Result<T> = Ok(value: T) | Err(error: StepError)

  /** The divisions of a step are defined: zone heights and areas are non-zero,
      and both unit conversions have non-zero divisors. */
  predicate WellFormed(cfg: Config)
  {
    && cfg.room0.height != 0.0 && cfg.room0.area != 0.0
    && cfg.room1.height != 0.0 && cfg.room1.area != 0.0
    && cfg.chimney.height != 0.0 && cfg.chimney.area != 0.0
    && cfg.gReal != 0.0
    && 273.0 + cfg.tNight != 0.0
  }

  /** Buoyancy flux put in by one person emitting `w` watts. */
  function PersonBuoyancy(w: real): (b: real)
    ensures b == 0.0 <==> w == 0.0
    ensures b > 0.0 <==> w > 0.0
  {
    0.0281 * (w / 1000.0)
  }

  /** Volume flux entrained by the occupants' plumes rising to interface height `h`. */
  function PlumeFlow(cfg: Config, p: ZoneParams, env: Environment, h: real): (q: real)
    ensures p.people == 0 || cfg.plumeConst == 0.0 ==> q == 0.0
  {
    cfg.plumeConst * (p.people as real) * env.cbrt(PersonBuoyancy(cfg.wattsPerPerson)) * env.pow53(h)
  }

  /** Buoyancy flux the occupants' plume brings into the hot layer at interface
      height `h`: the heat of `n` people plus the cold-layer air (at gravity `gc`)
      the plume entrains. */
  function PlumeBuoyancy(cfg: Config, p: ZoneParams, env: Environment, gc: real, h: real): (b: real)
    ensures p.people == 0 ==> b == 0.0
    ensures gc == 0.0 ==> b == PersonBuoyancy(cfg.wattsPerPerson) * (p.people as real)
  {
    PersonBuoyancy(cfg.wattsPerPerson) * (p.people as real) + gc * PlumeFlow(cfg, p, env, h)
  }

  /** The plume's fractional powers `B**(1/3)` and `h**(5/3)` have a negative base:
      negative heat input per person, or an interface below the floor. */
  predicate ComplexPlume(cfg: Config, h: real)
  {
    PersonBuoyancy(cfg.wattsPerPerson) < 0.0 || h < 0.0
  }

  /** Effective gravity of the outside air at second `t`. */
  function ExternalG(cfg: Config, env: Environment, t: int): (g: real)
    requires WellFormed(cfg)
    ensures g == 0.0 <==> env.ambient(t) == cfg.tNight
  {
    Units.GFromTemp(cfg.gReal, cfg.tNight, env.ambient(t))
  }

  function ZoneAt(s: State, id: ZoneId): Zone
  {
    match id
    case Room0 => s.room0
    case Room1 => s.room1
    case Atrium => s.chimney
  }

  /** Starting state: rooms half full of hot air, the chimney nine-tenths, hot layers
      one degree above night temperature, cold layers at night temperature, no flow. */
  function Initial(cfg: Config): (s: State)
    requires WellFormed(cfg)
    ensures s.room0.h == 0.5 * cfg.room0.height && s.room1.h == 0.5 * cfg.room1.height
    ensures s.chimney.h == 0.9 * cfg.chimney.height
    ensures forall id: ZoneId :: Units.TempFromG(cfg.gReal, cfg.tNight, ZoneAt(s, id).gc) == cfg.tNight
    ensures forall id: ZoneId :: Units.TempFromG(cfg.gReal, cfg.tNight, ZoneAt(s, id).gh) == cfg.tNight + 1.0
    ensures forall id: ZoneId :: ZoneAt(s, id).qIn == 0.0 == ZoneAt(s, id).qOut
    ensures forall id: ZoneId :: ZoneAt(s, id).bIn == 0.0 == ZoneAt(s, id).bOut
  {
    var gh := Units.GFromTemp(cfg.gReal, cfg.tNight, cfg.tNight + 1.0);
    Units.TemperatureRoundTrip(cfg.gReal, cfg.tNight, cfg.tNight + 1.0);
    State(
      Zone(0.5 * cfg.room0.height, gh, 0.0, 0.0, 0.0, 0.0, 0.0),
      Zone(0.5 * cfg.room1.height, gh, 0.0, 0.0, 0.0, 0.0, 0.0),
      Zone(0.9 * cfg.chimney.height, gh, 0.0, 0.0, 0.0, 0.0, 0.0))
  }

  /** The constants the script runs with. */
  function SourceConfig(): (cfg: Config)
    ensures WellFormed(cfg)
    ensures cfg.dt == 1 && cfg.leaveWork
    ensures PersonBuoyancy(cfg.wattsPerPerson) == 0.00281
  {
    Config(
      ZoneParams(3.0, 100.0, 0.5, 5),
      ZoneParams(3.0, 100.0, 0.5, 5),
      ZoneParams(10.0, 30.0, 0.5, 0),
      0.15, 100.0, 10.0, 9.81, true, 1)
  }
}
