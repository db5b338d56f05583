/** The time-stepping driver (Ventilation.py, the main loop): each step updates
    room 0, room 1, then the chimney, stops the run when the chimney's interface
    falls below 1 cm, and otherwise records one sample of every zone. */
module Simulation {
  import opened Building
  import opened Layers
  import Units
  import Schedule
  import Room
  import Chimney

  /** What one step leads to: the next state, a halt (the chimney's interface got too
      low; the state is kept but no sample is recorded), or a runtime failure. */
  datatype StepOutcome = Continue(next: State) | Halt(last: State) | Crash(error: StepError)

  /** One recorded zone: hot and cold layer temperatures and interface height. */
  datatype ZoneSample = ZoneSample(hotTemp: real, coldTemp: real, interface: real)

  datatype Sample = Sample(room0: ZoneSample, room1: ZoneSample, chimney: ZoneSample)

  /** Why a run ended, with the index of the step that did not complete. */
  datatype Stop = Completed | Halted(step: nat) | Crashed(step: nat, error: StepError)

  datatype RunResult = RunResult(final: State, samples: seq<Sample>, stop: Stop)

  /** Below this chimney interface height the run is stopped. */
  const MinChimneyInterface: real := 0.01

  /** One step at second `t`. Rooms see only their own state; the chimney sees the
      room states produced earlier in this step. The step crashes exactly when one of
      the three zone updates fails, and halts exactly when an ungated chimney ends
      below `MinChimneyInterface`; `StepObeysZoneLaws` states what it does to each
      zone. */
  function Step(cfg: Config, env: Environment, s: State, t: int): (o: StepOutcome)
    requires WellFormed(cfg)
    ensures var off := Schedule.OffHours(cfg.leaveWork, t);
            var gExt := ExternalG(cfg, env, t);
            var u0 := Room.Update(cfg, Room0, cfg.room0, env, s.room0, off, gExt);
            var u1 := Room.Update(cfg, Room1, cfg.room1, env, s.room1, off, gExt);
            o.Crash? <==>
              || u0.Err? || u1.Err?
              || (u0.Ok? && u1.Ok? && Chimney.Update(cfg, cfg.chimney, env, s.chimney, off, gExt, u0.value, u1.value).Err?)
    ensures o.Halt? ==>
              !Chimney.Gated(cfg.chimney, s.chimney, Schedule.OffHours(cfg.leaveWork, t)) && o.last.chimney.h < MinChimneyInterface
    ensures !o.Crash? && StateOf(o).chimney.h < MinChimneyInterface ==>
              o.Halt? || Chimney.Gated(cfg.chimney, s.chimney, Schedule.OffHours(cfg.leaveWork, t))
    ensures o.Continue? ==>
              Chimney.Gated(cfg.chimney, s.chimney, Schedule.OffHours(cfg.leaveWork, t)) || o.next.chimney.h >= MinChimneyInterface
    ensures Chimney.Gated(cfg.chimney, s.chimney, Schedule.OffHours(cfg.leaveWork, t)) && !o.Crash? ==>
              o.Continue? && o.next.chimney == s.chimney
    ensures Room.Skips(cfg.room0, s.room0, Schedule.OffHours(cfg.leaveWork, t)) && !o.Crash? ==>
              StateOf(o).room0 == s.room0.(qOut := 0.0)
    ensures Room.Skips(cfg.room1, s.room1, Schedule.OffHours(cfg.leaveWork, t)) && !o.Crash? ==>
              StateOf(o).room1 == s.room1.(qOut := 0.0)
    ensures !o.Crash? && !Chimney.Gated(cfg.chimney, s.chimney, Schedule.OffHours(cfg.leaveWork, t)) && Schedule.OffHours(cfg.leaveWork, t) ==>
              && StateOf(o).chimney.qIn == StateOf(o).room0.qOut + StateOf(o).room1.qOut
              && StateOf(o).chimney.bIn == StateOf(o).room0.bOut + StateOf(o).room1.bOut
  {
    var off := Schedule.OffHours(cfg.leaveWork, t);
    var gExt := ExternalG(cfg, env, t);
    match Room.Update(cfg, Room0, cfg.room0, env, s.room0, off, gExt)
    case Err(e) => Crash(e)
    case Ok(r0) =>
      match Room.Update(cfg, Room1, cfg.room1, env, s.room1, off, gExt)
      case Err(e) => Crash(e)
      case Ok(r1) =>
        match Chimney.Update(cfg, cfg.chimney, env, s.chimney, off, gExt, r0, r1)
        case Err(e) => Crash(e)
        case Ok(c) =>
          var next := State(r0, r1, c);
          if !Chimney.Gated(cfg.chimney, s.chimney, off) && c.h < MinChimneyInterface then Halt(next)
          else Continue(next)
  }

  /** Step number `i` of the run, which starts at second `i * dt`. */
  function StepAt(cfg: Config, env: Environment, s: State, i: nat): StepOutcome
    requires WellFormed(cfg)
  {
    Step(cfg, env, s, i * cfg.dt)
  }

  /** What a step that does not crash does to each zone: a room that is not skipped
      obeys the room update law, and an ungated chimney obeys the chimney update law,
      taking in the outflows of the rooms' states of this same step. */
  lemma StepObeysZoneLaws(cfg: Config, env: Environment, s: State, t: int)
    requires WellFormed(cfg)
    requires !Step(cfg, env, s, t).Crash?
    ensures var off := Schedule.OffHours(cfg.leaveWork, t);
            var n := StateOf(Step(cfg, env, s, t));
            !Room.Skips(cfg.room0, s.room0, off) ==>
              Room.Updated(cfg, cfg.room0, env, s.room0, off, ExternalG(cfg, env, t), n.room0)
    ensures var off := Schedule.OffHours(cfg.leaveWork, t);
            var n := StateOf(Step(cfg, env, s, t));
            !Room.Skips(cfg.room1, s.room1, off) ==>
              Room.Updated(cfg, cfg.room1, env, s.room1, off, ExternalG(cfg, env, t), n.room1)
    ensures var off := Schedule.OffHours(cfg.leaveWork, t);
            var n := StateOf(Step(cfg, env, s, t));
            !Chimney.Gated(cfg.chimney, s.chimney, off) ==>
              Chimney.Vented(cfg, cfg.chimney, env, s.chimney, off, ExternalG(cfg, env, t), n.room0, n.room1, n.chimney)
  {
  }

  /** The state a non-failing step leaves behind. */
  function StateOf(o: StepOutcome): State
    requires !o.Crash?
  {
    if o.Continue? then o.next else o.last
  }

  function RecordZone(cfg: Config, z: Zone): (r: ZoneSample)
    requires WellFormed(cfg)
    ensures Units.GFromTemp(cfg.gReal, cfg.tNight, r.hotTemp) == z.gh
    ensures Units.GFromTemp(cfg.gReal, cfg.tNight, r.coldTemp) == z.gc
    ensures r.interface == z.h
  {
    Units.GravityRoundTrip(cfg.gReal, cfg.tNight, z.gh);
    Units.GravityRoundTrip(cfg.gReal, cfg.tNight, z.gc);
    ZoneSample(
      Units.TempFromG(cfg.gReal, cfg.tNight, z.gh),
      Units.TempFromG(cfg.gReal, cfg.tNight, z.gc),
      z.h)
  }

  function SampleAt(r: Sample, id: ZoneId): ZoneSample
  {
    match id
    case Room0 => r.room0
    case Room1 => r.room1
    case Atrium => r.chimney
  }

  /** The sample recorded after a completed step: every zone's layer temperatures
      (converted from gravities, so they convert back exactly) and interface height. */
  function Record(cfg: Config, s: State): (r: Sample)
    requires WellFormed(cfg)
    ensures forall id: ZoneId :: Units.GFromTemp(cfg.gReal, cfg.tNight, SampleAt(r, id).hotTemp) == ZoneAt(s, id).gh
    ensures forall id: ZoneId :: Units.GFromTemp(cfg.gReal, cfg.tNight, SampleAt(r, id).coldTemp) == ZoneAt(s, id).gc
    ensures forall id: ZoneId :: SampleAt(r, id).interface == ZoneAt(s, id).h
  {
    Sample(RecordZone(cfg, s.room0), RecordZone(cfg, s.room1), RecordZone(cfg, s.chimney))
  }

  /** Number of steps whose sample was recorded in a run of `steps` steps. */
  function CompletedSteps(stop: Stop, steps: nat): nat
  {
    match stop
    case Completed => steps
    case Halted(k) => k
    case Crashed(k, _) => k
  }

  /** Puts samples recorded before step `i` in front of the result of the run from `i`. */
  function Prepend(pre: seq<Sample>, r: RunResult): RunResult
  {
    RunResult(r.final, pre + r.samples, r.stop)
  }

  /** The run from step `i` to `steps` starting in state `s`: the reference
      definition of the main loop. */
  function Run(cfg: Config, env: Environment, s: State, i: nat, steps: nat): (r: RunResult)
    requires WellFormed(cfg) && i <= steps
    ensures i + |r.samples| == CompletedSteps(r.stop, steps)
    ensures !r.stop.Completed? ==> i <= CompletedSteps(r.stop, steps) < steps
    ensures r.stop.Halted? ==> r.final.chimney.h < MinChimneyInterface
    ensures r.stop.Completed? && |r.samples| > 0 ==> r.samples[|r.samples| - 1] == Record(cfg, r.final)
    ensures r.stop.Completed? && |r.samples| == 0 ==> r.final == s
    decreases steps - i
  {
    if i == steps then RunResult(s, [], Completed)
    else
      match StepAt(cfg, env, s, i)
      case Crash(e) => RunResult(s, [], Crashed(i, e))
      case Halt(last) => RunResult(last, [], Halted(i))
      case Continue(next) => Prepend([Record(cfg, next)], Run(cfg, env, next, i + 1, steps))
  }

  /** A step that continues contributes its sample in front of the rest of the run. */
  lemma RunContinues(cfg: Config, env: Environment, s: State, i: nat, steps: nat, next: State)
    requires WellFormed(cfg) && i < steps
    requires StepAt(cfg, env, s, i) == Continue(next)
    ensures Run(cfg, env, s, i, steps) == Prepend([Record(cfg, next)], Run(cfg, env, next, i + 1, steps))
  {
  }

  /** A step that crashes or halts ends the run with no further sample. */
  lemma RunStops(cfg: Config, env: Environment, s: State, i: nat, steps: nat)
    requires WellFormed(cfg) && i < steps
    requires !StepAt(cfg, env, s, i).Continue?
    ensures StepAt(cfg, env, s, i).Crash? ==>
              Run(cfg, env, s, i, steps) == RunResult(s, [], Crashed(i, StepAt(cfg, env, s, i).error))
    ensures StepAt(cfg, env, s, i).Halt? ==>
              Run(cfg, env, s, i, steps) == RunResult(StepAt(cfg, env, s, i).last, [], Halted(i))
  {
  }

  lemma PrependTwice(a: seq<Sample>, b: seq<Sample>, r: RunResult)
    ensures Prepend(a, Prepend(b, r)) == Prepend(a + b, r)
  {
    assert a + (b + r.samples) == (a + b) + r.samples;
  }

  /** The main loop as written: step, stop on a failure or a halt, otherwise record a
      sample. It computes exactly the reference run from step 0. */
  method Simulate(cfg: Config, env: Environment, init: State, steps: nat) returns (final: State, samples: seq<Sample>, stop: Stop)
    requires WellFormed(cfg)
    ensures RunResult(final, samples, stop) == Run(cfg, env, init, 0, steps)
    ensures |samples| == CompletedSteps(stop, steps)
  {
    var s := init;
    var i := 0;
    samples := [];
    while i < steps
      invariant 0 <= i <= steps
      invariant |samples| == i
      invariant Run(cfg, env, init, 0, steps) == Prepend(samples, Run(cfg, env, s, i, steps))
      decreases steps - i
    {
      var o := StepAt(cfg, env, s, i);
      match o
      case Crash(e) => {
        RunStops(cfg, env, s, i, steps);
        assert samples + [] == samples;
        return s, samples, Crashed(i, e);
      }
      case Halt(last) => {
        RunStops(cfg, env, s, i, steps);
        assert samples + [] == samples;
        return last, samples, Halted(i);
      }
      case Continue(next) => {
        RunContinues(cfg, env, s, i, steps, next);
        PrependTwice(samples, [Record(cfg, next)], Run(cfg, env, next, i + 1, steps));
        samples := samples + [Record(cfg, next)];
        s := next;
        i := i + 1;
      }
    }
    return s, samples, Completed;
  }

  /** How much the cold layers of the building gained in volume from `s` to `n`:
      every interface's rise times its floor area. */
  function ColdVolumeGain(cfg: Config, s: State, n: State): real
  {
    cfg.room0.area * (n.room0.h - s.room0.h) + cfg.room1.area * (n.room1.h - s.room1.h)
      + cfg.chimney.area * (n.chimney.h - s.chimney.h)
  }

  /** While nobody is in and every zone updates, the building's cold layers together
      gain exactly the volume the chimney vents: the rooms' outflows are the chimney's
      inflow, so they cancel. */
  lemma OffHoursBuildingVolumeBalance(cfg: Config, env: Environment, s: State, t: int)
    requires WellFormed(cfg)
    requires Schedule.OffHours(cfg.leaveWork, t)
    requires !Room.Skips(cfg.room0, s.room0, Schedule.OffHours(cfg.leaveWork, t)) && !Room.Skips(cfg.room1, s.room1, Schedule.OffHours(cfg.leaveWork, t))
    requires !Chimney.Gated(cfg.chimney, s.chimney, Schedule.OffHours(cfg.leaveWork, t))
    requires !Step(cfg, env, s, t).Crash?
    ensures ColdVolumeGain(cfg, s, StateOf(Step(cfg, env, s, t))) == (cfg.dt as real) * StateOf(Step(cfg, env, s, t)).chimney.qOut
  {
    var off := Schedule.OffHours(cfg.leaveWork, t);
    var gExt := ExternalG(cfg, env, t);
    var r0 := Room.Update(cfg, Room0, cfg.room0, env, s.room0, off, gExt).value;
    var r1 := Room.Update(cfg, Room1, cfg.room1, env, s.room1, off, gExt).value;
    var c := Chimney.Update(cfg, cfg.chimney, env, s.chimney, off, gExt, r0, r1).value;
    assert StateOf(Step(cfg, env, s, t)) == State(r0, r1, c);
    AddVolumeBalances(cfg, s, State(r0, r1, c));
  }

  /** The arithmetic behind `OffHoursBuildingVolumeBalance`: two rooms without
      inflow whose outflows are the chimney's whole inflow. */
  lemma AddVolumeBalances(cfg: Config, s: State, n: State)
    requires VolumeBalanced(cfg.dt, cfg.room0, s.room0.h, n.room0.h, n.room0.qIn, n.room0.qOut) && n.room0.qIn == 0.0
    requires VolumeBalanced(cfg.dt, cfg.room1, s.room1.h, n.room1.h, n.room1.qIn, n.room1.qOut) && n.room1.qIn == 0.0
    requires VolumeBalanced(cfg.dt, cfg.chimney, s.chimney.h, n.chimney.h, n.chimney.qIn, n.chimney.qOut)
    requires n.chimney.qIn == n.room0.qOut + n.room1.qOut
    ensures ColdVolumeGain(cfg, s, n) == (cfg.dt as real) * n.chimney.qOut
  {
    var d := cfg.dt as real;
    assert cfg.room0.area * (n.room0.h - s.room0.h) == d * n.room0.qOut;
    assert cfg.room1.area * (n.room1.h - s.room1.h) == d * n.room1.qOut;
    assert -d * (n.room0.qOut + n.room1.qOut - n.chimney.qOut) == d * n.chimney.qOut - d * n.room0.qOut - d * n.room1.qOut;
  }

  /** A room's new state depends on nothing but its own previous state: changing the
      other room or the chimney cannot change it. */
  lemma RoomsAreIndependent(cfg: Config, env: Environment, s: State, s': State, t: int)
    requires WellFormed(cfg)
    requires !Step(cfg, env, s, t).Crash? && !Step(cfg, env, s', t).Crash?
    ensures s.room0 == s'.room0 ==> StateOf(Step(cfg, env, s, t)).room0 == StateOf(Step(cfg, env, s', t)).room0
    ensures s.room1 == s'.room1 ==> StateOf(Step(cfg, env, s, t)).room1 == StateOf(Step(cfg, env, s', t)).room1
  {
  }

  /** The chimney's gate is looser than a room's skip: whatever a room skips is
      gated as a chimney, and an interface between 99% and 99.9% of the height is
      gated but not skipped. */
  lemma ChimneyGateIsLooser(p: ZoneParams, z: Zone, off: bool)
    requires p.height > 0.0
    ensures Room.Skips(p, z, off) ==> Chimney.Gated(p, z, off)
    ensures off && 0.99 * p.height < z.h <= 0.999 * p.height ==> Chimney.Gated(p, z, off) && !Room.Skips(p, z, off)
  {
  }

  /** A skipped room's stale buoyancy outflow still reaches the chimney: with room 0
      skipped off-hours, the chimney receives no volume from it but all of the
      buoyancy flux room 0 last reported. */
  lemma SkippedRoomLeaksStaleBuoyancy(cfg: Config, env: Environment, s: State, t: int)
    requires WellFormed(cfg)
    requires Room.Skips(cfg.room0, s.room0, Schedule.OffHours(cfg.leaveWork, t))
    requires !Chimney.Gated(cfg.chimney, s.chimney, Schedule.OffHours(cfg.leaveWork, t))
    requires !Step(cfg, env, s, t).Crash?
    ensures var n := StateOf(Step(cfg, env, s, t));
      n.chimney.qIn == n.room1.qOut && n.chimney.bIn == s.room0.bOut + n.room1.bOut
  {
  }
}
