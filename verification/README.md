# Two rooms and a chimney: a verified model of the ventilation time step

`Ventilation.py` time-steps a lumped two-layer buoyancy model of a building with
two rooms (0 and 1) that vent into a chimney (atrium, zone 2). Each zone has an
interface height `h` with a hot layer above it and a cold layer below it. The
layers carry "effective gravities" `g_h` and `g_c`, an affine stand-in for
temperature. Each step does the following:

- updates room 0 and then room 1 from their own previous state;
- updates the chimney from its previous state and from the outflows the rooms produced earlier in the same step;
- stops the run if the chimney's interface falls below 1 cm;
- otherwise records one sample of every zone.

This project models the exact part of that script over Dafny's `real`:

- `Units`: the temperature / effective-gravity conversions `temp_from_g` and `g_from_temp`.
- `Schedule`: the off-hours test. The script repeats it inline at every use; here it is one predicate `OffHours`.
- `Layers`: the explicit update shared by all zones. It moves the interface by the net volume flux, then sets each layer's gravity to its new buoyancy content over its new volume. Both results are multiplied by `dt` exactly as the script writes it.
- `Room`: the room update. This covers the skip decision, the vent outflow, the occupants' plume and heat (on-hours only), and the failures Python would raise.
- `Chimney`: the chimney update. This covers its own gate (threshold 0.99, not the rooms' 0.999) and its inflow aggregated from the rooms. The cold layer is recomputed only when the chimney vents more than the rooms send it.
- `Simulation`: one step (`Step`), the whole loop as a reference function (`Run`) and the loop itself (`Simulate`), proved equal to `Run`.

Things the code does that a reader might not expect, each stated in the model:

- A skipped room only resets `Q_out`. Its `B_out` keeps the previous step's value, and off-hours the chimney still adds that stale flux to its `B_in` (`Simulation.SkippedRoomLeaksStaleBuoyancy`).
- When the chimney recomputes its cold layer on-hours, it evaluates `h**(5/3)` at the interface height after the move (line 125). Its inflow uses the height before the move (lines 114-115).
- The `dt*(...)` factor multiplies the whole layer-gravity ratio, not only the fluxes. The balance laws are therefore stated with that factor (`Layers.HotBalanced`, `Layers.ColdBalanced`). They read as plain conservation of buoyancy only when `dt == 1`, which is the script's value (`Room.UnitStepConservesBuoyancy`).
- Python's `%` with a positive modulus floors. This agrees with Dafny's Euclidean `%` for every integer, so `OffHours` needs no restriction on `t`.

Inputs the script computes but that cannot be stated exactly are fields of an `Environment` value:

- the square root;
- the cube root of the per-person buoyancy;
- the 5/3 power of the interface height;
- the outside temperature at each second.

Nothing in the model depends on their values except where a lemma says so in its `requires`. For example, `Room.OffHoursInterfaceNeverFalls` needs non-negative square roots.

Runtime failures are `Err` values, and each zone update states both directions: it fails exactly when one of these holds, and otherwise it obeys its update law.

- `SqrtDomain`: `math.sqrt` of a negative driving head.
- `ComplexPower`: a negative base of the plume's fractional powers, on-hours.
- `ZeroDivision`: an interface that lands exactly on the floor or the ceiling (for the chimney, on the floor only in a step that recomputes its cold layer).

Divisors fixed by the configuration are excluded by `Building.WellFormed` instead: zone heights, floor areas, `g_real` and `273 + T_night` must be non-zero. The script's own constants meet these conditions (`Building.SourceConfig`).

## Model

| member | source | states |
|---|---|---|
| Units.GFromTemp | Ventilation.py:43-44 | the gravity is zero exactly at night temperature |
| Units.TempFromG | Ventilation.py:41-42 | gravity zero reads back as night temperature, and only it does |
| Units.GravityRoundTrip | Ventilation.py:41-44 | `g_from_temp(temp_from_g(g)) == g` for every g, when `g_real != 0` and `273+T_night != 0` |
| Units.TemperatureRoundTrip | Ventilation.py:41-44 | `temp_from_g(g_from_temp(T)) == T` for every T, under the same conditions |
| Units.GravityStrictlyIncreasing | Ventilation.py:43-44 | with `g_real > 0` and `273+T_night > 0`, warmer air has strictly larger gravity, in both directions |
| Units.TemperatureStrictlyIncreasing | Ventilation.py:41-42 | under the same conditions, larger gravity reads as a strictly higher temperature, in both directions |
| Schedule.OffHours | Ventilation.py:85 | true only when people leave work, and then exactly when `t % 86400` lies outside the closed window [32400, 61200] |
| Schedule.TimeOfDay | Ventilation.py:85 | the time of day lies in [0, 86400) and differs from `t` by whole days |
| Schedule.OffHoursPeriodic | Ventilation.py:85 | adding or removing any whole number of days leaves the off-hours answer unchanged |
| Schedule.OffHoursByTimeOfDay | Ventilation.py:85 | the answer depends on `t` only through `t % 86400` |
| Schedule.OffHoursOutsideWindow | Ventilation.py:85 | with people leaving work, off-hours exactly when `t % 86400` is outside the closed window [32400, 61200] |
| Schedule.AlwaysAtWork | Ventilation.py:85 | with people not leaving work, no time is off-hours |
| Schedule.WindowBoundaries | Ventilation.py:89 | 09:00:00 and 17:00:00 count as occupied; 08:59:59 and 17:00:01 do not |
| Building.PersonBuoyancy | Ventilation.py:37 | the per-person buoyancy is zero or positive exactly as the wattage is |
| Building.PlumeFlow | Ventilation.py:93 | the plume's volume flux `c*n*B**(1/3)*h**(5/3)` is zero when nobody is in the zone or the plume constant is zero |
| Building.PlumeBuoyancy | Ventilation.py:94 | the plume's buoyancy flux `B*n + g_c*Q_in` is zero in an empty zone and is the occupants' heat alone when the cold layer is at night temperature |
| Building.ExternalG | Ventilation.py:100 | the outside air's gravity is zero exactly when the outside temperature is the night temperature |
| Building.Initial | Ventilation.py:47-58 | interfaces start at half the room heights and 0.9 of the chimney's; cold layers read as night temperature and hot layers one degree warmer; all fluxes start at zero |
| Building.SourceConfig | Ventilation.py:7-49 | the script's constants are well formed, use `dt == 1` and people leaving work, and give 0.00281 buoyancy per person |
| Layers.Head | Ventilation.py:86 | the driving head `(g_h-g_c)*(H-h)` is zero exactly when the layers have equal gravity or the interface is at the ceiling; below the ceiling it is positive exactly when the hot layer is lighter |
| Layers.VentOutflow | Ventilation.py:86 | `Q_out = A_eff*sqrt(head)` is zero for a closed vent and non-negative for a non-negative vent area and square root |
| Layers.VentBuoyancy | Ventilation.py:87 | `B_out = g_h*Q_out` is zero when the hot layer is at night temperature or the vent is closed |
| Layers.MovedInterface | Ventilation.py:98 | floor area times the interface's rise equals `-dt` times net inflow (volume balance) |
| Layers.HotGravity | Ventilation.py:99 | the new hot-layer content (volume times gravity) is `dt` times the old content plus buoyancy in minus out |
| Layers.ColdGravity | Ventilation.py:100 | the new cold-layer content is `dt` times the old content plus the outside air drawn in minus the cold air entrained |
| Layers.BalancedFlowKeepsLevel | Ventilation.py:98 | under the volume balance, equal inflow and outflow leave the interface where it was |
| Layers.OutflowRaisesLevel | Ventilation.py:98 | under the volume balance, no inflow with a non-negative outflow and time step never lowers the interface |
| Room.Skips | Ventilation.py:85 | a room is skipped only off-hours, and then exactly when its interface is above 99.9% of its height |
| Room.InflowVolume | Ventilation.py:89-93 | the room's inflow is zero off-hours and in an empty room, otherwise the plume at the interface before the move |
| Room.Apply | Ventilation.py:98-100 | keeps the given fluxes and satisfies the volume, hot-layer and cold-layer balances (outside air drawn in equals `Q_out`, entrained air equals `Q_in`); fails with a zero divisor exactly when the new interface is at the floor or the ceiling |
| Room.Exchange | Ventilation.py:86-100 | fails with `SqrtDomain` exactly on a negative head; otherwise with `ComplexPower` exactly on-hours with a negative plume base; otherwise it fails (a zero divisor) if and only if the moved interface lands on the floor or the ceiling. On success: `Q_out = A_eff*sqrt(head)`, `B_out = g_h*Q_out`; off-hours `Q_in = B_in = 0`, on-hours the plume flow and `B*n + g_c*Q_in`; the balances hold |
| Room.Update | Ventilation.py:85-102 | if the room skips (off-hours and `h/H > 0.999`), only `Q_out` changes, to 0; otherwise the same failure conditions as `Exchange`, each in both directions, and on success the vent law, the inflow rule and the balances |
| Room.BalancedFlowKeepsInterface | Ventilation.py:98 | a successful update with `Q_in == Q_out` leaves the interface where it was |
| Room.OffHoursInterfaceNeverFalls | Ventilation.py:89-98 | off-hours, with non-negative square roots, vent area and time step, a room's interface never moves down |
| Room.UnitStepConservesBuoyancy | Ventilation.py:98-100 | with `dt == 1` the balances are conservation laws for volume and for both layers' buoyancy |
| Chimney.Gated | Ventilation.py:105 | the chimney is gated only off-hours, and then exactly when its interface is above 99% of its height |
| Chimney.Entrained | Ventilation.py:124-125 | no cold air is entrained off-hours or in an empty chimney |
| Chimney.InflowVolume | Ventilation.py:110-114 | the chimney's inflow is exactly the rooms' outflow off-hours or with nobody in it, plus the plume on-hours |
| Chimney.Apply | Ventilation.py:119-125 | fails (a zero divisor) if and only if the new interface is at the ceiling, or at the floor when the cold layer is recomputed; a new interface below the floor is not a failure. Volume and hot-layer balances hold; the cold layer is recomputed (its balance holds, with outside air replacing the outflow the rooms did not supply) only when the chimney vents more than the rooms send it, otherwise `g_c` is unchanged |
| Chimney.VentEmpty | Ventilation.py:107-123 | off-hours: fails with `SqrtDomain` exactly on a negative head, otherwise if and only if a zero divisor occurs, never with a complex power; on success the vent law holds, the inflow is exactly the rooms' `Q_out` and `B_out`, and no cold air is entrained |
| Chimney.VentOccupied | Ventilation.py:107-125 | on-hours: `SqrtDomain` exactly on a negative head, otherwise `ComplexPower` exactly on a negative plume base, otherwise failure if and only if a zero divisor occurs; on success the inflow adds the plume at the old interface and the occupants' buoyancy, and the cold layer entrains the plume at the new interface |
| Chimney.Update | Ventilation.py:105-125 | gated (off-hours and `h/H > 0.99`): nothing changes. Otherwise the failure conditions of `VentEmpty`/`VentOccupied`, each in both directions, and on success the vent law, the inflow aggregated from this step's room outflows and the balances; `g_c` changes only when the chimney vents more than it receives |
| Chimney.BelowFloorIsNoFailure | Ventilation.py:119-126 | on-hours, with the script's constants, one occupant, a square root of 2 and a 5/3 power of 20, a chimney interface at 0.05 moves to -1/60 and the update succeeds, so the step can halt instead of failing |
| Simulation.Step | Ventilation.py:77-129 | the step crashes if and only if room 0's, room 1's or the chimney's update fails, the chimney reading the rooms' new states; it halts if and only if an ungated chimney ends below 0.01; a skipped room only has `Q_out` reset, a gated chimney is unchanged, and off-hours the chimney's `Q_in`/`B_in` are the sums of this step's room `Q_out`/`B_out` |
| Simulation.StepObeysZoneLaws | Ventilation.py:80-125 | in a step that does not crash, each room that is not skipped obeys `Room.Updated` and an ungated chimney obeys `Chimney.Vented`, with this step's new room states as its inflow |
| Simulation.RecordZone | Ventilation.py:131-140 | the recorded temperatures convert back exactly to the layer gravities, and the recorded height is the interface |
| Simulation.Record | Ventilation.py:131-140 | for each of the three zones, the sample's temperatures convert back exactly to that zone's layer gravities and its height is that zone's interface |
| Simulation.Run | Ventilation.py:77-140 | the number of samples equals the number of completed steps; a halt or crash leaves the step index below `steps`; after a halt the chimney interface is below 0.01; a completed run's last sample is the final state's |
| Simulation.Simulate | Ventilation.py:77-140 | the loop with its `break` computes exactly the reference run from step 0, with one sample per completed step |
| Simulation.OffHoursBuildingVolumeBalance | Ventilation.py:98-119 | off-hours, when all three zones update, the cold layers of the building together gain exactly `dt` times the chimney's outflow in volume |
| Simulation.RoomsAreIndependent | Ventilation.py:80-102 | a room's new state depends only on its own previous state, never on the other room or the chimney |
| Simulation.ChimneyGateIsLooser | Ventilation.py:85-105 | whatever a room would skip is gated as a chimney, and an interface between 99% and 99.9% of the height is gated but not skipped |
| Simulation.SkippedRoomLeaksStaleBuoyancy | Ventilation.py:102-112 | with room 0 skipped and the chimney updating, the chimney takes no volume from room 0 but all of room 0's last-reported `B_out` |

## Left out

- `get_ext_temp` (Ventilation.py:39-40) is a cosine of the time of day; Dafny has no trigonometry, so the outside temperature is the `ambient` field of `Environment`, converted with `g_from_temp` inside the step. `T_day` is used only there and is not part of `Config`.
- The values of `sqrt`, `B**(1/3)` and `h**(5/3)` are the `sqrt`, `cbrt` and `pow53` fields of `Environment`; the model keeps only where they are applied and to what.
- Floating-point rounding: all quantities are exact reals.
- Room.Exchange and Room.Update: in a room, a negative base of `**(1/3)` or `**(5/3)` makes `Q_in`, `h`, `g_h` and `g_c` complex in Python, and the script fails with a `TypeError` only at that room's next comparison or square root, in the following step. The model stops at the power itself with `ComplexPower`. So the run ends one step earlier than the script would, without the sample of complex values, and a halt of the chimney in that same step, or a last step, is reported as a crash.
- In the chimney, the same complex inflow makes `h` complex, and the height test at line 126 raises in the same step, so `ComplexPower` there matches the script. A negative new interface at line 125 is different: it only makes `g_c` complex and the step then halts on the real `h`. The model halts too, with `g_c` computed from the `pow53` value of the environment at that height; that real `g_c` of the halted state stands in for Python's complex one.
- Simulation.Run: on a Python exception the script dies with a partly updated state; the model ends the run with the state from before the failing step, and records no sample for it (as the script does not).
- Plotting, the `DEBUGGING` graphs, the `ts` axis list and `t_start` (Ventilation.py:2, 51, 61-69, 142-193) and the console output of `dump()` and the halt message (Ventilation.py:71-74, 127-128) are presentation.
- The module-level constants (Ventilation.py:7-14, 36-37, 47-53) are fields of `Config` rather than literals; `SourceConfig` holds the script's values. `steps` is a parameter of `Run` and `Simulate`.
- Zero height or floor area would raise `ZeroDivisionError` on every step, and zero `g_real` or `273 + T_night` at every unit conversion; `WellFormed` (and the requires of `Units.GFromTemp` and `Units.TempFromG`) exclude them as configuration instead of modelling that error.
