# Eklavya AGV control loop — a Dafny model

This project models the per-cycle control logic of the Eklavya autonomous ground
vehicle (`src/AGV.cpp`): the occupancy grid around the vehicle, the warm-up gate that
holds back target selection while the IMU and GPS settle, the selector that packs the
modality flags into a 3-bit id and dispatches on it to one of eight target strategies,
and the bookkeeping of the main loop (cycle counter, forward extent `mapHeight`, exit
on end of the lane stream or on ESC).

Three modules, one per component:

- `grid.dfy`, module `OccupancyGrid`: the grid as a class over an array of row arrays
  (the source's `char **local_map`), its zeroed allocation, the in-place clear
  `Refresh` with its nested loops, and the vehicle's fixed cell `BotLocation`.
- `selector.dfy`, module `TargetSelector`: the pure parts of target selection:
  `TargetId`, the dummy target of case 0, the heading deviation `Alpha` with its
  ±360° correction, the classification against the half-angle `beta`, and the
  `switch` as `SelectTarget`.
- `control.dfy`, module `ControlLoop`: the loop. `Step` is one cycle as a function of
  the loop's scalar state (`iterations`, `heading`, `referenceHeading`, `mapHeight`)
  and of what the cycle reads from outside (`Sample`). `Trace` is the sequence of
  cycles. The class `Agv` holds the grid and the vehicle's cell. Its method `Cycle` is
  the loop body and is proved equal to `Step`. Its method `Run` is the `while` loop and
  is proved equal to `Trace`. The lemmas state the warm-up, counting and latching
  properties of `Trace` for every sample sequence.

The compile-time switches `_GPSF`, `_LANE`, `_IMU` and `_NAV` become the runtime
flags of `Config`, so all eight selector cases can be stated. Each external call is
replaced by a field of `Sample`:

- the cells marked by the stereo, lidar and lane producers: `writes`, applied by `Grid.Paint`;
- the end of the video stream: `streamEnded`;
- the IMU yaw: `yaw`;
- the two `rand()` values: `draw`;
- the planner's return value: `plannerReply`;
- the ESC key poll: `escPressed`.

`beta = atan(0.4·MAP_MAX / mapHeight)` is a parameter of the loop. `MapHeightConstant`
proves that `mapHeight` never leaves 875, so `beta` is in fact a constant.

Four behaviours of the code are easy to misread; the model follows the code:

- `referenceHeading` is assigned on every one of the five IMU warm-up cycles, not once.
  The last assignment is on the cycle whose counter is 4 (`ReferenceFromLastWarmUp`).
  It is never written after that (`ReferenceLatched`).
- The IMU and GPS windows share one counter, `iterations`. With both enabled, cycles
  0–4 are IMU warm-up and cycles 5–34 are GPS warm-up (`Step`, `WarmUpLength`).
- Two headings with the same sign are never corrected by ±360°, so outside [−180, 180]
  alpha need not be the shortest difference: heading 350 against reference 10 gives −340,
  not 20 (`AlphaOutsideHalfTurn`). Within [−180, 180] it always is (`AlphaWithinHalfTurn`,
  `AlphaShortest`).
- A warm-up cycle `continue`s before the key poll, so ESC is ignored during warm-up.

## Model

| member | source | states |
|---|---|---|
| `OccupancyGrid.BotLocation` | src/AGV.cpp:71-72 | the vehicle's cell `(int(0.5·MAP_MAX), int(0.1·MAP_MAX))` is (500, 100) and lies inside the grid |
| `OccupancyGrid.Grid.constructor` | src/AGV.cpp:74-77 | allocation gives a MAP_MAX×MAP_MAX grid with distinct rows and every cell 0 |
| `OccupancyGrid.Grid.Refresh` | src/AGV.cpp:146-152 | afterwards every cell `(i, j)` with 0 ≤ i, j < MAP_MAX is 0, whatever it held; the row array and the dimensions are unchanged |
| `OccupancyGrid.Grid.Mark` | src/AGV.cpp:239-241 | a producer write changes exactly the cell it names; a write outside the grid changes nothing |
| `OccupancyGrid.Grid.Paint` | src/AGV.cpp:235-250 | after one cycle's producer writes, each cell holds `Overlay` of those writes over its previous value |
| `OccupancyGrid.Overlay` | src/AGV.cpp:235-250 | a cell not written this cycle keeps its value; otherwise the last write to that cell wins: the cell holds the value of a write to it that no later write to it follows |
| `TargetSelector.TargetId` | src/AGV.cpp:298-312 | `4·gps + 2·lane + imu` lies in 0..7, and each flag can be read back from its bit |
| `TargetSelector.TargetIdInjective` | src/AGV.cpp:312 | distinct flag triples give distinct ids |
| `TargetSelector.TargetIdOnto` | src/AGV.cpp:312 | every id in 0..7 is the packing of some flag triple |
| `TargetSelector.DummyTarget` | src/AGV.cpp:320 | for any non-negative draws, 100 ≤ x ≤ 799 and 200 ≤ y ≤ 899, so the target is inside the grid |
| `TargetSelector.DummyTargetCoversBox` | src/AGV.cpp:320 | every point of that box is produced by some pair of draws |
| `TargetSelector.Alpha` | src/AGV.cpp:327-340 | alpha equals reference − heading, or that ± 360: it is congruent to reference − heading modulo 360 |
| `TargetSelector.AlphaSameSign` | src/AGV.cpp:327-329 | the product test holds exactly when both headings are non-zero with the same sign, and such headings are never corrected: alpha = reference − heading |
| `TargetSelector.AlphaWithinHalfTurn` | src/AGV.cpp:327-340 | headings in [−180, 180] give alpha in [−180, 180] |
| `TargetSelector.AlphaShortest` | src/AGV.cpp:327-340 | for headings in [−180, 180], no angle congruent to reference − heading has smaller magnitude than alpha |
| `TargetSelector.AlphaOutsideHalfTurn` | src/AGV.cpp:327-340 | same-sign headings are never corrected, so heading 350 against reference 10 gives −340 where heading −10 gives 20; opposite-sign headings are still corrected: 350 against −10 gives 0 and −200 against 10 gives −150 |
| `TargetSelector.ToRadians` | src/AGV.cpp:342 | the conversion with 3.14 keeps zero at zero and keeps the sign: positive maps to positive and negative to negative, both ways |
| `TargetSelector.Classify` | src/AGV.cpp:346-361 | the dead-ahead fallback is never reached for any real alpha and beta; for beta ≥ 0 exactly one of \|alpha\| ≤ beta, alpha > beta, alpha < −beta selects its branch |
| `TargetSelector.Steer` | src/AGV.cpp:344-361 | the branch is the classification of alpha; the coordinates that need no tangent are y = mapHeight + 100 when straight (and x = 500 when alpha = 0), x = 900 on the right edge and x = 100 on the left edge; for 0 ≤ mapHeight < 900 each of these lies inside the grid |
| `TargetSelector.SelectTarget` | src/AGV.cpp:315-397 | id 0 gives the dummy target of the two draws, inside the box; id 1 the heading projection `Steer` of alpha = the radian deviation of the heading from its reference, with its beta classification and coordinates; ids 2..7 no target; any other id the fatal default; the last two carry the id they were given |
| `TargetSelector.FlagsNeverFatal` | src/AGV.cpp:298-397 | for every flag triple the fatal default case is unreachable |
| `TargetSelector.OnHeadingIsDeadAhead` | src/AGV.cpp:323-349 | for any beta ≥ 0, heading equal to its reference gives alpha 0 and the straight-ahead target (500, mapHeight + 100) |
| `ControlLoop.Start` | src/AGV.cpp:181-188 | the loop starts with counter 0 and mapHeight 0.875·MAP_MAX = 875 |
| `ControlLoop.WarmUpLength` | src/AGV.cpp:259-291 | the gate holds back 35 cycles with GPS, else 5 with IMU, else none |
| `ControlLoop.Step` | src/AGV.cpp:243-420 | a cycle breaks on end of stream with the state unchanged, never halts fatally, and otherwise reports and increments the counter exactly once; it warms up exactly while the counter is below the warm-up length and selects a target exactly from then on; every IMU cycle that does not break sets the heading to the sampled yaw, and an IMU warm-up cycle also sets the reference to it; the reference changes only in such a cycle, the heading only with the IMU; a cycle held back by the gate after the IMU window is a GPS warm-up; a warm-up cycle leaves mapHeight alone, a target cycle resets it to 875 when the planner is built in and does not reply 1 and keeps it otherwise, so it stays at 875; a target cycle carries the switch's selection for the packed flags, the heading and the reference, and ends the loop exactly when ESC was pressed |
| `ControlLoop.Trace` | src/AGV.cpp:222-421 | a run has at most one cycle per sample, and if it ends before the samples run out its last cycle is one that stops the loop |
| `ControlLoop.TraceStopsOnlyAtEnd` | src/AGV.cpp:243-420 | no cycle but the last ends the loop |
| `ControlLoop.TraceCountsCycles` | src/AGV.cpp:259-416 | the counter reported by each cycle is the number of cycles before it, and the final counter is the start value plus the number of cycles that did not break |
| `ControlLoop.TraceGates` | src/AGV.cpp:259-291 | in every run, warm-up cycles have counter < warm-up length, target cycles have counter ≥ it (≥ 35 with GPS, ≥ 5 with IMU), and no cycle halts |
| `ControlLoop.WarmUpBeforeTargets` | src/AGV.cpp:259-291 | once a cycle has selected a target, no later cycle warms up |
| `ControlLoop.ReferenceLatched` | src/AGV.cpp:259-269 | once the counter has reached 5 (or without IMU), the reference heading is never written again |
| `ControlLoop.ReferenceFromLastWarmUp` | src/AGV.cpp:259-269 | when the counter reaches 5, the reference heading is the yaw sampled on the cycle whose counter was 4 |
| `ControlLoop.ConstantHeadingReference` | src/AGV.cpp:255-269 | with a constant yaw h, the reference heading is h from the first completed cycle on |
| `ControlLoop.MapHeightConstant` | src/AGV.cpp:403-410 | mapHeight stays 875 in every run |
| `ControlLoop.TraceExitsOnEsc` | src/AGV.cpp:312-420 | in every run, a target cycle is marked as ending the loop exactly when ESC was pressed on it, and such a cycle is the last one of the run |
| `ControlLoop.NoModalityDummyTargets` | src/AGV.cpp:298-320 | with no modality built in, no cycle warms up: cycle k selects the dummy target from its own draws, inside [100, 799] × [200, 899] |
| `ControlLoop.RunsUntilEsc` | src/AGV.cpp:243-420 | without a lane stream and without ESC, the loop runs one cycle per sample |
| `ControlLoop.HeadingOnlyStep` | src/AGV.cpp:255-363 | IMU only, yaw h equal to the reference: the counter advances and heading and reference both read h; the cycle warms up below 5 and otherwise targets (500, 975) |
| `ControlLoop.HeadingOnlyRun` | src/AGV.cpp:255-416 | IMU only, constant yaw: cycle k warms up for k < 5 and steers dead ahead to (500, 975) for every k ≥ 5 |
| `ControlLoop.Agv.constructor` | src/AGV.cpp:68-77 | start-up places the vehicle at (500, 100) inside the grid and allocates a fresh, all-free grid |
| `ControlLoop.Agv.Cycle` | src/AGV.cpp:226-420 | the loop body returns exactly `Step`'s new state and event, and leaves the grid holding only this cycle's producer writes over a cleared grid |
| `ControlLoop.Agv.Run` | src/AGV.cpp:219-421 | the loop returns exactly `Trace` from the start state, and the grid at the end holds only the last cycle's writes |

## Left out

- Display: `plotMap`, `cvNamedWindow`, `cvShowImage` and the image buffer are user interface. The key poll is modelled only as the `escPressed` input.
- Sensor and planner libraries: `runStereo`, `plotLaserScan`, `markLane`, `getYaw`, `_GPS` and `navigate` are foreign code. They are inputs of `Sample`. The planner's effect on the grid and the GPS latitude/longitude are not modelled, because the core does not use them.
- The lidar call rebinds `local_map` to the grid it returns. The model assumes it returns the same grid and treats its effect as cell writes.
- Trigonometry: the `tan`-based target coordinates are `TanDependent`, and `beta = atan(...)` is a parameter.
- Floating point: headings and `mapHeight` are exact reals. A NaN heading, which would make every comparison false and reach the dead-ahead fallback, is not modelled.
- `Classify`: its claim that the fallback is unreachable holds for reals, not for IEEE doubles with NaN.
- Randomness and timing: `srand(time(0))`, `usleep`, `time`/`difftime` and the FPS report. The two `rand()` results are arbitrary non-negative draws. C leaves the order of the two calls unspecified, and the model assigns the first draw to x.
- Logging to a file, the commented-out log-directory setup, the `scale` argument parsing, the `printf` calls and the `closeAGV` teardown are not modelled.
- Cases 2–7 leave `targetLocation` uninitialised, and the source then prints it. The model records them as `Unset`: no target computed.
- `Run`: the source's `while(1)` only ends on end of stream, ESC or the fatal exit. The model runs over a finite sample sequence and also stops when it runs out.
- `Step`: the `int` counter `iterations` is unbounded (`nat`); overflow after 2^31 cycles is not modelled.
- Grid cells are `char` in the source and `int` here; only zero versus non-zero matters to the core.
- `Grid.Mark`: a producer write outside the grid is a no-op in the model. The source hands the producers the raw `char **` grid (src/AGV.cpp:236, 240, 249), where such a write is undefined behaviour; the model assumes the producers stay inside the grid or drops their writes.
- `Agv.Cycle`: all of a cycle's producer writes are applied before the end-of-stream check. In the source the lane producer (src/AGV.cpp:249) runs only after that check, so on the breaking cycle the model's grid may also hold lane marks. The writes are arbitrary inputs, so no behaviour of the loop depends on this.
