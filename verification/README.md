# Falling-object simulation: a Dafny model

This project models the core of an educational web app. The app simulates a
ball falling under gravity and quadratic air drag, steps it with explicit
Euler integration on every animation frame, and charts velocity over time.
The model covers:

- **History** (`history.dfy`): the chart buffer's downsampler. Below 1500
  samples it returns the buffer unchanged. From 1500 on it replaces every
  adjacent pair with the pair's mean and copies an odd trailing sample
  unchanged. `Compact` is the recursive reference definition.
  `DownsampleData` follows the program's loop group by group, and
  `GroupMean` follows its inner summation loop.
- **Physics** (`physics.dfy`): one integration step over `real`:
  - area π(d/2)²
  - weight m·g
  - drag ½·ρ·v²·Cd·A, using the velocity from before the step
  - a = (Fg − Fd)/m
  - v' = v + a·dt
  - h' = max(0, h − v'·dt)
  - t' = t + dt
- **Constants** (`constants.ts` → `constants.dfy`): gravity, air density,
  the preset table, the initial object and the initial height.
- **Driver** (`driver.dfy`): the app's state as one immutable record `Sim`,
  with one pure transition per input:
  - Reset, Start/Pause, the animation-frame callback
  - the preset selector, and the height, drag, mass, diameter and speed sliders
  - `Event`/`Run`, which apply any sequence of these inputs
  - `Inv`, the state invariant that every input preserves

Velocity is positive downwards. Timestamps are milliseconds, as the browser
delivers them. Simulated time is in seconds.

Three behaviours of the program are easy to miss; the model follows the program:

- Landing takes effect late. The step that reaches the ground reports
  height 0 and keeps running. In the corrected `Driver.Frame` the next frame
  sees a height ≤ 0 and stops the run (`Driver.LandingStopsOnNextFrame`).
  As rendered, the landing step also clears the clock baseline (see
  Findings), so the frame after it only records a timestamp and the stop
  comes two frames after landing (`Driver.LandingStopsLateAsRendered`).
- Only the preset selector and the height slider reset the simulation. The
  mass, diameter and drag sliders change the parameters in place. All five
  are disabled while the simulation runs.
- The Start/Pause button is one toggle. Starting a landed simulation runs
  one frame to record the clock baseline, and the frame after that stops it
  again.

## Model

| member | source | states |
|---|---|---|
| `History.Mean` | App.tsx:160-167 | the merged sample is equidistant from both samples of its pair, in time and in velocity, so each lies between the pair's minimum and maximum |
| `History.Compact` | App.tsx:159-171 | compaction by pairs yields ⌈n/2⌉ samples and is non-empty for non-empty input |
| `History.Downsample` | App.tsx:156-173 | below the 1500-sample threshold the buffer comes back unchanged; at or above it the result has ⌈n/2⌉ samples, strictly fewer than the input |
| `History.CompactAt` | App.tsx:159-171 | the k-th compacted sample is the mean of samples 2k and 2k+1, or sample 2k unchanged when it is the odd last one |
| `History.CompactElements` | App.tsx:159-171 | the same characterisation for every position of the compacted buffer at once |
| `History.CompactAppend` | App.tsx:159-171 | full pairs at the front compact independently of the samples after them |
| `History.CompactKeepsOrder` | App.tsx:159-171 | if input times never decrease, compacted times never decrease |
| `History.CompactKeepsTimeBounds` | App.tsx:160-167 | every compacted time lies within any bounds that hold for all input times |
| `History.CompactKeepsSums` | App.tsx:160-167 | for an even-length buffer, the compacted buffer's time and velocity totals are exactly half the input's, so no sample is lost or counted twice |
| `History.DownsampleKeepsOrder` | App.tsx:156-173 | downsampling keeps the time order of the buffer |
| `History.AppendThenDownsampleBounded` | App.tsx:260-263 | appending one sample to a buffer below the threshold and downsampling leaves a non-empty buffer still below the threshold |
| `History.GroupMean` | App.tsx:161-167 | summing the factor-many samples of a group and dividing by the factor gives the mean of the pair |
| `History.DownsampleData` | App.tsx:156-173 | the loop over groups of two computes exactly the reference downsampling |
| `Physics.GravityForce` | App.tsx:246 | the weight is positive for positive mass and zero only for zero mass |
| `Physics.Area` | App.tsx:245 | the frontal area is never negative and is zero exactly for a zero diameter |
| `Physics.DragForce` | App.tsx:247 | drag is non-negative whenever Cd ≥ 0, and is zero exactly when the velocity, Cd or diameter is zero |
| `Physics.Clamp` | App.tsx:265 | the reported height is non-negative, never below the raw value, and is either the raw value or 0 |
| `Physics.Step` | App.tsx:245-265 | t' = t + dt; Fg and Fd use the weight and the pre-step drag; a·m = Fg − Fd; v' − v = a·dt; h' is h − v'·dt clamped at the ground |
| `Physics.StepHeightNonNegative` | App.tsx:251-265 | the height after a step is never negative, and is positive exactly when h − v'·dt is |
| `Physics.ZeroStepKeepsState` | App.tsx:250-252 | a zero-length step from above the ground leaves time, velocity and height unchanged |
| `Physics.AccelerationAtMostGravity` | App.tsx:246-249 | for valid parameters the acceleration never exceeds g, and equals g exactly when the ball is at rest or has Cd = 0 |
| `Physics.NoDragIsFreeFall` | App.tsx:246-251 | with Cd = 0 the step is free fall: a = g, v' = v + g·dt, whatever the mass |
| `Constants.PresetsAreValid` | constants.ts:6-10 | every preset has mass > 0, diameter > 0 and Cd ≥ 0 |
| `Constants.PresetNamesDistinct` | constants.ts:7-9 | preset names are pairwise distinct |
| `Constants.InitialObjectIsBasketball` | constants.ts:14 | the initial object is the first preset: Basketball, 0.62 kg, 0.24 m, Cd 0.47 |
| `Constants.ConstantsArePositive` | constants.ts:3-4 | gravity and air density are positive |
| `Driver.FindPreset` | App.tsx:209 | the search fails exactly when no preset has the name; otherwise it returns the first preset with that name |
| `Driver.PresetFor` | App.tsx:209 | reset uses the preset with the selected name if there is one, else the initial object; the result is always a valid preset from the table |
| `Driver.Reset` | App.tsx:203-221 | reset stops the run and clears the baseline, zeroes time, velocity, acceleration and forces, puts the height at the start height, leaves a chart of exactly one point (0, 0), and loads the selected preset's parameters or the initial object's; selection, start height and speed are kept |
| `Driver.StartOrPause` | App.tsx:273-279 | the button flips the running flag; starting clears the clock baseline, pausing keeps it; every other field (physics, chart, parameters, selection, speed) is unchanged |
| `Driver.SimDelta` | App.tsx:236-237 | dt is non-negative when the clock has not gone back and the speed is non-negative, positive when the clock moved forward and the speed is positive, and zero for equal timestamps |
| `Driver.Frame` | App.tsx:229-270 | a paused frame changes nothing; the first frame after start only records the timestamp; a frame on the ground stops the run and sets height 0, leaving the rest alone; otherwise the frame takes one step and appends-then-downsamples the chart; the height is never negative afterwards |
| `Driver.SetSpeed` | App.tsx:334 | the speed slider sets a positive speed and changes nothing else |
| `Driver.SetMass` | App.tsx:318 | the mass slider is ignored while running, otherwise sets only the mass |
| `Driver.SetDiameter` | App.tsx:319 | the diameter slider is ignored while running, otherwise sets only the diameter |
| `Driver.SetDragCoefficient` | App.tsx:317 | the drag slider is ignored while running, otherwise sets only Cd |
| `Driver.SelectObject` | App.tsx:223-226 | choosing a different preset while stopped resets with that preset; otherwise nothing changes |
| `Driver.SetStartHeight` | App.tsx:223-226 | a different start height while stopped resets to that height; otherwise nothing changes |
| `Driver.Apply` | App.tsx:309-334 | no control input or frame can make the mass non-positive |
| `Driver.Run` | App.tsx:309-334 | the same for any sequence of inputs |
| `Driver.PresetLookupFindsEachPreset` | App.tsx:209 | looking up any preset by its own name returns exactly that preset |
| `Driver.Initial` | App.tsx:178-201 | the first render is stopped with no baseline, at rest at time 0 at a start height inside the slider range, with a preset's parameters, and satisfies the invariant |
| `Driver.InitialIsReset` | App.tsx:178-226 | the reset run on mount leaves the initial state unchanged; that state satisfies the invariant, and its start height is inside the slider range |
| `Driver.ResetEstablishesInv` | App.tsx:203-221 | after a reset the invariant holds |
| `Driver.ResetCancelsRun` | App.tsx:203-207 | Reset right after Start gives the same state as Reset alone, and a frame arriving after a reset changes nothing |
| `Driver.FirstFrameOnlyRecordsClock` | App.tsx:230-234 | the first frame after Start records the timestamp and leaves physics, chart and parameters as they were |
| `Driver.FrameNeverRewindsClock` | App.tsx:236-252 | with a non-negative speed and a wall clock that has not gone back, a frame never moves the simulated clock back, and moves it forward whenever it steps a running airborne ball over a positive interval |
| `Driver.LandingStopsOnNextFrame` | App.tsx:239-243 | a frame that reaches the ground keeps running with height 0; the next frame stops the run without touching physics or chart; later frames are no-ops |
| `Driver.FramePreservesInv` | App.tsx:229-270 | a frame keeps the invariant (valid parameters, positive speed, non-negative clock and height, a non-empty chart below the threshold, time-ordered and no later than the clock) when the wall clock has not gone back |
| `Driver.ApplyPreservesInv` | App.tsx:229-270 | every control input and frame keeps the invariant |
| `Driver.RunPreservesInv` | App.tsx:229-270 | any sequence of inputs whose frame timestamps never go back keeps the invariant, so the reported height is never negative and the chart stays below the threshold |
| `Driver.SimDeltaAdds` | App.tsx:236-237 | the simulated time of two consecutive intervals is that of the whole span |
| `Driver.FramesTrackWallClock` | App.tsx:236-268 | while the ball stays in the air, frames advance the simulated clock by exactly the wall-clock time since the baseline times the speed |
| `Driver.FrameAsRendered` | App.tsx:270-283 | as rendered, a frame differs from the corrected frame only in the clock baseline; it clears the baseline exactly when the run continues and time or velocity changed, and otherwise equals the corrected frame |
| `Driver.FramesKeepEveryInterval` | App.tsx:236-268 | frames at 16, 32 and 48 ms after a 0 ms baseline put the clock at 0.048 s |
| `Driver.RenderedFirstFrame` | App.tsx:270-283 | as rendered, the first advancing frame after a 0 ms baseline takes one 0.016 s step and leaves the run going with no baseline |
| `Driver.RenderedThreeFrames` | App.tsx:270-283 | delivering three frames as rendered is the same as applying the rendered frame three times in order |
| `Driver.RestartLosesFrameIntervals` | App.tsx:270-283 | the same frames as rendered put the clock at 0.032 s |
| `Driver.LandingStopsLateAsRendered` | App.tsx:239-283 | as rendered, a ball 1 mm above the ground lands on the frame at 16 ms, is still running after the frame at 32 ms, and stops only at 48 ms, with physics unchanged since landing |

## Left out

- Rendering is not modelled: the SVG icons, the ruler, the modals, the chart library, the slider components and number formatting are presentation.
- Browser frame scheduling is replaced by explicit calls. `requestAnimationFrame` and `cancelAnimationFrame` become `Frame` calls with a timestamp, and a paused simulation has no pending frame, so `Frame` leaves it unchanged.
- React state batching is not modelled. Every transition reads and writes the current state.
- The stale capture of velocity and time inside the frame callback is not modelled. The model passes the current state in explicitly.
- IEEE-754 rounding is not modelled: all arithmetic is on exact reals. π is the decimal literal 3.141592653589793, and only its positivity is used.
- Terminal-velocity convergence is not modelled. It needs square roots and limits.
- `History.Downsample`: the program's threshold and factor are default parameters. Every call uses the defaults, so the model fixes them at 1500 and 2.
- `Driver.SetMass`, `Driver.SetDiameter`, `Driver.SetDragCoefficient`, `Driver.SetStartHeight`, `Driver.SetSpeed`: these require a value inside the slider's range, because the range input only reports such values. The sliders' step granularity and `parseFloat` are not modelled.
- `Driver.SetSpeed`: it does not clear the clock baseline. In the program a speed change while running re-creates the frame callback. That restarts the loop as described under Findings.
- The dialog state (`ModalType`) is UI-only.

## Findings

| source | as written | input that shows it | evidently intended | confidence | as-written member | corrected member |
|---|---|---|---|---|---|---|
| App.tsx:270-283 | The frame callback depends on velocity and time, so every advancing frame re-creates it. The running-state effect then cancels the pending frame, clears the clock baseline and requests a new frame. The next frame only records a timestamp, and that wall-clock interval never reaches the simulated clock. | Running, baseline at 0 ms, speed 1, no drag, frames at 16, 32 and 48 ms: the clock reads 0.032 s instead of 0.048 s. | Only the first frame after Start records the baseline (the guard at App.tsx:230-234); every later frame advances the clock by its elapsed time times the speed. | not executed; medium | `Driver.RestartLosesFrameIntervals` | `Driver.FramesTrackWallClock` |

The rest of the model uses the corrected `Driver.Frame`. `Driver.FrameAsRendered` records the behaviour as written.
