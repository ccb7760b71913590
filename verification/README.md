# Hand-tension particle morph: a Dafny model

This project models the arithmetic core of a browser toy that turns a hand
seen by the camera into a point cloud that morphs between shapes. Each
detected hand becomes a tension value in [0, 1] (0 open, 1 fist). The values
of all hands in a frame are averaged. The application smooths that average
frame by frame. The particle engine scales every particle's shape target by
`1 + 2v` and adds jitter when `v > 0.1`. It then moves each particle a tenth
of the way toward its target. A display bar shows the tension as a clamped
percentage in one of three colour bands.

JavaScript numbers are modelled as Dafny `real`. Every `Math.random()` draw
is passed in as a parameter with `0 <= draw < 1`. The landmark `distance` is
a function parameter. The predicate `HandTracker.IsEuclidean` characterises it
without a square root: the distance is non-negative, and its square is the
sum of squared coordinate differences.

Modules, one per source file plus two shared ones:

- `Numeric` (`numeric.dfy`): `Math.min`/`Math.max`, the `[0, 1]` clamp and
  the low-pass step `x + (t - x) * rate`. The step is shared by the frame
  smoothing and the particle lerp. It carries the lemmas about repeated steps:
  a closed form, Bernoulli's bound and convergence.
- `HandTracker` (`hand_tracker.dfy`): `distance`, `calculateHandTension`,
  `onResults`.
- `ParticleSystem` (`particle_system.dfy`): construction, `setShape`
  dispatch and target copy, `setColor`, `update`, and the Saturn index
  partition.
- `UI` (`ui.dfy`): `updateTension` and `setTrackingStatus`.
- `App` (`app.dfy`): the tracker callback and the smoothing and update of
  each animation frame.
- `Wrappers` (`wrappers.dfy`): `Option`, for a property that is still
  `undefined`.

Behaviour of the program worth knowing before reading the model:

- With no hands, the tracker reports 0, which is also the tension of a fully
  open hand. `App.OpenHandLooksLikeNoHand` proves that the two cases leave
  identical state.
- No code guards against a zero hand size. A non-zero hand size (and at least
  21 landmarks) is a precondition of the tension estimate.
- The Saturn generator puts `n - floor(0.7 n)` particles (about 30%) on the
  planet and `floor(0.7 n)` (about 70%) on the ring.
- `setColor` draws one variation per particle and adds it to all three
  channels. The variation lies in [-0.1, 0.1), and the jitter lies in
  `[-v/2, v/2)`.
- The status line is "Tracking Active" exactly when the value is > 0, so a
  fully open hand shows "No Hand Detected".
- The smoothing state lives in two properties that the application loop adds
  to the engine object (`targetInteraction`, `currentInteraction`).

## Model

| member | source | states |
|---|---|---|
| `Numeric.Clamp01` | src/HandTracker.js:119 | the clamp returns a value in [0, 1]; it is the identity inside [0, 1], 0 below and 1 above |
| `Numeric.Lerp` | src/ParticleSystem.js:137-139 | one step leaves the offset from the target at exactly `(1 - rate)` times the old offset |
| `Numeric.LerpBetween` | src/ParticleSystem.js:136-139 | with rate in [0, 1], a step lands between the start and the target (no overshoot) |
| `Numeric.LerpDistance` | src/main.js:88 | with rate in [0, 1], the distance to the target shrinks by exactly the factor `1 - rate` |
| `Numeric.LerpIterClosedForm` | src/main.js:86-89 | after `n` steps toward a fixed target, the offset is `(1 - rate)^n` times the initial offset |
| `Numeric.LerpIterConverges` | src/main.js:86-89 | repeated steps toward a fixed target come within any positive distance of it |
| `HandTracker.SquaredDistance` | src/HandTracker.js:125-129 | the sum of squared coordinate differences under the root is non-negative |
| `HandTracker.DistanceSymmetric` | src/HandTracker.js:124-130 | the Euclidean landmark distance is symmetric |
| `HandTracker.DistanceToSelf` | src/HandTracker.js:124-130 | a landmark is at distance 0 from itself |
| `HandTracker.AvgTipDistIsMean` | src/HandTracker.js:93-100 | the mean tip distance is the arithmetic mean of the distances from landmarks 4, 8, 12, 16, 20 to landmark 0 |
| `HandTracker.TensionOfRatio` | src/HandTracker.js:108-119 | tension lies in [0, 1]; ratio >= 2.2 gives 0; ratio <= 0.9 gives 1; in between it is exactly `(2.2 - ratio) / 1.3` |
| `HandTracker.TensionNonIncreasing` | src/HandTracker.js:111-119 | a larger openness ratio never gives a larger tension |
| `HandTracker.TensionMidpoint` | src/HandTracker.js:118 | ratio 1.55 gives tension 0.5 |
| `HandTracker.CalculateHandTension` | src/HandTracker.js:81-122 | for a hand with non-zero size, the tension lies in [0, 1] and follows the clamped interpolation of its own openness ratio |
| `HandTracker.CalibrationExamples` | src/HandTracker.js:86-121 | with hand size 1 and all five tips at distance `d`, the ratio is `d`; `d = 2.2` reads fully open (0) and `d = 0.9` fully closed (1) |
| `HandTracker.TotalTension` | src/HandTracker.js:61-69 | the summed tension of `k` hands lies in [0, k] |
| `HandTracker.Average` | src/HandTracker.js:72 | the average of `k` tensions summing to at most `k` lies in [0, 1], is 0 when `k = 0`, and times `k` gives back the total |
| `HandTracker.NewTracker` | src/HandTracker.js:10 | a new tracker reads 0 |
| `HandTracker.OnResults` | src/HandTracker.js:60-79 | the stored value lies in [0, 1]; it is 0 when the hand list is missing or empty; otherwise it times the hand count is the total tension (the mean); the callback, if registered, receives exactly that value |
| `HandTracker.OneHandIsItsTension` | src/HandTracker.js:64-72 | with one hand, the stored value is that hand's tension |
| `HandTracker.UniformHandsAverage` | src/HandTracker.js:64-72 | when every hand has tension `t`, the total is `k * t`, so the mean is `t` |
| `HandTracker.UniformHandsSum` | src/HandTracker.js:64-69 | when every hand has tension `t`, the loop's running sum is `t` added once per hand |
| `ParticleSystem.Create` | src/ParticleSystem.js:20-31 | construction gives consistent buffer lengths, coordinate `j` equal to `(draw_j - 0.5) * 10` and so in [-5, 5), every particle in the base colour, heart targets, and current shape "heart" |
| `ParticleSystem.Scatter` | src/ParticleSystem.js:24-26 | an initial coordinate `(r - 0.5) * 10` lies in [-5, 5) |
| `ParticleSystem.ShapeOf` | src/ParticleSystem.js:72-90 | the five names select their generators; every other string selects the heart |
| `ParticleSystem.ShapeNamesRoundTrip` | src/ParticleSystem.js:73-87 | each shape is selected by its own name |
| `ParticleSystem.SetShape` | src/ParticleSystem.js:68-96 | the given string is recorded even when unknown; all 3N targets are overwritten by the selected generator's buffer (the heart's for an unknown name); positions, colours and everything else are unchanged |
| `ParticleSystem.Variation` | src/ParticleSystem.js:104 | the colour variation lies in [-0.1, 0.1) |
| `ParticleSystem.SetColor` | src/ParticleSystem.js:98-110 | particle `i`'s channels become `clamp01(base + w)` for one variation `w` shared by its three channels; every channel ends in [0, 1]; positions and targets are unchanged |
| `ParticleSystem.ExpansionFactor` | src/ParticleSystem.js:118 | for v in [0, 1] the target scale lies in [1, 3]; it is 1 at v = 0 |
| `ParticleSystem.ExpansionMonotone` | src/ParticleSystem.js:118 | the target scale is non-decreasing in v |
| `ParticleSystem.Jitter` | src/ParticleSystem.js:131-133 | for v > 0, each axis offset lies in [-v/2, v/2) |
| `ParticleSystem.TickTarget` | src/ParticleSystem.js:125-134 | at or below v = 0.1 the tick target is the scaled target; above it, it is within v/2 of the scaled target |
| `ParticleSystem.MoveCoordinate` | src/ParticleSystem.js:125-139 | the loop body leaves a coordinate's offset from its tick target at exactly 0.9 of the old offset, between the old position and the tick target |
| `ParticleSystem.Update` | src/ParticleSystem.js:112-146 | every coordinate's offset from its tick target becomes exactly 0.9 of the old one, landing between the old position and the target; targets, colours, shape and the interaction fields are unchanged |
| `ParticleSystem.MoveTicksIsLerpIter` | src/ParticleSystem.js:125-139 | at or below the jitter threshold, `m` successive updates of one coordinate are `m` plain lerp steps toward the scaled target, whatever the draws |
| `ParticleSystem.SteadyTicksClosedForm` | src/ParticleSystem.js:125-139 | with fixed targets and no jitter, a coordinate after `m` updates is `0.9^m` of its initial offset from the scaled target |
| `ParticleSystem.SteadyTicksConverge` | src/ParticleSystem.js:125-139 | with fixed targets and no jitter, enough updates bring a coordinate within any positive distance of the scaled target, whatever the draws |
| `ParticleSystem.RingCount` | src/ParticleSystem.js:201 | the ring count is `floor(0.7 n)` |
| `ParticleSystem.DefaultSaturnSplit` | src/ParticleSystem.js:6 | at the engine's particle count of 20000 the ring gets 14000 particles and the planet 6000 |
| `ParticleSystem.SphereCount` | src/ParticleSystem.js:202 | planet and ring counts add up to `n`, and the planet gets between 30% and 30% + 1 of the particles |
| `ParticleSystem.SaturnLayout` | src/ParticleSystem.js:199-227 | indices `[0, n - floor(0.7 n))` go to the planet and the rest to the ring; every index is written exactly once |
| `UI.Percent` | src/UI.js:33 | the bar width lies in [0, 100] and equals 100 times the clamped value |
| `UI.PercentMonotone` | src/UI.js:33 | the bar width is non-decreasing in the value |
| `UI.BandOf` | src/UI.js:37-43 | exactly one band: green below 0.3, orange on [0.3, 0.7), red from 0.7 |
| `UI.BandMonotone` | src/UI.js:37-43 | a larger value never selects an earlier band (green < orange < red) |
| `UI.Background` | src/UI.js:38-42 | each band has a `#rrggbb` colour: `#` followed by six lower-case hex digits |
| `UI.BackgroundsDistinct` | src/UI.js:38-42 | the three band colours differ |
| `UI.UpdateTension` | src/UI.js:31-44 | the bar gets the clamped percentage and the band colour; the status line is unchanged |
| `UI.SetTrackingStatus` | src/UI.js:46-48 | only the status line changes |
| `App.OrZero` | src/main.js:86-87 | an unset interaction reads as 0 |
| `App.Smooth` | src/main.js:88 | the smoothed value lies between current and target, stays in [0, 1] when both do, and is 0.9 times as far from the target |
| `App.SmoothContracts` | src/main.js:86-89 | with a constant target, the distance to it shrinks by exactly 0.9 per frame |
| `App.StatusText` | src/main.js:48 | "Tracking Active" exactly when the value is > 0, "No Hand Detected" otherwise |
| `App.OnTrackerValue` | src/main.js:45-52 | the callback stores the raw value as the target interaction and leaves the current interaction and the rest of the engine alone; the bar and status follow the value |
| `App.OnHandResults` | src/main.js:45-52 | a detector result reaches the engine as a target interaction in [0, 1]; with no hands that target is 0 and the status is "No Hand Detected" |
| `App.OpenHandLooksLikeNoHand` | src/HandTracker.js:72 | a fully open hand leaves the tracker, the engine and the display in exactly the state that no hand does |
| `App.Animate` | src/main.js:86-91 | the stored current interaction is `Smooth` of the previous one (0.9 as far from the target, between current and target); the engine is ticked with that same value; the display and targets are unchanged |
| `App.SmoothFramesIsLerpIter` | src/main.js:86-89 | `m` frames of smoothing are `m` low-pass steps at rate 0.1 |
| `App.NoHandClosedForm` | src/main.js:86-89 | with target 0, the smoothed value after `m` frames is `0.9^m` times its start |
| `App.NoHandDecay` | src/main.js:86-89 | with target 0, enough frames bring the smoothed value below any positive bound, and the expansion factor then lies within twice that bound of 1 |

## Left out

- Three.js plumbing (geometry, material, sprite texture, scene, renderer, camera, fog, light, resize handler): rendering over a library that is not part of this model.
- The trigonometric contents of the five shape generators (`sin`, `cos`, `acos`, `pow` over random draws): a generator is the parameter `generate: Shape -> seq<real>`. Only the Saturn generator's index partition is modelled.
- The per-frame rotation `rotation.y += 0.002`: a presentation counter with nothing to state.
- MediaPipe Hands and camera start-up, the CDN `locateFile`, the async frame pump and the `alert` on camera failure: foreign calls, I/O and asynchrony. Detector output arrives as a parameter.
- The `try`/`catch` around tracker construction in the application and its "Tracking Failed" status: an exception from a foreign constructor.
- DOM event listeners of the UI (shape buttons, colour picker, button styling): the commands they issue are the `SetShape` and `SetColor` calls.
- `requestAnimationFrame` and the clock: a frame is one call of `App.Animate`, and the clock's delta is unused by the code.
- IEEE-754 behaviour of a zero hand size, which the precondition `HandSize != 0` excludes. In the code the ratio is then +Infinity when some tip is off the wrist, and `Math.max(0, Math.min(1, -Infinity))` makes that hand's tension 0. When every tip is on the wrist the ratio is `0 / 0`, so the tension is NaN, and NaN propagates into the average.
- Float32 rounding of the stored position and colour buffers.
- Colour parsing of the picker's hex string (and any colour-space conversion the library applies): the base colour arrives as three reals.
- `ParticleSystem.RingCount`: computes the exact `floor(7 n / 10)`, where the code takes `Math.floor(n * 0.7)` on a double product. They agree at the engine's count of 20000 (14000 ring particles, `ParticleSystem.DefaultSaturnSplit`). They do not agree at every count: `90 * 0.7` is `62.99999999999999` in doubles, so the code puts 62 particles on the ring where the model puts 63, and at `n = 700` the code gives 489 where the model gives 490.
- `ParticleSystem.SphereCount`: its "between 30% and 30% + 1" bound is about the exact floor. At counts where the double product rounds down it does not hold of the code (at `n = 90` the code gives the planet 28 particles).
- `HandTracker.DistanceSymmetric`: the landmark distance is an abstract function constrained by `IsEuclidean`. The model does not prove that such a function exists, since that would need a real square root.
