# Molecular canvas background: a Dafny model

The site's landing page draws a "molecular" background on a p5.js canvas
(`initializeMolecularBackground` in `main.js`). `setup` creates 20 molecules.
A molecule is a point with a velocity, a size and one of three colours. On
each frame, `draw` moves every molecule by its velocity. A molecule that
lands strictly outside the canvas has that velocity component negated, and
then its position is clamped onto the canvas. After moving the molecules,
`drawConnections` draws a line between every pair closer than 100 pixels.
Each line's opacity falls linearly from 100 at distance 0 towards 0 at
distance 100. `windowResized` changes the canvas size, and p5's `resizeCanvas` then
redraws immediately.

The project has four modules, one file each:

- `P5Helpers` (`p5_helpers.dfy`): the p5 helpers the sketch calls, with
  p5's own formulas. These are `constrain`, the three forms of `random`, and
  `map`.
- `Molecules` (`molecules.dfy`): the `Molecule` class with its constructor and
  `update()`. Its value is the `State` datatype, and `Step` specifies one
  update. The lemmas are about `Step` and about the constructor's ranges.
- `Connections` (`connections.dfy`): `drawConnections` as a method that
  returns the lines `(i, j, alpha)` it would draw. `AllLines` specifies it by
  following the nested loop. The lemmas say which pairs get a line, that each
  pair gets at most one, and which opacity it gets.
- `Background` (`background.dfy`): the p5 instance as a `Sketch` class. It
  holds the `molecules` array and the canvas size, and has `Setup`, `Draw` and
  `WindowResized`, which redraws at once as p5's `resizeCanvas` does. `Frame`
  and `Run` give the effect of one frame and of many frames, each under its
  own viewport.

Modelling choices:

- JavaScript numbers are Dafny `real`s, so rounding is not modelled.
- `Math.random()` is an input. The constructor takes the six samples it
  consumes, each in `[0, 1)`, and turns them into field values with p5's
  formulas. The `...Inverse` lemmas, `SamplesFor` and `SpawnReachesAll` show that every value
  in the stated ranges can be produced. So the model is the same as a free
  choice within those ranges.
- The canvas size (`p.width`, `p.height`) is passed to `Molecule.Update`; the
  sketch keeps it in fields.
- p5's `dist` is a function-valued parameter. All the loop's results are stated
  for any `dist`. The predicate `Euclidean` holds when `dist` is the Euclidean
  distance, and the threshold and opacity lemmas assume it. Under it the
  threshold `dist < 100` is the same as a squared distance below `100 * 100`.

Notes on the code's behaviour:

- There is no input validation and no error path. The molecule count is the
  literal 20, and the canvas size comes from the window.
- The speed and size ranges are half-open: `[-0.5, 0.5)` and `[3, 8)`.
  p5's `random(min, max)` never returns `max`.
- A molecule is born at `x` in `[0, width)`. On a zero-width canvas it is born
  at 0.

## Model

| member | source | states |
|---|---|---|
| P5Helpers.Constrain | main.js:186-187 | For `low <= high` the result lies in `[low, high]`. It is the input itself when the input is already in range, and the nearer bound otherwise |
| P5Helpers.RandomBelow | main.js:169-170 | `random(max)` for `max >= 0` lies in `[0, max)`, or is exactly 0 when `max` is 0 |
| P5Helpers.Random | main.js:171-173 | `random(min, max)` for `min <= max` lies in `[min, max]`, and strictly below `max` when `min < max` |
| P5Helpers.RandomChoice | main.js:174 | `random(choices)` is one of the elements of `choices` |
| P5Helpers.RandomBelowInverse | main.js:169-170 | Every value `v` of `[0, max)` is produced by the sample `v / max` |
| P5Helpers.RandomInverse | main.js:171-173 | Every value `v` of `[min, max)` is produced by the sample `(v - min) / (max - min)` |
| P5Helpers.RandomChoiceInverse | main.js:174 | Element `k` of the choices is produced by the sample `k / length` |
| P5Helpers.Map | main.js:208 | The result divides the target range in the same proportion as the value divides the source range. Start maps to start and stop maps to stop |
| Molecules.Spawn | main.js:167-175 | A new molecule has `x` in `[0, width)` and `y` in `[0, height)`, velocities in `[-0.5, 0.5)`, size in `[3, 8)` and a colour from the three-colour palette |
| Molecules.SamplesFor | main.js:169-174 | For every state in those ranges, these samples are valid and the constructor builds exactly that state from them |
| Molecules.SpawnReachesAll | main.js:169-174 | Every state in those ranges is produced by some choice of random samples |
| Molecules.AxisStep | main.js:178-187 | Along one axis, the new position lies in `[0, bound]`. The velocity is negated when the moved coordinate is strictly outside `[0, bound]`; the position then ends on the edge it crossed, 0 below and `bound` above. Otherwise the axis just moves by its velocity |
| Molecules.Step | main.js:177-188 | An update never changes `size` or `color` |
| Molecules.StepInside | main.js:186-187 | After an update the molecule is inside the viewport, whatever its prior position |
| Molecules.StepReflects | main.js:182-183 | Each velocity component is negated exactly when its moved coordinate is strictly outside its range, independently per axis. Speeds are preserved |
| Molecules.EdgeLandingKeepsVelocity | main.js:182 | Landing exactly on 0 or on `width` keeps `vx`, and the position is the moved one |
| Molecules.StepTranslatesInside | main.js:178-187 | If the moved position is inside the viewport, the update is a plain translation and the clamp has no effect |
| Molecules.StepBouncesBack | main.js:182-186 | A molecule moving right past the right edge ends on that edge and moving left |
| Molecules.StepWellFormed | main.js:177-188 | An update keeps speeds at most 0.5, the size in `[3, 8)` and the colour in the palette |
| Molecules.StepExample | main.js:178-187 | From (99, 50) at velocity (2, 0) on a 100-wide canvas, the molecule ends at (100, 50) with velocity (-2, 0) |
| Molecules.Molecule.constructor | main.js:167-175 | The new object's fields are `Spawn` of the samples, so they lie in the constructor's ranges |
| Molecules.Molecule.Update | main.js:177-188 | The new fields are `Step` of the old ones. `x` and `y` end inside the viewport. `size` and `color` are untouched |
| Connections.AlphaFades | main.js:208 | `map(d, 0, 100, 100, 0)` is `100 - d`. It lies in `(0, 100]` for `0 <= d < 100` and is 100 at `d = 0` |
| Connections.AllLinesExactly | main.js:203-208 | A line `(i, j, alpha)` is drawn if and only if `i < j < n`, the pair's distance is below 100, and `alpha` is the mapped distance. No molecule is paired with itself, and a pair at distance exactly 100 gets no line |
| Connections.AllLinesOnce | main.js:203-204 | The lines come strictly in `(i, j)` loop order, so no pair gets two lines |
| Connections.EuclideanThreshold | main.js:205-207 | For Euclidean `dist`, being below 100 is the same as a squared distance below 10000. Coincident points are at distance 0 |
| Connections.DrawnAlpha | main.js:207-208 | For Euclidean `dist`, a drawn line has `alpha = 100 - dist` in `(0, 100]`, and 100 when the two molecules coincide |
| Connections.ThreeMoleculesExample | main.js:203-212 | Molecules at (0,50), (50,50) and (200,50) give exactly one line, between the first two, at alpha 50 |
| Connections.DrawConnections | main.js:200-215 | The nested loop returns exactly `AllLines` of the molecules' positions, in drawing order |
| Background.Frame | main.js:151-153 | One frame keeps the number of molecules and applies `Step` to each of them in place |
| Background.FrameInside | main.js:151-153 | After a frame every molecule is inside that frame's viewport, whatever the molecules' prior positions |
| Background.FrameWellFormed | main.js:151-153 | A frame keeps every molecule's speed bound, size range and palette colour |
| Background.RunInside | main.js:147-162 | After any non-empty series of frames, each under its own viewport (a resize runs one under the new size), every molecule is inside the last viewport |
| Background.RunKeeps | main.js:147-162 | Any series of frames keeps the number of molecules, every size, every colour and every speed |
| Background.Sketch.Setup | main.js:137-145 | `setup` creates exactly 20 distinct new molecules, each in the constructor's ranges, on a canvas of the window's size |
| Background.Sketch.Draw | main.js:147-158 | `draw` updates each molecule once without adding or removing any. All molecules end inside the viewport. The returned lines are the connections of the new positions |
| Background.Sketch.WindowResized | main.js:160-162 | A resize sets the new canvas size and, as p5's `resizeCanvas` redraws at once, runs one `draw` under it. Every molecule is stepped within the new bounds and ends inside them, none is added or removed, and the returned lines are those of the new positions |

## Left out

- `Molecule.display` and all drawing calls (`clear`, `fill`, `noStroke`, `ellipse`, `stroke`, `strokeWeight`, `line`): these are rendering side effects. The model keeps only which pairs get which opacity.
- The implementation of p5's `dist`: it is a parameter. Its Euclidean meaning is the predicate `Euclidean`, which only some lemmas assume.
- P5Helpers.Map: requires `start1 != stop1`. p5 would divide by zero there (JavaScript gives Infinity or NaN). The sketch only calls it with 0 and 100.
- The distribution of `Math.random()`: only its range `[0, 1)` is modelled, not uniform sampling.
- Floating-point rounding: all arithmetic is on reals.
- The p5 instance's start-up and the browser's frame scheduling: `Setup` and `Draw` are called explicitly, and `Run` describes any series of frames.
- The anime.js animations, including the ambient particle layer (`initializeAnimations`, `createParticle`, notification slide-in and slide-out): their behaviour lives in a tween library that is not part of this model.
- `initializeCounters` and `initializeScrollEffects`: these are IntersectionObserver callbacks and DOM style writes that the browser schedules asynchronously.
- The antibody demo (`initializeAntibodyTool`, `generateAntibody`, `displayAntibodyResults`, `showNotification`'s timer, the `window` exports): this is DOM plumbing over mock data. Its only arithmetic is floating-point presentation.
