# smolcanvas in Dafny

A model of smolcanvas, a small JavaScript library for drawing sketches on an
HTML canvas, and of its "stupid sort" example sketch.

- `JsValues` (values.dfy) holds the few JavaScript value rules the library depends on.
  A number is a finite real or `NaN`, and `undefined` collapses to `NaN`.
  `LoopCount` is the iteration count of `for (let i = 0; i < bound; i++)` when the bound is any number.
- `MathUtil` (math_util.dfy) holds `map`, the colour channels of `RGBA`, `randomRange`, `random` and the in-place `shuffle`.
  `Math.random()` becomes a sample `u` with 0 ≤ u < 1 that the caller passes in.
- `Vectors` (vector.dfy) holds the `Vector` class: the counting constructor, `create`, the getters and setters, `sub` and `mag`.
- `Canvas` (canvas.dfy) holds the `SmolCanvas` class.
  The 2D rendering context is not modelled as an object.
  Instead, every context call is appended to a `trace` of `Op` values, and the class tracks how many context states are saved (`depth`).
  `animationFrame` is modelled as a method: it computes elapsed time and a smoothed frame rate, calls the update handler, and brackets the draw handler between a save and a restore.
- `StupidSort` (stupid_sort.dfy) holds the sketch's state as a class over an `array<int>`.
  `setup` pushes 0..699 and shuffles, `mousePressed` reshuffles, and `update` runs `ceil(n / 4)` random compare-and-swap rounds that push larger values toward the front.

Two behaviours of the code are worth stating outright:

- A last time of 0 means "no earlier frame". A first frame whose timestamp is 0 leaves that value in place, so frames at timestamps 0, 16 and 32 give only one non-zero elapsed time (`Canvas.TimestampsFromZero`).
- `sub` raises no error when the dimensions differ. A component the other vector lacks reads as `undefined`, and the difference becomes `NaN`.

## Model

| member | source | states |
|---|---|---|
| JsValues.LoopCount | smolcanvas.js:330 | the number of iterations of a `for` loop whose bound is a JavaScript number: every smaller index passes the test and the count itself fails it; a `NaN` or non-positive bound gives zero iterations |
| JsValues.BelowMeansBeforeCount | smolcanvas.js:330 | the loop test `i < bound` holds exactly when `i` is below the iteration count |
| MathUtil.Map | smolcanvas.js:302-304 | the point (value, result) lies on the line through (f1, f2) and (t1, t2): (result − f2)·(t1 − f1) = (t2 − f2)·(value − f1) |
| MathUtil.MapIsLinear | smolcanvas.js:302-304 | mapping a weighted average of two values gives the same weighted average of their images |
| MathUtil.MapEndpoints | smolcanvas.js:302-304 | `map` sends f1 to f2 and t1 to t2 |
| MathUtil.MapRoundTrip | smolcanvas.js:302-304 | mapping from [f1,t1] to [f2,t2] and back returns the original value |
| MathUtil.MapHalfOpen | smolcanvas.js:302-304 | a value in [f1, t1) is mapped into [f2, t2) |
| MathUtil.ToRgba | smolcanvas.js:314-319 | each colour channel in [0, 1] becomes a channel in [0, 255]; alpha passes through unchanged |
| MathUtil.RgbaEndpoints | smolcanvas.js:314-319 | black (0,0,0) gives channels 0 and white (1,1,1) gives channels 255 |
| MathUtil.RgbaRoundTrip | smolcanvas.js:314-319 | dividing the channels by 255 recovers the unit-range inputs |
| MathUtil.UnitMapBounds | smolcanvas.js:433-435 | mapping a sample from [0, 1) onto [min, max) is min + (max - min)·u and lies in the half-open range, in either orientation |
| MathUtil.RandomRange | smolcanvas.js:433-435 | `randomRange(min, max)` lies in [min, max), or in (max, min] when the bounds are reversed; equal bounds give min; a zero sample gives min |
| MathUtil.Random | smolcanvas.js:421-425 | with no argument the result is in [0, 1); with one argument n it is in [0, n) (or (n, 0], or 0 when n = 0); with two it is between them, the first bound included |
| MathUtil.Pick | smolcanvas.js:444 | `floor(randomRange(0, i + 1))` is an index between 0 and i inclusive |
| MathUtil.Swap | smolcanvas.js:445-447 | the three-assignment exchange swaps two positions and leaves the others unchanged |
| MathUtil.SwapPermutes | smolcanvas.js:445-447 | an exchange keeps the multiset of elements |
| MathUtil.ShuffleFrom | smolcanvas.js:443-448 | the rounds from position i down to 1, each swapping position i with the partner its sample picks, keep the length |
| MathUtil.Shuffled | smolcanvas.js:442-450 | a shuffle keeps the length, and leaves arrays of zero or one element as they are (the loop does not run) |
| MathUtil.ShuffleFromPermutes | smolcanvas.js:443-448 | the remaining shuffle steps keep the length and the multiset of elements |
| MathUtil.ShufflePermutes | smolcanvas.js:442-450 | a whole shuffle is a permutation of its input |
| MathUtil.ShuffleStep | smolcanvas.js:444-447 | one loop iteration swaps a[i] with its picked partner; the rounds still to do from i − 1 then give what the rounds from i gave before |
| MathUtil.Shuffle | smolcanvas.js:442-450 | the in-place loop leaves the array equal to the recursive shuffle of its old contents, a permutation of them, and returns the same array |
| Vectors.At | smolcanvas.js:356 | reading an index inside the array gives its element; reading past the end gives `NaN` (JavaScript's `undefined` in arithmetic) |
| Vectors.ArrayToNumber | smolcanvas.js:330 | an array compared with a number converts to 0 when empty, to its element when it has one, and to `NaN` otherwise |
| Vectors.Zeros | smolcanvas.js:330 | n zeros |
| Vectors.SetAt | smolcanvas.js:381-383 | writing index i grows a shorter array to length i + 1 with holes, and keeps longer arrays' lengths |
| Vectors.SetThenGet | smolcanvas.js:373-413 | reading the index just written gives the value written; every other index is unchanged |
| Vectors.Differences | smolcanvas.js:355-357 | one difference per component of this vector, equal to the component difference where the other vector has that component, and `NaN` where it lacks it |
| Vectors.DifferencesAddBack | smolcanvas.js:355-357 | adding the other vector's finite component back to a finite difference recovers this vector's component |
| Vectors.SubAsWritten | smolcanvas.js:353-359 | the vector `sub` returns holds only zeros, and has none at all unless the dimension is exactly 1 |
| Vectors.SubLosesDifferences | smolcanvas.js:353-359 | for (5,5,5) minus (1,2,3), `sub` as written returns an empty vector where the differences are (4,3,2) |
| Vectors.SubOneDimension | smolcanvas.js:353-359 | for (3.5) minus (1), `sub` as written returns three zeros |
| Vectors.SumSquares | smolcanvas.js:364-368 | the running sum of squares is finite exactly when every component is finite, and then it is non-negative |
| Vectors.ZerosHaveNoLength | smolcanvas.js:364-368 | a vector of zeros has squared magnitude 0 |
| Vectors.SubAsWrittenHasNoLength | smolcanvas.js:353-368 | the magnitude of anything `sub` returns is 0 |
| Vectors.SquaredMagnitudeOfThreeFour | smolcanvas.js:364-368 | (3, 4) has squared magnitude 25 |
| Vectors.Vector.constructor | smolcanvas.js:326-331 | `new Vector(values)` holds one zero per loop iteration, that is `LoopCount(values)` zeros |
| Vectors.Vector.Create | smolcanvas.js:339-346 | `create(x, y)` is the vector (x, y); `create(x, y, z)` is (x, y, z) |
| Vectors.Vector.X | smolcanvas.js:373-375 | `x()` is component 0, or `NaN` for an empty vector |
| Vectors.Vector.Y | smolcanvas.js:388-390 | `y()` is component 1, or `NaN` when there are fewer than two components |
| Vectors.Vector.Z | smolcanvas.js:403-405 | `z()` is component 2, or `NaN` when there are fewer than three components |
| Vectors.Vector.SetX | smolcanvas.js:381-383 | writes component 0, returns the value, and `x()` then reads it |
| Vectors.Vector.SetY | smolcanvas.js:396-398 | writes component 1, returns the value, and `y()` then reads it |
| Vectors.Vector.SetZ | smolcanvas.js:411-413 | writes component 2, returns the value, and `z()` then reads it |
| Vectors.Vector.Sub | smolcanvas.js:353-359 | the loop collects the differences, and the new vector equals `SubAsWritten` of the two component arrays |
| Vectors.Vector.SubCorrected | smolcanvas.js:353-359 | the new vector's components are the component-wise differences |
| Vectors.Vector.MagSquared | smolcanvas.js:364-367 | the loop's sum equals the sum of squares of the components |
| Canvas.DepthStep | smolcanvas.js:259-265 | a save adds one saved state; a restore removes one, and does nothing when none is saved; every other call leaves the count as it is |
| Canvas.DepthAfterAppend | smolcanvas.js:259-265 | the number of saved states after two runs of calls is the second run applied after the first |
| Canvas.DepthFollowsLevel | smolcanvas.js:259-265 | when no prefix restores more than was saved, the saved-state count is the start plus saves minus restores |
| Canvas.BalancedKeepsDepth | smolcanvas.js:259-265 | a draw handler whose saves and restores pair up leaves the saved-state count unchanged |
| Canvas.TickOps | smolcanvas.js:125-128 | one frame issues the update call first (if there is an update handler), then a save, then the draw call (if there is a draw handler), and ends with a restore; the draw handler's own calls sit between the draw call and that restore |
| Canvas.TickDepth | smolcanvas.js:126-128 | after a frame the saved-state count is one restore applied after the draw handler's calls, which run one level deeper |
| Canvas.TickKeepsDepth | smolcanvas.js:126-128 | with a balanced draw handler, or none, a frame leaves the saved-state count as it was |
| Canvas.Timing | smolcanvas.js:116-124 | the new last time is the timestamp; the first frame (last time 0) has dt 0 and keeps fps; later frames have dt in seconds equal to the elapsed milliseconds over 1000 |
| Canvas.SmoothedRateBetween | smolcanvas.js:120-122 | the fps moves one tenth of the way toward 1/dt, so it lies between the old fps and the instantaneous rate, and stays positive when time moves forward |
| Canvas.SixteenMillisecondFrame | smolcanvas.js:116-122 | from fps 0, a 16 ms frame gives dt 0.016 and fps 6.25 |
| Canvas.TimestampsFromZero | smolcanvas.js:116-124 | timestamps 0, 16, 32 give dt 0, 0, 0.016 and fps 6.25 at the end |
| Canvas.SteadyTicks | smolcanvas.js:115-124 | frames arriving at a fixed gap keep the last time positive |
| Canvas.SteadyRateConverges | smolcanvas.js:120-122 | with frames a fixed gap apart, the distance of fps from 1000/gap shrinks by a factor 0.9 each frame |
| Canvas.HeightOrWidth | smolcanvas.js:103 | `height \|\| width`: the height when it is given and non-zero, the width otherwise (also `y \|\| x` in `scale`, line 290) |
| Canvas.CircleOps | smolcanvas.js:252-257 | a circle begins a path and adds the arc; it strokes exactly when stroking is on and fills exactly when filling is on, stroke first |
| Canvas.SmolCanvas.constructor | smolcanvas.js:5-67 | mouse at (0, 0), size of the canvas, filling and stroking off, fps and last time 0, nothing saved or issued |
| Canvas.SmolCanvas.Size | smolcanvas.js:101-104 | sets the width; the height falls back to the width when not given |
| Canvas.SmolCanvas.FillRGB | smolcanvas.js:178-181 | sets the fill style to the RGBA colour, alpha 1 by default, and turns filling on |
| Canvas.SmolCanvas.Fill | smolcanvas.js:188-191 | sets a grey fill style, alpha 1 by default, and turns filling on |
| Canvas.SmolCanvas.NoFill | smolcanvas.js:193-195 | turns filling off |
| Canvas.SmolCanvas.StrokeRGB | smolcanvas.js:204-207 | sets the stroke style to the RGBA colour, alpha 1 by default, and turns stroking on |
| Canvas.SmolCanvas.NoStroke | smolcanvas.js:209-211 | turns stroking off |
| Canvas.SmolCanvas.StrokeWeight | smolcanvas.js:217-219 | sets the line width |
| Canvas.SmolCanvas.BackgroundRGB | smolcanvas.js:146-149 | sets an opaque fill style (turning filling on) and fills the rectangle covering the whole canvas |
| Canvas.SmolCanvas.Background | smolcanvas.js:136-138 | the same, with a grey colour |
| Canvas.SmolCanvas.Text | smolcanvas.js:167-169 | draws the text at (x, y) |
| Canvas.SmolCanvas.Line | smolcanvas.js:228-233 | a path through the two points, always stroked |
| Canvas.SmolCanvas.Rect | smolcanvas.js:242-244 | a filled rectangle, whatever the fill flag says |
| Canvas.SmolCanvas.Circle | smolcanvas.js:252-257 | issues `CircleOps` for the current stroke and fill flags |
| Canvas.SmolCanvas.TransformPush | smolcanvas.js:259-261 | saves one more context state |
| Canvas.SmolCanvas.TransformPop | smolcanvas.js:263-265 | restores one state, and does nothing to the count when none is saved |
| Canvas.SmolCanvas.Translate | smolcanvas.js:272-274 | issues the translation |
| Canvas.SmolCanvas.Scale | smolcanvas.js:289-291 | scales by x and y; y falls back to x when not given |
| Canvas.SmolCanvas.AdvanceTiming | smolcanvas.js:116-124 | the inline arithmetic yields exactly `Timing` of the old last time and fps |
| Canvas.SmolCanvas.RunHandlers | smolcanvas.js:125-128 | appends the frame's calls `TickOps` to the trace and updates the saved-state count accordingly |
| Canvas.SmolCanvas.AnimationFrame | smolcanvas.js:115-130 | a whole frame: fps and last time follow `Timing`, the trace grows by `TickOps`, and a balanced draw handler leaves the saved-state count unchanged |
| StupidSort.Range | sketches/stupid-sort.js:11 | the values 0 .. n-1 in order |
| StupidSort.Indices | sketches/stupid-sort.js:23-24 | `index1` is a position of the array and `index2` is not after it, and is strictly before it when `index1` > 0 |
| StupidSort.Step | sketches/stupid-sort.js:25-29 | a round swaps the two positions only when they are out of descending order, after which the earlier one holds the larger value; every other position is unchanged |
| StupidSort.StepPermutes | sketches/stupid-sort.js:25-29 | a round keeps the multiset of values |
| StupidSort.Steps | sketches/stupid-sort.js:22-30 | rounds in sequence keep the length |
| StupidSort.RoundPermutes | sketches/stupid-sort.js:22-30 | one more round keeps the multiset of values |
| StupidSort.StepsPermute | sketches/stupid-sort.js:22-30 | any number of rounds keeps the multiset of values |
| StupidSort.DescendingIsFixed | sketches/stupid-sort.js:22-30 | an array already in descending order is never changed by the rounds |
| StupidSort.UpdateIterations | sketches/stupid-sort.js:22 | `i < values.length / 4` runs ceil(n / 4) rounds |
| StupidSort.QuarterTest | sketches/stupid-sort.js:22 | the test `i < values.length / 4` holds exactly when i is below ceil(n / 4) |
| StupidSort.Sketch.constructor | sketches/stupid-sort.js:5 | the values start empty |
| StupidSort.Sketch.Setup | sketches/stupid-sort.js:7-14 | the values become the shuffle of the old values followed by 0..699; from empty, a permutation of 0..699 |
| StupidSort.Sketch.MousePressed | sketches/stupid-sort.js:16-18 | the values are reshuffled in place, keeping their multiset |
| StupidSort.Sketch.CompareAndSwap | sketches/stupid-sort.js:23-29 | the loop body turns the result of the first k rounds into the result of k + 1 rounds |
| StupidSort.Sketch.RunRounds | sketches/stupid-sort.js:22-30 | the loop leaves the array equal to ceil(n / 4) rounds applied to its old contents |
| StupidSort.Sketch.Update | sketches/stupid-sort.js:21-31 | the array becomes the result of ceil(n / 4) rounds, keeps its multiset, and stays as it is when already descending |

## Left out

- DOM and event wiring: creating and attaching the canvas element, the pointer, touch and key listeners, `touchEventToMouse`, `setTitle` and `fillWindow` all need a browser. The mouse position is a field that nothing here updates.
- `requestAnimationFrame` scheduling is not modelled. `AnimationFrame` models one frame; the browser's repeated calls are not.
- `setup(cb)` only calls its callback. The sketch's callback is modelled directly as `StupidSort.Sketch.Setup`. Its `fillWindow` and `font` calls are left out, as is the sketch's `draw`.
- `font` and `rotate` are left out. `rotate` needs π, and reals have no π.
- The update and draw handlers are opaque callbacks. A frame records their calls as `CallUpdate` and `CallDraw`, and the draw handler's own context calls are a parameter. Their effects on the canvas fields are not modelled.
- `RGBA` formats a CSS string. The model keeps the four numbers (`Rgba`), not the text.
- `mag` ends in `Math.sqrt`, which has no exact real counterpart. `Vectors.Vector.MagSquared` models the sum before the square root.
- Floating point: numbers are exact reals. `1.0 - 0.9` is exactly 0.1 here, while in binary floating point it rounds. `Infinity` is not represented, and `undefined` is collapsed into `NaN`.
- Randomness is modelled as samples the caller passes in. The claim that `Math.random()` is uniform, and so the shuffle's distribution, is not modelled.
- MathUtil.RandomRange: the default parameters `min = 0, max = 1` are not modelled. Every call in the library passes both bounds, and a caller that leaves one out must pass 0 or 1 itself.
- The draws `Shuffle`, `Setup`, `MousePressed` and `Update` consume are preconditions on how many samples are supplied. The source draws as many as it needs.
- MathUtil.Map: requires t1 ≠ f1. JavaScript would divide by zero and give `Infinity` or `NaN`, which the real-number model cannot represent.
- Canvas.Timing: requires the timestamp to differ from a non-zero previous one. Equal timestamps would give dt 0 and an infinite rate in JavaScript.
- Canvas.SmolCanvas.AnimationFrame: carries the same requirement as `Canvas.Timing`, for the same reason.
- Canvas.SmolCanvas.AnimationFrame: the handlers are assumed to return. In the source, an `update` or `draw` that throws skips `transformPop()` and `requestAnimationFrame`. The frame then leaves one extra saved state and the animation stops.
- Canvas.SmolCanvas.Size: does not model the canvas element's own width and height, which the source also assigns.
- StupidSort.Sketch.Setup: the JavaScript array grows in place. The model moves to a new, larger array holding the old contents, so aliases of the old array are not updated.

## Findings

| source | as written | input that shows it | evidently intended | confidence | as-written member | corrected member |
|---|---|---|---|---|---|---|
| smolcanvas.js:353-359 | `sub` passes the array of differences to `new Vector(vals)`. That constructor takes a dimension and pushes zeros while `i < vals`. An array compares as a number: an empty array is 0, a one-element array is its element, and anything longer is `NaN`. The result is an empty vector or a vector of zeros. | (5,5,5).sub((1,2,3)) gives an empty vector instead of (4,3,2) | a vector whose components are the differences | not executed | Vectors.SubLosesDifferences | Vectors.Vector.SubCorrected |
