# Generative shapes sketch: scene bookkeeping in Dafny

This project models the bookkeeping under a p5.js sketch in which random
shapes appear over time and on mouse clicks, drift, rotate, pulse in scale and
fade out, while the arrow keys cycle the background colour. The drawing calls
are not modelled. The model covers the discrete state underneath them:

- `palette.dfy` (module `Palette`): the five-colour palette `bgColors`, the
  arrow-key codes, JavaScript's truncating `%`, and the index step that
  `keyPressed()` performs.
- `shapes.dfy` (module `Shapes`): the `RandomShape` record. Its constructor
  takes every random draw as an explicit `Draws` value. `createPolygon()` is a
  method with the source's push loop. `update()` is the function `Updated`.
  The module proves the fade counter's exact lifetime and a band that the
  scale oscillation never leaves.
- `scene.dfy` (module `Sketch`): the `Scene` class, whose fields are the
  three globals `shapes`, `bgColorIndex` and `lastShapeAddedTime`. `Draw`
  runs the source's descending update-and-splice loop (`UpdateAndPrune`) over the `shapes`
  sequence and is proved equal to "update every shape, then keep those whose
  `alpha` is still positive, in order" (`Prune`). It then appends at most one
  timed spawn. `Run` strings such frames together with the shapes appended
  between them, and `SpawnLifetime` gives every shape's exact lifetime in it.
  `KeyPressed` and `MousePressed` are the two input handlers.
  `Scene.Valid()` is the invariant that every method keeps: the palette
  index is in range, and every listed shape is alive (`0 < alpha <= 255`),
  has 3 to 7 vertices and stays inside the scale band.

The host's inputs are parameters:
- p5's `random` is a `Draws` record (its ranges are in `DrawsInRange`,
  since `random(lo, hi)` lies in `[lo, hi)`), plus the spawn position and the
  shape type tag.
- `cos`, `sin` and `TWO_PI` are the `Trig` record.
- `millis()` is given as two readings, because `draw()` calls it once for the
  test and again for the new timestamp.
- Mouse coordinates and `keyCode` are plain parameters. `LEFT_ARROW` is 37
  and `RIGHT_ARROW` is 39, as in p5.

The string type tags are the enumeration `ShapeType`.

Three points where the code's behaviour is easy to misread, and the model follows the code:
- The code builds `color` once, with alpha 255, and never rebuilds it. So
  `alpha` controls only the lifetime, not the drawn opacity.
- The constructor runs `createPolygon()` for every shape type, not only for
  polygons.
- The new spawn timestamp is a second clock reading, not the one used in the
  test.

## Model

| member | source | states |
|---|---|---|
| `Palette.JsRem` | script.js:41-43 | JavaScript `%` by a positive divisor: the result takes the dividend's sign and is either the Euclidean remainder or that remainder minus the divisor, which together fix it (e.g. `-3 % 5` is `-3`); it agrees with the Euclidean remainder on non-negative dividends |
| `Palette.NextColorIndex` | script.js:39-45 | an index in `[0, 5)` stays in `[0, 5)` after any key; a key other than the two arrows leaves the index unchanged |
| `Palette.ArrowSteps` | script.js:40-44 | right arrow gives `(i+1) mod 5`; left arrow gives `(i-1) mod 5`, which wraps 0 to 4 |
| `Palette.ArrowsUndo` | script.js:39-45 | right then left, and left then right, both restore the original index |
| `Palette.RightPresses` | script.js:40-41 | n right-arrow presses from `i` give `(i+n) mod 5` |
| `Palette.LeftPresses` | script.js:42-43 | n left-arrow presses from `i` give `(i-n) mod 5`, never negative |
| `Shapes.Trunc` | script.js:69 | p5's `int()` on a number truncates toward zero: for `r >= 0` the result is the largest integer not above `r`, and symmetrically for `r <= 0` |
| `Shapes.CreatePolygon` | script.js:89-98 | the push loop yields exactly `numPoints` vertices (none when `numPoints <= 0`), and vertex k sits at angle `map(k, 0, numPoints, 0, TWO_PI)` and radius `size/2` around the centre |
| `Shapes.NewShape` | script.js:56-71 | the constructor yields the shape `Spawned` describes: given position and type, `alpha = 255`, colour alpha 255, each draw stored in its field, `numPoints = int(random(3, 8))`, and vertices from `createPolygon()` for every type |
| `Shapes.SpawnedHealthy` | script.js:56-71 | with p5's draw ranges a new shape is at the given position with `alpha = 255`, has `numPoints` in 3..7 with exactly that many vertices, and a scale speed of magnitude in `[0.01, 0.05)` inside the scale band |
| `Shapes.Updated` | script.js:74-86 | one update lowers `alpha` by exactly 1 and adds `scaleSpeed` to `scaleFactor`, keeping the out-of-range value for this frame; it negates `scaleSpeed` when the new factor is above 2 or below 0.5 and keeps it otherwise; the speed's magnitude, type, size, colour, speeds and vertices do not change |
| `Shapes.AlphaAfterUpdates` | script.js:75 | after n updates, `alpha` has dropped by exactly n |
| `Shapes.Lifetime` | script.js:75 | a shape with counter `a > 0` is still alive after each of its first `a-1` updates, and its counter is exactly 0 after update `a` |
| `Shapes.ScaleBoundedStep` | script.js:81-85 | one update keeps the scale factor within one step of `[0.5, 2]`, heading back toward the range whenever it is outside |
| `Shapes.ScaleBoundedForever` | script.js:81-85 | under exact arithmetic the scale band holds after any number of updates, and the scale speed's magnitude never changes |
| `Shapes.UpdatedHealthy` | script.js:74-86 | an updated shape is still alive exactly when its counter was above 1, and a surviving shape keeps every invariant of the scene |
| `Sketch.UpdateAll` | script.js:19-22 | the loop updates every shape present at the start exactly once: same length, element k is shape k updated |
| `Sketch.KeepAliveMembers` | script.js:24-27 | a shape remains exactly when it was in the list and its `alpha` is positive, so no shape with `alpha <= 0` remains |
| `Sketch.KeepAliveAppend` | script.js:19-27 | filtering distributes over concatenation, so survivors keep their relative order |
| `Sketch.KeepAliveShorter` | script.js:24-27 | removal never adds shapes; nothing is removed exactly when every counter is positive |
| `Sketch.PruneMembers` | script.js:19-28 | after the loop, a shape is in the list exactly when it is the update of an original shape and its post-update `alpha` is positive |
| `Sketch.PruneCons` | script.js:19-27 | processing index i in reverse order puts that shape's fate in front of the already-processed suffix, which is why splicing at i is safe |
| `Sketch.PruneHealthy` | script.js:19-28 | the loop keeps the scene invariant on every surviving shape |
| `Sketch.PruneAppend` | script.js:19-28 | one frame's loop treats each shape independently: pruning a concatenation is the concatenation of the pruned parts |
| `Sketch.PruneAged` | script.js:19-28 | one frame followed by n-1 more ages each shape by n frames: exactly the shapes whose counter exceeds n survive, each updated n times, in order |
| `Sketch.FramesLifetime` | script.js:19-28 | with nothing added, after n frames the list is exactly the shapes whose counter exceeded n, each updated once per frame, in their original order |
| `Sketch.RunSplit` | script.js:19-35 | over frames that also append shapes (timed spawns, clicks), the shapes at the front of the list evolve exactly as if alone, and the rest exactly as if those were absent |
| `Sketch.SpawnLifetime` | script.js:19-35 | a shape appended to a scene, whatever is spawned or clicked afterwards, is still listed, updated once per frame, after each of the next `alpha-1` frames, and is gone after frame `alpha` (the 255th frame that processes a new shape) |
| `Sketch.EmptyAfterFrames` | script.js:19-28 | with no spawns, a list whose counters are all at most `n > 0` is empty after `n` frames, so 255 frames clear any scene |
| `Sketch.Scene.constructor` | script.js:2-5 | the globals start as an empty list, palette index 0 and timestamp 0 |
| `Sketch.Scene.UpdateAndPrune` | script.js:19-28 | the descending loop, updating each shape in place and splicing it out when its `alpha` is no longer positive, leaves exactly `Prune` of the old list: every shape updated once, those with `alpha > 0` kept, in order |
| `Sketch.Scene.Draw` | script.js:14-36 | the shape list becomes `Prune` of the old list (update everyone, keep `alpha > 0`, in order); if the first clock reading minus the old timestamp exceeds 1000 ms, exactly one new shape is appended after the loop, so it is not updated this frame, and the timestamp becomes the second reading; otherwise the timestamp is unchanged and nothing is appended; the palette index is unchanged and the scene invariant is kept |
| `Sketch.Scene.KeyPressed` | script.js:39-45 | the palette index becomes `NextColorIndex` of the old one; the shapes and the timestamp are unchanged |
| `Sketch.Scene.MousePressed` | script.js:48-52 | exactly one shape is appended, at the mouse position and with the given type tag; the earlier shapes, the palette index and the timestamp are unchanged |

## Left out

- Rendering (`display()`, `background`, `fill`, transforms and primitives, script.js:16, 101-127) calls into the p5 graphics library, whose code is not part of this model.
- Canvas set-up and resizing (`setup`, `windowResized`, script.js:7-11, 131-133) are host plumbing with no scene state.
- Drift and rotation (script.js:76-80) are carried as `x`, `y` and `rotation` through the `Trig` parameter. No property of them is proved, because they are floating-point trigonometry.
- Shapes.CreatePolygon: the vertices are stated by formula only. The claim that each vertex lies at distance `size/2` from the centre would need `cos² + sin² = 1`, which an uninterpreted `Trig` does not provide.
- The polygon's absolute offsets, re-based against the moving centre at draw time (script.js:96, 122), matter only for drawing.
- Randomness, the clock, `color` and `createVector` are p5 calls. They are replaced by parameters and plain records.
- Shapes.ScaleBoundedForever: the scale band and the flip rule are proved over exact reals. They are not claimed under IEEE floating-point rounding.
- Shapes.Trunc: p5's `int()` is `n | 0`, which also wraps at 32 bits. The wrap is not modelled, because the only argument is `random(3, 8)`.
- Shapes are immutable records that the scene replaces in place at their index. Object identity and aliasing of `RandomShape` instances are not modelled. The sketch holds each shape only in `shapes`.
- Sketch.Run: the sequence of frames is a function over lists. Its connection to the class is the contracts of `Scene.Draw` and `Scene.MousePressed`: each call is one step of `Run`, either a frame's loop with at most one spawn after it or one appended click. No lemma is stated about chains of method calls.
