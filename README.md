# star-generator: a verified model of the starfield engine

star-generator draws a moving field of stars in the browser. The stars live in
a **Universe**, which is a list of stars kept inside an axis-aligned box
(`Range3D`). The universe is filled at a fixed stellar density. When the box
moves or grows, the stars that leave it are dropped and the space it uncovers
is refilled. An **Observer** is a pinhole camera that sits behind the window
plane z = 0. It sizes the universe to the frustum of its window, projects
every star onto the window, culls the stars that fall outside the window
widened by their apparent radius, and turns the rest into circles. An older
flat generator scatters stars uniformly over a rectangle.

The model is written in Dafny and has these modules:

| module | file | models |
|---|---|---|
| `Numbers` | Numbers.dfy | `Math.ceil`, `x % 1` on reals, and how often `for (i = 0; i < n; i++)` runs for a real `n` |
| `Host` | Host.dfy | `Math.random()`, as a stream of draws in [0, 1) with a cursor; `**`, `Math.log` and `Math.sqrt` as uninterpreted functions |
| `Geometry` | Geometry.dfy | `randRange` and `Range3D` (constructor, `volume`, `contains`, `randPoint`) |
| `Colour` | Colour.dfy | `pxConstrain` and `tempToRgb` |
| `StarField` | StarField.dfy | `Star` and the `Universe` class: `populateStars`, `cleanStars`, `translateY`, `translate` and `resize` |
| `Camera` | Camera.dfy | the canvas `Observer` class: its constructor, `#universeSize`, `setWindow` and `flatten` |
| `SvgCamera` | SvgCamera.dfy | the SVG `Observer` class: its constructor, the unguarded `setWindow`, and `render` |
| `FlatStarfield` | FlatStarfield.dfy | `generateStars` of the flat generator |

The Universe and Observer classes are Dafny classes. Their methods update
their fields in place: `stars` is a `seq<Star>` field that the methods
reassign, and `size` and `window` are fields too. A `Star` is a value.
Each method is proved against specification functions on sequences:

- `KeepContained` is the filter of `cleanStars`.
- `Shifted` moves every star by an offset.
- `Flattened` and `Rendered` are what `flatten` and `render` return.
- `ExtendsWith` says a list is an earlier list followed by stars from the exposed slabs.
- `RoundedCount` gives the floor-or-ceiling counts that stochastic rounding can produce.

A constructor of `Range3D` that throws is modelled as a `Result` (`MakeRange`
returns `Err(InvalidRange)`). Operations that throw through it return an
`Outcome`: `translateY` with a negative offset, and `setWindow` with a
negative bound.

The repository has four copies of the engine. `src/index.ts` is the canvas
version and `docs/js/index.js` is its compiled JavaScript. `src/svg_stars.ts`
is the SVG version and `js/svg_stars.js` is its compiled JavaScript.
`js/flat_starfield.js` holds the flat generator and repeats `pxConstrain`
and `tempToRgb`. Code that appears in several copies is modelled once, and
the table below cites it in one copy. The other copies are at these lines:

- `MakeRange` and `RandPoint`: docs/js/index.js:31-56, src/svg_stars.ts:43-74 and js/svg_stars.js:32-57.
- `PxConstrain` and `TempToRgb`: js/flat_starfield.js:4-26, docs/js/index.js:5-27, src/svg_stars.ts:16-37 and js/svg_stars.js:6-28.
- `PopulateStars`: docs/js/index.js:81-93, src/svg_stars.ts:105-117 and js/svg_stars.js:82-94.
- `CleanStars`: docs/js/index.js:102-104, src/svg_stars.ts:127-130 and js/svg_stars.js:102-104.
- `TranslateY` and `Resize`: docs/js/index.js:94-101 and docs/js/index.js:105-138.
- `UniverseSize`, `Observer.SetWindow` and `Observer.Flatten`: docs/js/index.js:151-169, 170-177 and 178-212.
- `Translate`, `SvgObserver.SetWindow` and `SvgObserver.Render`: js/svg_stars.js:95-101, 136-139 and 140-172.

## Model

| member | source | states |
|---|---|---|
| Numbers.FracPart | src/index.ts:109 | `numStars % 1` is zero exactly when `numStars` is a whole number; it lies in [0, 1) for non-negative input and in (-1, 0] for negative input |
| Numbers.CeilBounds | src/index.ts:114 | `Math.ceil(x)` is the least integer not below `x`, and it equals `x` exactly when `Math.floor(x)` does |
| Numbers.IterationCount | src/index.ts:116 | the count of a loop `i < n` is never below `n` and exceeds it by less than 1; it is 0 when `n <= 0` |
| Numbers.IterationCountIsLeast | js/flat_starfield.js:29 | the loop guard `i < n` holds exactly while `i` is below the iteration count |
| Host.Random.Next | src/index.ts:15 | one call of `Math.random()` returns the next draw of the stream, which lies in [0, 1), and advances the cursor by one |
| Geometry.RandRange | src/index.ts:14-16 | with a draw in [0, 1) and `min <= max`, the result lies in [min, max], and below `max` when `min < max` |
| Geometry.MakeRange | src/index.ts:45-54 | construction fails exactly when lower > upper on some axis; on success the box is valid and keeps both corners |
| Geometry.DegenerateRange | src/index.ts:45-68 | a box whose two corners coincide is accepted and has volume 0 |
| Geometry.Range3D.Volume | src/index.ts:64-68 | the volume of a valid box is non-negative, and it is 0 as soon as one axis is flat |
| Geometry.Range3D.Contains | src/index.ts:70-76 | closed-interval containment on all three axes; only a valid box contains a point |
| Geometry.Range3D.RandPoint | src/index.ts:56-62 | with three draws in [0, 1), the point lies in the valid box that produced it |
| Colour.PxConstrain | src/index.ts:18-22 | the result lies in [0, 255]; it is the identity on [0, 255], 0 below that range and 255 above it |
| Colour.TempToRgb | src/index.ts:24-39 | every channel lies in [0, 255]; red is 255 when kelvin/100 <= 66, blue is 255 when kelvin/100 >= 66, and blue is 0 when kelvin/100 <= 19 |
| StarField.StarFromDraws | src/index.ts:88-92 | a star built from five draws in [0, 1) inside a valid range has temperature in [2000, 30000), luminosity in [0, 4) and its position inside the range |
| StarField.NewStar | src/index.ts:88-92 | `new Star(range)` takes the next five draws, in the order temperature, luminosity, x, y, z, and lands inside a valid range |
| StarField.GenStarsIsRounded | src/index.ts:108-116 | the `genStars` chosen (`numStars` when whole, otherwise its floor or ceiling) makes the loop run a rounded count, and exactly `numStars` times when it is whole and non-negative |
| StarField.KeepContained | src/index.ts:131-134 | the filter never grows the list and keeps only stars that the box contains, all taken from the input |
| StarField.KeepContainedComplete | src/index.ts:131-134 | the filter never drops a star the box contains |
| StarField.KeepContainedAllInside | src/index.ts:131-134 | when every star is inside the box, the filter returns the list unchanged |
| StarField.KeepContainedConcat | src/index.ts:131-134 | filtering a concatenation filters each part and keeps their order |
| StarField.Shifted | src/index.ts:122-124 | moving the stars keeps one star per star, in the same order (`ShiftedAlongY`, `ShiftedInverse` and `ShiftedTwice` state where each one goes) |
| StarField.ShiftedAlongY | src/index.ts:122-124 | the `translateY` loop changes only y, by exactly `deltaY`; x, z, temperature and luminosity stay the same |
| StarField.ShiftedInverse | src/svg_stars.ts:119-125 | translating by `delta` and then by `-delta` restores every star |
| StarField.ShiftedTwice | src/svg_stars.ts:119-125 | two translations compose into one translation by the sum of the offsets |
| StarField.TrailingSlab | src/index.ts:126-128 | the refilled slab is a valid box when `deltaY >= 0`, lies inside `size` when `deltaY` does not exceed the y extent, and has volume 0 when `deltaY == 0` |
| StarField.FilledSlabPlacement | src/index.ts:121-129 | after the refill every star is within the box's z range, and inside the box when `deltaY` does not exceed the y extent |
| StarField.ExpectedStars | src/index.ts:108 | the expected number of stars, `density * volume`, is 0 for a box of volume 0 |
| StarField.FlatBoxAddsNothing | src/index.ts:107-119 | populating a box where no star is expected appends nothing |
| StarField.MovesOut | src/index.ts:137-167 | one guard of `resize` holds only when space is exposed: the new box's corner on that face lies outside the old box (and inside the new one when it is valid) |
| StarField.AnyMovesOut | src/index.ts:137-167 | some guard of `resize` fires exactly when the old box does not enclose the new one |
| StarField.Slab | src/index.ts:137-172 | the intended slab of each face that moves out is a valid box. For the x and y faces it is the slab the source populates; for the z faces it is the corrected slab of the Findings row |
| StarField.AsWrittenSlab | src/index.ts:137-172 | the slabs exactly as written, including the two z slabs whose upper y is `newSize.lowerBound[1]`; each is a valid box when its face moves out, so `resize` never fails for a valid new size |
| StarField.AsWrittenSlabWithinSlab | src/index.ts:161-172 | every slab the source populates lies inside the intended slab of the same face |
| StarField.SlabWithinEnclosing | src/index.ts:137-172 | when the new box encloses the old one, every slab lies inside the new box |
| StarField.AsWrittenZSlabsAreFlat | src/index.ts:161-172 | as written, both z slabs have volume 0, so populating them adds no star at any density |
| StarField.AsWrittenSlabsMissExposedPoint | src/index.ts:161-172 | as written, growing the unit cube to depth 2 exposes a point that no populated slab contains |
| StarField.SlabsCoverExposedRegion | src/index.ts:137-172 | with the corrected slabs, every point of the new box that is outside the old box lies in the slab of some face that moved out |
| StarField.PopulatedFace | src/index.ts:137-172 | the stars one face check appends all lie in that face's slab as written, come from exposed space, and number the face's rounded count; a z face appends none |
| StarField.EachFaceSegment | src/index.ts:137-172 | the six appended segments, each with its own face's count and slab, listed in the order the face checks run |
| StarField.EnclosedGrowthIsKept | src/index.ts:173-174 | when the new box encloses the old one, the final pruning drops none of the added stars |
| StarField.SlabVolumesSum | src/index.ts:137-172 | when the new box encloses the old one, the slab volumes add up to exactly the volume gained |
| StarField.FilteringKeepsExtension | src/index.ts:173-174 | pruning after the slabs are filled still gives the filtered old stars followed by stars from the exposed slabs |
| StarField.ExtendsWithTransitive | src/index.ts:137-172 | two successive face populations compose into one extension |
| StarField.Universe.constructor | src/index.ts:100-105 | the new universe keeps its size and density, holds a rounded count of `density * volume` stars, and has every star inside its box |
| StarField.Universe.PopulateStars | src/index.ts:107-119 | only appends, leaving earlier stars unchanged; appends a floor-or-ceiling count of `density * volume`, and exactly that count when it is whole; every new star is inside `range` with valid attributes |
| StarField.Universe.TranslateY | src/index.ts:121-129 | fails exactly when `deltaY < 0`. It first keeps, in order, the shifted stars still inside `size`, then adds a rounded count for the trailing slab, all inside that slab. Nothing is added when `deltaY == 0`. Every star is inside `size` when 0 <= `deltaY` <= the y extent |
| StarField.Universe.CleanStars | src/index.ts:131-134 | the new list is exactly the stars `size` contains, in their original order |
| StarField.Universe.Translate | src/svg_stars.ts:119-125 | every star moves by `delta` on all three axes; none is added or dropped, and the order is kept |
| StarField.Universe.PopulateFace | src/index.ts:137-172 | one face check: the list becomes the old list followed by `appended`. When the face moves out, `appended` is a rounded count of the stars expected in that face's slab as the source writes it, and every appended star lies in that slab; otherwise nothing is appended. The z-upper and z-lower checks never add a star |
| StarField.Universe.Resize | src/index.ts:136-175 | for any valid new size it never fails. `segments` holds what each face check appends, in order: each segment has its own face's rounded count and lies in its own face's slab as written, and the two z segments are empty. The new list is exactly the old list followed by the six segments, filtered by `newSize`; so `size == newSize`, every star is inside, and the old contained stars come first, in order. When the new box encloses the old one, no appended star is dropped. Nothing is added when no face moves out |
| Camera.WindowRange | src/index.ts:223-226 | the window `[-w, -h, 0]..[w, h, 0]` is built exactly when both bounds are non-negative |
| Camera.UniverseSize | src/index.ts:195-216 | on success the box spans z from 0 to `depth`; it fails when `depth < 0` |
| Camera.FrustumShape | src/index.ts:195-216 | for an observer on the axis and a non-negative bound, `#universeSize` never fails and gives half-widths of bound times (depth + distance) / distance |
| Camera.CarryBack | src/index.ts:198-212 | for an observer on the z axis, the carried-back point at z = depth lies on the line of sight through the window corner: x and y scale with the distance from the observer |
| Camera.Project | src/index.ts:234-241 | for an observer on the z axis, the projected point at z = 0 lies on the line of sight to the star: x and y scale with the distance from the observer |
| Camera.ProjectUndoesCarryBack | src/index.ts:195-241 | a window corner carried back to the far face by `#universeSize` projects onto itself under `flatten`'s projection |
| Camera.ProjectionFixesWindowPlane | src/index.ts:234-241 | a point on the window plane z = 0 projects onto itself |
| Camera.Flux | src/index.ts:243-244 | the flux of a star with non-negative luminosity is non-negative |
| Camera.CircleOf | src/index.ts:234-267 | one iteration of `flatten`. A star gets a circle exactly when its projection lies within the window widened by `sqrt(flux)`. The circle sits at the projection minus `window.lowerBound`, has the star's `tempToRgb` colour and a radius of at least 1, and is drawn as `[apparentRadius, 1]` (radius and opacity) when `apparentRadius = sqrt(flux)` is at least 1 and as `[1, flux]` otherwise. With a sound square root, opacity lies in [0, 1] |
| Camera.DimStarIsTranslucent | src/index.ts:258-260 | when the apparent radius is below 1, the opacity `flux` is below 1 |
| Camera.OnScreenStarIsKept | src/index.ts:247-252 | a star that projects inside the window itself is never culled |
| Camera.Flattened | src/index.ts:230-270 | at most one circle per star; with a sound square root and non-negative luminosities, every radius is at least 1 and every opacity lies in [0, 1] |
| Camera.FlattenedConcat | src/index.ts:232-268 | flattening a concatenation flattens each part and keeps the star order |
| Camera.FlattenedStep | src/index.ts:232-268 | one more star appends its circle, if any, at the end |
| Camera.FlattenedKeepsOnScreenStars | src/index.ts:247-252 | when every star projects inside the window, `flatten` returns one circle per star |
| Camera.Observer.StarsInFront | src/index.ts:236-244 | every star of a valid observer lies beyond it, so the divisions by `position[2] - location[2]` are defined |
| Camera.Observer.constructor | src/index.ts:184-193 | the observer sits at (0, 0, -distance), the window is `[-w, -h, 0]..[w, h, 0]`, the universe is the frustum box, and it holds a rounded count of stars, all inside that box |
| Camera.Observer.SetWindow | src/index.ts:218-228 | the same bound is a no-op. A negative bound fails and changes nothing. Otherwise the window is rebuilt and the universe is resized to the new frustum: its list is the old list followed by the six face segments (each in its own face's slab, with its rounded count), filtered by the new frustum, so every star lies inside the new frustum. When the new frustum encloses the old one, no appended star is dropped |
| Camera.Observer.Flatten | src/index.ts:230-270 | returns exactly `Flattened` of the universe's stars, so all properties of `Flattened` and `CircleOf` hold |
| SvgCamera.SvgCircleOf | src/svg_stars.ts:185-216 | one iteration of `render`. It culls exactly as `flatten` does and centres the circle at the projection minus `window.lowerBound` with the star's colour. The radius is exactly the unclamped `sqrt(flux)`; with a sound square root its square is the flux |
| SvgCamera.Rendered | src/svg_stars.ts:183-219 | at most one circle per star |
| SvgCamera.RenderedStep | src/svg_stars.ts:185-217 | one more star appends its circle, if any, at the end |
| SvgCamera.RenderedConcat | src/svg_stars.ts:185-217 | rendering a concatenation renders each part and keeps the star order |
| SvgCamera.RenderedMatchesFlattened | src/svg_stars.ts:199-216 | `render` and `flatten` keep the same stars at the same positions and colours; the canvas radius is the SVG radius raised to at least 1 |
| SvgCamera.SvgObserver.constructor | src/svg_stars.ts:141-150 | the observer sits at (0, 0, -distance), the window is built from the bound, and the universe is the frustum box with a rounded count of stars |
| SvgCamera.SvgObserver.SetWindow | src/svg_stars.ts:175-181 | the window is always overwritten, even with an unchanged bound, and the universe is never touched; a negative bound fails |
| SvgCamera.SvgObserver.Render | src/svg_stars.ts:183-219 | returns exactly `Rendered` of the universe's stars |
| FlatStarfield.ScaledDraw | js/flat_starfield.js:31-32 | a draw in [0, 1) scaled by a positive `m` lies in [0, m) |
| FlatStarfield.FlatStarFromDraws | js/flat_starfield.js:30-34 | flux lies in [0, MAX_FLUX), every colour channel lies in [0, 255], and the colour is `tempToRgb` of a temperature in [1000, 30000) |
| FlatStarfield.NthStarBounds | js/flat_starfield.js:30-33 | a star built from draws in [0, 1) has flux in [0, 4), and its position lies in [0, xMax) x [0, yMax) when those bounds are positive |
| FlatStarfield.DrawsMakeNthStar | js/flat_starfield.js:30-34 | the star built from the four draws at cursor `start + 4j` is star j of the stream |
| FlatStarfield.Generated | js/flat_starfield.js:27-38 | the list of the first n stars of the stream has exactly n elements |
| FlatStarfield.GeneratedAt | js/flat_starfield.js:29-36 | element j of the generated list is the star built from draws 4j to 4j+3, in the order flux, x, y, temperature |
| FlatStarfield.GeneratedInBounds | js/flat_starfield.js:1-33 | with draws in [0, 1), every generated star has flux in [0, MAX_FLUX) and position in [0, xMax) x [0, yMax) |
| FlatStarfield.MakeFlatStar | js/flat_starfield.js:30-34 | the object literal takes the next four draws and is star j of the stream |
| FlatStarfield.GenerateStars | js/flat_starfield.js:27-38 | returns exactly `IterationCount(numStars)` stars: ceil(numStars) for positive `numStars`, none otherwise. The list is `Generated` from the cursor, and the cursor advances by four per star |

## Left out

- Browser output is not modelled because it goes through foreign APIs: canvas drawing (`drawCircle`), SVG elements (`createElement`/`setAttribute`) and `drawStars`. `render` is modelled up to the attributes it sets.
- Driver code is not modelled because it is I/O and scheduling: the `DOMContentLoaded` handlers, `requestAnimationFrame`, `setInterval`, `performance.now`, `profile`, the speed factor, the `STELLAR_DENSITY` constants and the `console.log` in `populateStars`. webpack.config.js is build configuration.
- Numbers are `real`, so IEEE-754 rounding, `NaN`, `Infinity` and division by zero are not modelled.
- `**` and `Math.log` are uninterpreted, so `tempToRgb`'s curve values are not modelled; only its branches and clamping are. `Math.sqrt` is constrained only where a property says so (`SqrtSound`).
- `Math.random()` is a stream of draws in [0, 1), and only the floor-or-ceiling choice is stated. No probability or expected-count claim is made, because the source picks the floor with probability equal to the fractional part.
- Camera.Observer.constructor: requires `distance > 0`, `depth >= 0` and non-negative bounds. The source would throw from `Range3D` for a negative bound or depth, and divides by zero when `distance == 0`. It also assigns the window directly instead of calling `setWindow`. Before the universe exists, that call always skips its guard and its resize, so the effect is the same.
- SvgCamera.SvgObserver.constructor: the same preconditions as the canvas constructor.
- Camera.Observer.constructor and SvgCamera.SvgObserver.constructor: `distance > 0` also excludes negative distances, which the source accepts (distance -5 with depth 3 gives a valid box). Every call site in the source passes 1.
- Camera.Project and Camera.CarryBack: the source measures the result from the observer's x and y without adding them back. The contracts state the line-of-sight property only for an observer on the z axis, which is where the source always places it.
- Camera.UniverseSize: requires the window plane to differ from the observer's z, because the source divides by that difference. A valid observer always meets this.
- Camera.Observer.Flatten: covers only observers whose every star lies in front of the camera (`Valid`). Stars behind the camera would need division by zero or negative depths, which the source never produces for a universe spanning z in [0, depth].
- SvgCamera.SvgObserver.Render: requires every star to be in front of the observer. In the SVG variant `translate` can move stars anywhere, and the source does not guard the division.
- Star identity is not modelled. The source mutates star objects in place, but no star is shared outside the list, so a list of values has the same behaviour.
- The `Universe` class merges both variants' methods. The SVG variant has `translate` but no `translateY` or `resize`, and the canvas variant has the reverse.

## Findings

| source | as written | input that shows it | evidently intended | confidence | as-written member | corrected member |
|---|---|---|---|---|---|---|
| src/index.ts:161-172 (and docs/js/index.js:126-135) | the z-upper and z-lower slabs of `resize` take their upper y bound from `newSize.lowerBound[1]`, so they have zero y extent and volume 0 and never receive a star | old box (0,0,0)..(1,1,1), new box (0,0,0)..(1,1,2): the exposed point (0.5, 0.5, 1.5) lies in no populated slab | upper y bound `newSize.upperBound[1]`, so that the six slabs together cover exactly the exposed region (the Observer never changes its depth, so the bug stays latent in the running program) | not executed | StarField.AsWrittenSlabsMissExposedPoint | StarField.SlabsCoverExposedRegion |

`Universe.Resize` populates the slabs as written (`AsWrittenSlab`), so the model adds no star through the z faces, as the program does. `Slab` is the corrected definition. `SlabsCoverExposedRegion` and `SlabVolumesSum` are proved about it, and `ExtendsWith` uses it to describe the exposed space.
