# Hypotrochoid generator — a Dafny model of its bookkeeping

The hypotrochoid generator draws the curve traced by a pen on an arm fixed to the innermost
of a chain of circles, each rolling inside the one before it. This project models the
deterministic bookkeeping around that drawing, as `main.py`, `canvas.py` and
`list_increment.py` do it, and proves what it promises:

- **The angles of the rolling-circle chain** (`Chain`, `Canvas`).
  - Every circle with a parent circle turns through `parent.radius / radius * i` at sample `i`, so its placement angle is `i * theta_mod`.
  - The outermost circle keeps its angle.
  - The arm turns against its circle by `(R / r)^2 * i`.
  - The trigonometry of `polar_to_cartesian_with_offset` is a function parameter. The circles are kept in a sequence, and each one names its parent by index.
  - A sample depends only on the chain's fixed data (radii, theta modifiers and parents). Whatever angles the previous sample left behind are overwritten before they are read.
- **Sample counts** (`Hypotrochoid.CalculateGeometry`, `Canvas.MainCanvas.CreateImg`).
  - Each call of `calculate_positions` appends exactly one point, in sample order.
  - `calculate_geometry` appends `degrees * 360 * PIXEL_DENSITY` points.
  - `create_img` samples `j = 0 .. 360 * rotation_mod - 1`, then empties the tracer.
- **Mapping traced points to pixels** (`Tracer.modify_coords_for_output`, `MainCanvas.modify_coords_for_output`, `compute_glow`, the two image-size computations).
  - Each mapping keeps length and order and works point by point.
  - On whole-number points the mapping is exact and can be inverted.
  - Shifting the points by `mod` and then by `-mod` gives them back.
- **The five-band colour-cycling state machine** of `cycle_gradient_colours`.
  - Bands are checked top-down; boundary frames go to the higher band, and band 0 covers frames 0 .. 254.
  - Each call adds that band's ±1 to the channels the band names. Nothing is clamped: from the initial colours, inner green reaches 256 by frame 764 and outer green reaches -1 by frame 509.
  - The `while True` loops exit only for frames 0 .. 1275. `main()` asks for 1440 frames, so its frame 1276 spins forever. The model makes frames up to 1275 a precondition, and proves that `main()` exceeds that bound.
- **The gradient blend** of both `calculate_pixel_gradient` variants.
  - Each channel is rounded with Python's ties-to-even `round`.
  - A weight `t` of 0 gives the inner colour and 1 gives the outer colour.
  - Blending a colour with itself gives that colour back, so the equal-colours shortcut agrees with the blend.
  - Blending two 8-bit colours with `t` in [0, 1] stays within 8 bits.
  - main.py's `- 0.1` bias can push `t` below 0. `main()` cycles the colours once (frame 1) before the first image, so in that image a point traced at the roulette's centre gets the colour (-25, 279, 280), outside 8 bits. What `putpixel` stores for such a colour is not modelled.
- **Per-frame parameter stepping.**
  - In `main()`, the arm's `theta_mod` climbs by 1/300 per frame from -1.4. It reaches 1.5 at frame 870 and then stays within 1/300 of 1.5: the `elif` test is always true when reached, so the value never turns back at -1.5.
  - In `create_many_images`, image `i` first grows the second circle by `i / 1440000`, 2.879 over all 2880 images. It then moves `theta_mod` by `i / 14400` towards 1.5. From -1 that value passes 1.5 at image 269 and then stays within `i / 14400` of it.
- **`define_roulette`.**
  - Its loop `range(1, NUMBER_OF_CIRCLES - 1)` builds only two of the three configured circles. The radius 300 is never used.
  - The second circle hangs from the first, and the arm from the second.
  - The roulette's `dimensions` are 2730 pixels square, so its centre is (1365, 1365). The output image is `RESOLUTION`, 3840 by 2160, and each point is moved from the roulette's centre to the image's centre.
- **`increment_list`.**
  - It returns `steps` rows when `steps >= 1`, and one row otherwise.
  - Row 0 is the caller's own list, rounded in place; its extra columns are left alone. Rows 1 and later are new lists of `min(len(start), len(target))` entries.
  - Before rounding, row `i` is the linear interpolation `start + i * (target - start) / (steps - 1)`. Consecutive rows are evenly spaced, every entry lies between start and target, and the last row is the target exactly.

The objects whose fields the source changes in place are classes:
- `Hypotrochoid.Roulette` and `Hypotrochoid.Tracer` (main.py);
- `Canvas.MainCanvas` (canvas.py).

Their methods state the fields they change and the fields they keep, with these exceptions:
- After a loop of samples (`CalculateGeometry`, `RenderFrame`, `GenerateFrames`, `MainCanvas.Sample`, `CreateImg`, `CreateManyImages`), the circles' angles and centres and the arm's angle and end points are not stated. The last sample leaves them behind, and the next sample overwrites them before reading them. The model states only the fixed data: radii, theta modifiers, parents, the outermost circle's theta, and the arm's circle, length_mod and theta_mod.
- `CreateManyImages` does not state `rounded_coords`, which holds the pixels of the last image.

The loops of `increment_list`, `compute_glow`, `calculate_positions`, `calculate_geometry`, `create_img` and `create_many_images` are methods with loop invariants. Each is proved against a specification function, and the properties above are lemmas about those functions.

Some behaviour of the code worth knowing:
- The arm's `theta_mod` does not swing back and forth between -1.5 and 1.5: main.py:262-265 never turns back at -1.5, and canvas.py:212-215 swings it around 1.5.
- The colour bands test the frame itself, not the frame modulo 1275, so frames past 1275 match no band (main.py:107-149).
- Colours are never clamped.
- Only the radii used as divisors must be non-zero. main.py divides by the radius of each circle that has a parent (main.py:79), by that circle's parent's radius (main.py:169) and by the radius of the arm's circle (main.py:81); canvas.py divides by the first and the last of these (canvas.py:134, 136). The model requires only that these radii are non-zero.

## Model

| member | source | states |
|---|---|---|
| Numerics.Round | main.py:206-207 | Python `round`: the integer within 1/2 of x, the even one on a tie |
| Numerics.RoundOfInteger | list_increment.py:29 | a whole number rounds to itself, so rounding an integer list leaves it alone |
| Numerics.Round4 | main.py:83 | `round(x, 4)` is within 0.00005 of x and a whole number of ten-thousandths |
| Numerics.Round4Point | canvas.py:138 | each stored coordinate is within 0.00005 of the arm end |
| Colours.SelectBand | main.py:107-127 | a band fires iff 0 <= frame <= 1275; the chosen band's test holds and no higher band's does; boundary frames go to the higher band; band 0 exactly for frames 0 .. 254 |
| Colours.Delta | main.py:108-149 | each band adds at most ±1 per channel and changes at least one channel |
| Colours.Cycle | main.py:102-149 | one call moves each channel by at most `colour_change_freq` |
| Colours.CycleChangesColour | main.py:107-149 | every call that terminates changes the colour |
| Colours.SteadyBand | main.py:102-149 | across k frames of one band the colour moves by exactly k of that band's deltas |
| Colours.InnerRuns | main.py:107-127 | frames 1 .. 764 are 254 frames of band 0, then 255 each of bands 1 and 2 |
| Colours.InnerGreenOverflows | main.py:102-127 | over frames 1 .. 764 the inner colour gains 1 green and loses 255 blue; from [0, 255, 255] green reaches 256 (no clamp) |
| Colours.OuterRuns | main.py:129-149 | frames 1 .. 509 are 254 frames of band 0, then 255 of band 1 |
| Colours.OuterGreenGoesNegative | main.py:129-149 | over frames 1 .. 509 the outer colour loses 254 red and 1 green and gains 254 blue; from [255, 0, 0] green reaches -1 |
| Colours.ColourBetweenWithinStep | main.py:102-149 | over frames first+1 .. last each channel moves by at most (last - first) * colour_change_freq; with no frame the colour is unchanged |
| Colours.BlendChannel | main.py:97 | a channel is within 1/2 of `outer*t + inner*(1-t)`; t = 0 gives inner and t = 1 gives outer |
| Colours.Blend | main.py:97-99 | t = 0 gives the inner colour and t = 1 the outer colour |
| Colours.BlendOfEqual | main.py:86-87 | blending a colour with itself gives it back at every t, matching the equal-colours shortcut |
| Colours.BlendChannelInRange | canvas.py:308 | an 8-bit channel pair blended at t in [0, 1] stays 8-bit |
| Colours.BlendInRange | canvas.py:308-311 | two 8-bit colours blended at t in [0, 1] give an 8-bit colour |
| Chain.DrivenTheta | main.py:79 | theta * radius == parent.radius * i (rolling without slip) |
| Chain.ArmTheta | main.py:81 | arm.theta * parent.radius == -parent.theta * grandparent.radius |
| Chain.PlaceCircle | main.py:161-172 | one iteration keeps radius, theta_mod and parent; a root circle keeps its theta and sits at the roulette centre |
| Chain.ResolvePrefix | main.py:77-80 | the first n iterations keep the fixed data and leave circles n and later untouched |
| Chain.Resolve | main.py:77-80 | the whole loop keeps every circle's fixed data and the chain's shape |
| Chain.PlaceCircles | main.py:77-80 | the loop in list order computes exactly `Resolve` |
| Chain.PlaceArm | main.py:184-192 | the arm keeps its circle, length_mod and theta_mod, and starts at its circle's centre |
| Chain.Settled | main.py:77-80 | iteration k writes only circle k, so later iterations leave it as iteration k made it |
| Chain.ResolvedAngle | main.py:163-172 | every driven circle turns through parent.radius/radius * i and is placed at angle i * theta_mod |
| Chain.PlacementCancels | main.py:169 | the radius ratios cancel: (r/R) * (R/r * i) * m == i * m |
| Chain.ResolvedRoot | main.py:163-164 | a root circle keeps its theta and lands on the roulette centre |
| Chain.OrderedUsesNewCentre | main.py:77-80 | with parents before children, every circle is placed around its parent's new centre from the same call |
| Chain.PlaceCircleAgree | main.py:166-172 | an iteration reads only the circle's fixed data and its parent |
| Chain.PrefixIgnoresState | main.py:77-80 | the first n iterations of an ordered chain do not depend on the angles and centres left by the previous call |
| Chain.ResolveIgnoresState | main.py:75-80 | `calculate_positions` on an ordered chain depends only on the fixed data and i |
| Chain.ArmCounterRotation | main.py:79-81 | after placement the arm's theta is -(R/r)^2 * i |
| Chain.PlaceArmIgnoresState | main.py:81-82 | placing the arm depends only on its fixed data |
| Chain.PlacementAngle | main.py:169 | the angle times the parent's radius is radius * theta * theta_mod, the arc rolled along the parent |
| Chain.TracePoint | main.py:81-83 | the appended point is within 0.00005 of the placed arm's end on each axis |
| Chain.PolarWithOffsetTranslates | main.py:213-217 | moving the offset by (dx, dy) moves the result by (dx, dy) |
| Chain.PlaceCircleTranslates | main.py:161-172 | with its parent already moved, one iteration around a moved roulette centre gives the same circle moved by as much |
| Chain.PrefixTranslates | main.py:77-80 | the first n iterations around a roulette centre moved by (dx, dy) give every circle moved by (dx, dy) |
| Chain.ChainTranslates | main.py:75-82 | moving the roulette centre moves every circle and both ends of the arm by the same amount, so the traced shape does not depend on where the roulette is centred |
| Hypotrochoid.DefinedArm | main.py:238-241 | the arm hangs from the last circle built |
| Hypotrochoid.DefinedChain | main.py:222-236 | NUMBER_OF_CIRCLES - 1 circles with the configured radii and theta_mods and theta 0; circle 0 hangs from the roulette and circle k from circle k-1 |
| Hypotrochoid.DefinedChainShape | main.py:229-241 | only NUMBER_OF_CIRCLES - 1 = 2 circles are built and radius 300 is never used; the chain is well formed and ordered, and the arm can be placed |
| Hypotrochoid.CanvasSide | main.py:70-71 | the side is within 1/2 of 2 * r0 + length_mod * r_last |
| Hypotrochoid.DefinedSize | main.py:70-73 | the defined roulette's side is 2730 |
| Hypotrochoid.OutputPixel | main.py:206-207 | each pixel coordinate is within 1/2 of the point shifted from the roulette centre to the image centre, with no bounds check |
| Hypotrochoid.OutputPixels | main.py:201-210 | one pixel per point, in order; pixel k is within 1/2 of point k moved from the roulette centre to the image centre, on each axis |
| Hypotrochoid.IntegralPointsShiftExactly | main.py:206-207 | whole-number points shift exactly; the roulette centre lands on the image centre |
| Hypotrochoid.ThetaModStep | main.py:262-265 | the step always moves the value: up at or below 1.5, down above it |
| Hypotrochoid.ThetaModAfter | main.py:260-265 | after n frames theta_mod has moved by at most n/300 either way |
| Hypotrochoid.ThetaModRises | main.py:262-263 | below 1.5 the value climbs by 1/300 per frame with no turning point at -1.5 |
| Hypotrochoid.ThetaModTrapped | main.py:262-265 | once within (1.5 - 1/300, 1.5 + 1/300] the value stays there |
| Hypotrochoid.ArmThetaModPath | main.py:260-265 | from -1.4 the arm's theta_mod is linear for 870 frames, equals 1.5 at frame 870, and then stays within 1/300 of it |
| Hypotrochoid.Sweep | main.py:252-254 | one point per sample |
| Hypotrochoid.Tracer.constructor | main.py:196-199 | a new tracer holds no points |
| Hypotrochoid.Tracer.ModifyCoordsForOutput | main.py:201-210 | `mod_coords` becomes the point-by-point mapping of `coords`, which are unchanged |
| Hypotrochoid.Tracer.Clear | main.py:50-51 | both point lists are emptied |
| Hypotrochoid.Roulette.Define | main.py:220-249 | `define_roulette`: the 2-circle chain placed at sample 1, one traced point, size 2730 with centre 1365, the configured resolution and rotations, frame 0, the initial colours |
| Hypotrochoid.Roulette.CalculateSize | main.py:70-73 | the dimensions are the rounded side, and the centre is half of each |
| Hypotrochoid.Roulette.CalculatePositions | main.py:75-83 | the circles become `Resolve`, the arm `PlaceArm`, exactly one rounded arm end is appended, and nothing else changes |
| Hypotrochoid.Roulette.CycleGradientColours | main.py:102-149 | each colour becomes `Cycle` of its old value at the frame; requires frame in [0, 1275], where the loops terminate |
| Hypotrochoid.Roulette.PixelGradient | main.py:85-100 | equal colours give the outer colour; otherwise a distance of 0.1 gives the inner colour and 1.1 the outer colour (the 0.1 bias) |
| Hypotrochoid.FirstFrameCentrePixel | main.py:94-99 | in the first image, with the colours cycled once at frame 1 (main.py:268-269) to (0, 254, 255) and (254, 1, 1), a point traced at the roulette's centre (t = 0 - 0.1) gets the colour (-25, 279, 280), outside 8 bits |
| Hypotrochoid.CalculateGeometry | main.py:252-254 | appends `SampleCount(degrees)` points; for an ordered chain exactly the sweep at samples k / 10 of the chain as it stood; the fixed data is kept |
| Hypotrochoid.SweepStep | main.py:253-254 | one more sample appends the trace point of the chain's current state, which equals that of its starting state |
| Hypotrochoid.RenderFrame | main.py:262-273 | one frame: theta_mod steps once, the frame advances by one and the colours cycle at the new frame; the arm's parent and length_mod, rotations, centre, dimensions, resolution and the circles' fixed data are kept; the returned points are the old tracer points plus, for an ordered chain, the sweep of the stepped arm, and the pixels are their mapping; the tracer ends empty |
| Hypotrochoid.GenerateFrames | main.py:260-274 | after `count` frames: frame + count, theta_mod stepped `count` times, colours cycled over those frames; the arm's parent and length_mod, rotations, centre, dimensions, resolution and the circles' fixed data are kept; the tracer ends empty after at least one frame and is unchanged after none |
| Hypotrochoid.MainOutrunsColourBands | main.py:260-269 | `main()` asks for more frames than the bands cover: frame 1276 matches no band |
| ListIncrement.Min | list_increment.py:15 | the smaller of the two lengths |
| ListIncrement.InterpolatedClosedForm | list_increment.py:19-25 | row i is start + i * (target - start) / (steps - 1) before rounding |
| ListIncrement.EvenlySpaced | list_increment.py:22-25 | consecutive rows differ by (target - start) / (steps - 1) |
| ListIncrement.Interpolated | list_increment.py:19-25 | the last row is the target exactly (its divisor `steps - i` is 1) |
| ListIncrement.InterpolatedBetween | list_increment.py:24 | every unrounded entry lies between start and target |
| ListIncrement.RoundedEntry | list_increment.py:27-29 | a rounded entry is a whole number within 1/2 of the unrounded one |
| ListIncrement.RoundedEntryBetween | list_increment.py:27-29 | between whole-number endpoints every rounded entry still lies between start and target |
| ListIncrement.LastRoundedRowIsTarget | list_increment.py:24-29 | with a whole-number target the last rounded row is the target |
| ListIncrement.RedToGreenMiddleRow | list_increment.py:36-37 | RED to GREEN in 5 steps: rows 1 and 2 round to (191, 64, 0) and (128, 128, 0), the ties going to even |
| ListIncrement.InterpolateRows | list_increment.py:13-25 | row 0 is the caller's list; the other rows are new, distinct and of the common length, and hold the interpolation |
| ListIncrement.RoundRows | list_increment.py:27-29 | the first list_length entries of each row are rounded in place; the others are unchanged |
| ListIncrement.IncrementList | list_increment.py:10-31 | max(steps, 1) distinct rows; row 0 is the caller's list, rounded in place for steps >= 1 with its extra columns kept; every entry is the rounded interpolation |
| Canvas.DriveCircle | canvas.py:132-134 | a parentless circle keeps its theta; any other gets theta * radius == parent.radius * i; the fixed data is kept |
| Canvas.Drive | canvas.py:132-135 | the loop keeps the fixed data and the chain's shape |
| Canvas.DriveArm | canvas.py:136 | arm.theta * p.radius == -p.theta * gp.radius, with length_mod and theta_mod kept |
| Canvas.TracePoint | canvas.py:136-138 | the appended point is within 0.00005 of the arm end placed from the driven chain and arm, on each axis |
| Canvas.CanvasSweep | canvas.py:259-260 | one point per sample |
| Canvas.CanvasSweepStep | canvas.py:259-260 | one more sample appends exactly one more point |
| Canvas.DriveIgnoresState | canvas.py:132-134 | the angles set depend only on the fixed data and i |
| Canvas.TracePointIgnoresState | canvas.py:130-138 | the angles a sample sets depend only on the fixed data and i; with the arm end a function of those angles and the radii, so does the sample's point |
| Canvas.SampleStep | canvas.py:259-260 | sampling a chain that agrees with the starting chain appends the starting chain's next sweep point |
| Canvas.ArmCounterRotation | canvas.py:134-136 | the arm's theta is -(gp.radius / p.radius)^2 * i |
| Canvas.OutputOrdinate | canvas.py:229-230 | within 1/2 of (v - centre) * 2 + half the image side |
| Canvas.OutputCoord | canvas.py:229-230 | each pixel coordinate is within 1/2 of (v - centre) * 2 + half the image side |
| Canvas.OutputCoords | canvas.py:226-233 | one pixel per point, in order, each within 1/2 of its point scaled and moved to the image centre |
| Canvas.OutputCoordsAppend | canvas.py:226-233 | the mapping is point by point: joined traces map to joined outputs |
| Canvas.OutputCoordInverse | canvas.py:229-230 | whole-number canvas points map exactly, and the canvas point is recovered from the pixel |
| Canvas.Shifted | canvas.py:249-253 | same length; each point differs from the one at the same index by exactly (dx, dy) |
| Canvas.ShiftedInverse | canvas.py:248-253 | shifting by mod and then by -mod gives back the points |
| Canvas.ShiftedCompose | canvas.py:250-252 | two shifts are one shift by the sum |
| Canvas.ComputeGlow | canvas.py:248-253 | a copy with every point moved by mod, in order; the argument is a value and stays unchanged |
| Canvas.RadiusAfter | canvas.py:209-211 | the radius never shrinks, and grows strictly once two images are made |
| Canvas.ThetaModStep | canvas.py:212-215 | theta_mod always moves by exactly i/14400, downwards exactly when it is at or above 1.5 |
| Canvas.ThetaModAfter | canvas.py:209-215 | after n images theta_mod is within n(n-1)/28800 of its start |
| Canvas.RadiusGrowth | canvas.py:209-211 | after n images the radius has grown by n(n-1)/2880000 |
| Canvas.ManyImagesGrowth | canvas.py:209-211 | after all 2880 images the second circle has grown by 2.879 |
| Canvas.ThetaModStepTowards | canvas.py:212-215 | each step moves towards 1.5 (at 1.5 the decrease wins), shrinking the distance by the step or landing within one step of 1.5 |
| Canvas.ThetaModStaysNear | canvas.py:212-215 | once within n/14400 of 1.5 after n images, it stays within m/14400 after m >= n images |
| Canvas.ThetaModClimbs | canvas.py:209-215 | from -1, after n <= 269 images theta_mod is -1 + n(n-1)/28800 |
| Canvas.ThetaModSettles | canvas.py:209-215 | from -1 it passes 1.5 at image 269 and then stays within i/14400 of 1.5 |
| Canvas.MainCanvas.constructor | canvas.py:11-92 | centre (500, 400); three circles 371, 300.02315 and 120.02315, each the parent of the next; circle 1's theta_mod is 2.7 times circle 0's; arm theta_mod -1; the canvas colours; an empty tracer |
| Canvas.InitialCircles | canvas.py:63-73 | three well-formed circles, the first parentless and each later one hanging from the one before, so the arm can hang from the last |
| Canvas.MainCanvas.ImgCanvasSize | canvas.py:218-221 | a square whose side is within 1/2 of (2 * r0 + length_mod * r_last) * 2, plus 10 |
| Canvas.MainCanvas.PixelGradient | canvas.py:295-311 | equal colours give the outer colour; t = 0 gives the inner colour and t = 1 the outer |
| Canvas.MainCanvas.CalculatePositions | canvas.py:130-138 | circles become `Drive`, the arm `DriveArm`, exactly one point is appended, and nothing else changes |
| Canvas.MainCanvas.ModifyCoordsForOutput | canvas.py:223-233 | the point-by-point mapping of the traced points, in order |
| Canvas.MainCanvas.ModifySingleCoordForOutput | canvas.py:235-245 | exactly the same list as `modify_coords_for_output` |
| Canvas.MainCanvas.Sample | canvas.py:258-260 | appends the sweep of samples 0 .. n-1 of the chain as it stood, keeping the fixed data |
| Canvas.MainCanvas.CreateImg | canvas.py:255-272 | `rounded_coords` becomes the mapping of the old points plus the 9000-sample sweep; then the tracer is empty |
| Canvas.MainCanvas.CreateManyImages | canvas.py:205-216 | after 2880 images, circle 1's radius and the arm's theta_mod are their stepped values; circles 0 and 2, circle 1's theta_mod and parent, length_mod and the colours are kept; the tracer is empty |
| Canvas.PixelGradientInRange | canvas.py:295-311 | with 8-bit colours and t in [0, 1] the gradient is 8-bit and equals the blend, equal colours included |

## Left out

- Image I/O: `Image.new`, `putpixel`, `draw.line`, `save`, file paths, the printed progress and timing. `putpixel` raises an error for a pixel outside the image; the model does not prove that the pixels lie inside the 3840 by 2160 image.
- gui.py and the Tkinter side of canvas.py: widgets, `animate`, the playback controls, `toggle_tracer_only`, `input_sanity_check`, drawing calls and `time.sleep`.
- The trigonometry, as function parameters: `polar_to_cartesian_with_offset`'s cosine and sine in main.py, and where canvas.py's circles and arm land. The canvas's `geometry.Circle`, `geometry.Arm` and `geometry.Tracer` classes are not part of this model, so only the angles canvas.py itself sets are modelled.
- The square root in `calculate_pixel_gradient`: both variants take the normalised distance as an input.
- Floating point: values are exact reals. `round(x, 4)` and the 1/300 and i/14400 steps carry no IEEE drift.
- Object references: circles are kept in a sequence and name their parents by index, so aliasing between circle objects is not modelled.
- The demo loop at the end of list_increment.py prints only. Its first call is stated in `ListIncrement.RedToGreenMiddleRow`.
- ListIncrement.IncrementList: the caller's list is an `array<real>` and the target a sequence of reals. Python's distinction between ints and floats is not kept: a rounded entry is a whole-number real.
- Hypotrochoid.GenerateFrames: requires frames up to 1275, because beyond that `cycle_gradient_colours` never returns. It does not state the points of each frame, which are only written to image files; `RenderFrame` returns and states them for one frame. The circles' angles and centres left by the last sample are stated only through their fixed data.
- Hypotrochoid.Roulette.CycleGradientColours: requires frame in [0, 1275], where the source loops forever.
- Canvas.MainCanvas.CreateManyImages: requires the second circle's radius to be positive, so that growing it keeps every divisor non-zero. It does not state the pixels of each image (`rounded_coords`) beyond what `CreateImg` states.
- Canvas.MainCanvas.constructor: the theta_mod a new `geometry.Circle` starts with, and the arm `geometry.Arm` builds, are parameters, because geometry.py's classes are not part of this model.
- Chain.PlaceArm: requires the arm's circle to hang from another circle whose radius is non-zero. The source raises AttributeError at main.py:81 when that circle hangs from the roulette (as with NUMBER_OF_CIRCLES = 2) or from None, and ZeroDivisionError when the radius is 0; these error paths are not modelled.
- Hypotrochoid.Roulette.CalculatePositions: requires the chain well formed and the arm placeable. The source raises ZeroDivisionError at main.py:79 (a zero radius), main.py:169 (a zero parent radius) and main.py:81, and AttributeError at main.py:81 as for `Chain.PlaceArm`; these error paths are not modelled.
- Canvas.MainCanvas.CalculatePositions: requires the chain well formed and the last circle to have a parent. The source raises AttributeError at canvas.py:136 when the last circle has no parent, and ZeroDivisionError at canvas.py:134 and 136 when a driven circle's radius is 0; these error paths are not modelled.
- Canvas.TracePointIgnoresState: where the arm end lands is the `place` parameter, a function of the driven angles and the fixed radii, because geometry.py is not part of this model. That geometry.py's classes read nothing else of the earlier state is assumed in that parameter, not proved.
- Hypotrochoid.RenderFrame: the returned points are stated as the sweep only for a chain whose parents come before their children, as `define_roulette` builds it; for other chains only their number is stated.
