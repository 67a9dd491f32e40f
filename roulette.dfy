/** main.py: the `Roulette` with its circles, arm and tracer, `define_roulette`,
    `calculate_geometry`, and the frame loop of `main()`. */
module Hypotrochoid {
  import opened Numerics
  import opened Colours
  import opened Chain

  const Resolution: (int, int) := (3840, 2160)
  const FramesToGenerate := 1440
  /** Samples per degree of drive angle. */
  const PixelDensity := 10
  const RotationsPerFrame := 50
  const NumberOfCircles := 3
  const CircleRadii: seq<real> := [1050.0, 630.0, 300.0]
  const CircleThetaMods: seq<real> := [1.0, -2.3, 1.4]
  const ArmThetaMod: real := -1.4

  /** The circle `define_roulette` makes at position k of the chain: the first one hangs from
      the roulette, every later one from the circle before it. */
  function DefinedCircle(k: nat): Circle
    requires k < NumberOfCircles
  {
    Circle(CircleRadii[k], 0.0, CircleThetaMods[k], if k == 0 then RouletteRoot else CircleAt(k - 1),
           Point(0.0, 0.0))
  }

  /** The chain `define_roulette` builds: circles 0 .. NUMBER_OF_CIRCLES - 2, since its loop
      runs over `range(1, NUMBER_OF_CIRCLES - 1)`. */
  function DefinedChain(): (cs: seq<Circle>)
    ensures |cs| == NumberOfCircles - 1
    ensures forall k :: 0 <= k < |cs| ==>
      cs[k].radius == CircleRadii[k] && cs[k].thetaMod == CircleThetaMods[k] && cs[k].theta == 0.0
      && cs[k].parent == if k == 0 then RouletteRoot else CircleAt(k - 1)
  {
    seq(NumberOfCircles - 1, k requires 0 <= k < NumberOfCircles - 1 => DefinedCircle(k))
  }

  /** The arm `define_roulette` hangs from `circles[-1]`; its theta starts at its theta_mod.
      Its length_mod is 1 because `Arm.__init__` sets it so (main.py:180); the configured
      ARM_LENGTH_MOD (main.py:25) is never read. */
  function DefinedArm(): (a: Arm)
    ensures a.parent == |DefinedChain()| - 1
  {
    Arm(NumberOfCircles - 2, 1.0, ArmThetaMod, ArmThetaMod, Point(0.0, 0.0), Point(0.0, 0.0))
  }

  /** The chain is one circle short: two circles, the second inside the first, the arm on the
      second, and no circle of the last configured radius (300). Its shape is one the
      positioning code accepts. */
  lemma DefinedChainShape()
    ensures |DefinedChain()| == NumberOfCircles - 1 == 2
    ensures forall k :: 0 <= k < |DefinedChain()| ==> DefinedChain()[k].radius != CircleRadii[2]
    ensures DefinedChain()[1].parent == CircleAt(0) && DefinedChain()[0].parent == RouletteRoot
    ensures WellFormed(DefinedChain()) && Ordered(DefinedChain())
    ensures ArmResolvable(DefinedChain(), DefinedArm())
  {
    var cs := DefinedChain();
    assert cs[0] == DefinedCircle(0) && cs[1] == DefinedCircle(1);
  }

  /** The square side `calculate_size` computes: round(2 * r0 + length_mod * r_last). */
  function CanvasSide(cs: seq<Circle>, arm: Arm): (side: int)
    requires |cs| > 0
    ensures 2.0 * cs[0].radius + arm.lengthMod * cs[|cs| - 1].radius - 0.5 <= side as real
         <= 2.0 * cs[0].radius + arm.lengthMod * cs[|cs| - 1].radius + 0.5
  {
    Round(cs[0].radius * 2.0 + arm.lengthMod * cs[|cs| - 1].radius)
  }

  /** The defined roulette is 2 * 1050 + 630 = 2730 pixels square. */
  lemma DefinedSize()
    ensures CanvasSide(DefinedChain(), DefinedArm()) == 2730
  {
    var cs := DefinedChain();
    assert cs[0] == DefinedCircle(0) && cs[1] == DefinedCircle(1);
    RoundOfInteger(2730);
  }

  /** One tracer point taken to the output image: `round((x - cx) + resx // 2)`, and likewise
      for y. Nothing checks that the result lies inside the image. */
  function OutputPixel(p: Point, center: Pixel, resolution: (int, int)): (q: Pixel)
    ensures p.x - center.x as real + (resolution.0 / 2) as real - 0.5 <= q.x as real
         <= p.x - center.x as real + (resolution.0 / 2) as real + 0.5
    ensures p.y - center.y as real + (resolution.1 / 2) as real - 0.5 <= q.y as real
         <= p.y - center.y as real + (resolution.1 / 2) as real + 0.5
  {
    Pixel(Round(p.x - center.x as real + (resolution.0 / 2) as real),
          Round(p.y - center.y as real + (resolution.1 / 2) as real))
  }

  /** `Tracer.modify_coords_for_output`: one pixel per tracer point, in order, each within half
      a pixel of the point moved from the roulette's centre to the image's centre. */
  function OutputPixels(coords: seq<Point>, center: Pixel, resolution: (int, int)): (ps: seq<Pixel>)
    ensures |ps| == |coords|
    ensures forall k :: 0 <= k < |coords| ==>
      coords[k].x - center.x as real + (resolution.0 / 2) as real - 0.5 <= ps[k].x as real
        <= coords[k].x - center.x as real + (resolution.0 / 2) as real + 0.5
      && coords[k].y - center.y as real + (resolution.1 / 2) as real - 0.5 <= ps[k].y as real
        <= coords[k].y - center.y as real + (resolution.1 / 2) as real + 0.5
  {
    seq(|coords|, k requires 0 <= k < |coords| => OutputPixel(coords[k], center, resolution))
  }

  /** A point with integer coordinates moves by exactly the offset between the roulette's centre
      and the image's centre; the roulette's centre lands on the image's centre. */
  lemma IntegralPointsShiftExactly(x: int, y: int, center: Pixel, resolution: (int, int))
    ensures OutputPixel(Point(x as real, y as real), center, resolution)
         == Pixel(x - center.x + resolution.0 / 2, y - center.y + resolution.1 / 2)
    ensures OutputPixel(Point(center.x as real, center.y as real), center, resolution)
         == Pixel(resolution.0 / 2, resolution.1 / 2)
  {
    RoundOfInteger(x - center.x + resolution.0 / 2);
    RoundOfInteger(y - center.y + resolution.1 / 2);
    RoundOfInteger(resolution.0 / 2);
    RoundOfInteger(resolution.1 / 2);
  }

  /** main.py:262-265. The `elif` test `theta_mod >= -1.5` is reached only when
      theta_mod > 1.5, so it always holds: the step never leaves the value where it is. */
  function ThetaModStep(v: real): (r: real)
    ensures r != v
    ensures v <= 1.5 ==> r > v
    ensures v > 1.5 ==> r < v
  {
    if v <= 1.5 then v + 1.0 / 300.0
    else if v >= -1.5 then v - 1.0 / 300.0
    else v
  }

  /** theta_mod after n frames of `main()`; each frame moves it by 1/300 at most. */
  function ThetaModAfter(v: real, n: nat): (r: real)
    ensures v - n as real / 300.0 <= r <= v + n as real / 300.0
  {
    if n == 0 then v else ThetaModStep(ThetaModAfter(v, n - 1))
  }

  /** Below 1.5 the value climbs by 1/300 per frame, whatever its sign: there is no turning
      point at -1.5. */
  lemma {:induction false} ThetaModRises(v: real, n: nat)
    requires v + (n as real - 1.0) / 300.0 <= 1.5
    ensures ThetaModAfter(v, n) == v + n as real / 300.0
  {
    if n > 0 {
      ThetaModRises(v, n - 1);
    }
  }

  /** Once in (1.5 - 1/300, 1.5 + 1/300] the value stays there for good, alternating
      around 1.5 instead of travelling back. */
  lemma {:induction false} ThetaModTrapped(v: real, n: nat)
    requires 1.5 - 1.0 / 300.0 < v <= 1.5 + 1.0 / 300.0
    ensures 1.5 - 1.0 / 300.0 < ThetaModAfter(v, n) <= 1.5 + 1.0 / 300.0
  {
    if n > 0 {
      ThetaModTrapped(v, n - 1);
    }
  }

  /** After n frames the value is m frames past step k. */
  lemma {:induction false} ThetaModAfterAdd(v: real, k: nat, m: nat)
    ensures ThetaModAfter(v, k + m) == ThetaModAfter(ThetaModAfter(v, k), m)
  {
    if m > 0 {
      ThetaModAfterAdd(v, k, m - 1);
    }
  }

  /** From ARM_THETA_MOD = -1.4 the arm's theta_mod rises linearly for 870 frames, reaches 1.5
      and then stays within 1/300 of it. */
  lemma ArmThetaModPath(n: nat)
    ensures n <= 870 ==> ThetaModAfter(ArmThetaMod, n) == ArmThetaMod + n as real / 300.0
    ensures ThetaModAfter(ArmThetaMod, 870) == 1.5
    ensures n >= 870 ==> 1.5 - 1.0 / 300.0 < ThetaModAfter(ArmThetaMod, n) <= 1.5 + 1.0 / 300.0
  {
    ThetaModRises(ArmThetaMod, 870);
    if n <= 870 {
      ThetaModRises(ArmThetaMod, n);
    } else {
      ThetaModAfterAdd(ArmThetaMod, 870, n - 870);
      ThetaModTrapped(1.5, n - 870);
    }
  }

  /** The tracer points `calculate_geometry` collects for an ordered chain: sample k is the
      trace point at drive angle k / PIXEL_DENSITY. */
  function Sweep(cs: seq<Circle>, arm: Arm, n: nat, origin: Point, trig: Trig): (ps: seq<Point>)
    requires WellFormed(cs) && ArmResolvable(cs, arm)
    ensures |ps| == n
  {
    seq(n, k requires 0 <= k < n => TracePoint(cs, arm, k as real / PixelDensity as real, origin, trig))
  }

  /** `calculate_geometry(roulette, degrees)` runs `degrees * 360 * PIXEL_DENSITY` samples. */
  function SampleCount(degrees: int): nat
  {
    if degrees > 0 then degrees * 360 * PixelDensity else 0
  }

  /** The `Tracer`: the arm ends collected for one frame and their pixel positions. */
  class Tracer {
    var coords: seq<Point>
    var modCoords: seq<Pixel>

    constructor ()
      ensures coords == [] && modCoords == []
    {
      coords := [];
      modCoords := [];
    }

    /** `modify_coords_for_output`, given the roulette's centre and the image resolution. */
    method ModifyCoordsForOutput(center: Pixel, resolution: (int, int))
      modifies this
      ensures coords == old(coords)
      ensures modCoords == OutputPixels(coords, center, resolution)
    {
      var rounded: seq<Pixel> := [];
      var k := 0;
      while k < |coords|
        invariant 0 <= k <= |coords|
        invariant rounded == OutputPixels(coords[..k], center, resolution)
      {
        rounded := rounded + [OutputPixel(coords[k], center, resolution)];
        k := k + 1;
      }
      assert coords[..k] == coords;
      modCoords := rounded;
    }

    /** The end of `ImageFrame.output_png` empties both lists. */
    method Clear()
      modifies this
      ensures coords == [] && modCoords == []
    {
      coords := [];
      modCoords := [];
    }
  }

  /** The `Roulette`: the circle chain, the arm, the tracer and the colour state. */
  class Roulette {
    var circles: seq<Circle>
    var arm: Arm
    const tracer: Tracer
    var rotations: int
    var frame: int
    var innerColour: Colour
    var outerColour: Colour
    var dimensions: (int, int)
    var resolution: (int, int)
    var center: Pixel

    /** What the frame loop of `main()` never changes besides the chain's fixed data: the
        arm's circle and length, the rotations per frame, the roulette's size and centre, and
        the output resolution. */
    function Layout(): (nat, real, int, Pixel, (int, int), (int, int))
      reads this`arm, this`rotations, this`center, this`dimensions, this`resolution
    {
      (arm.parent, arm.lengthMod, rotations, center, dimensions, resolution)
    }

    /** The roulette's centre as a point in world space. */
    function Origin(): Point
      reads this`center
    {
      Point(center.x as real, center.y as real)
    }

    /** `Roulette()` followed by the body of `define_roulette`: the chain, the arm, a fresh
        tracer, the size, one call of `calculate_positions(1)`, then the output resolution and
        the rotations per frame. */
    constructor Define(trig: Trig)
      ensures fresh(tracer)
      ensures dimensions == (2730, 2730) && center == Pixel(1365, 1365)
      ensures circles == Resolve(DefinedChain(), 1.0, Origin(), trig)
      ensures arm == PlaceArm(circles, DefinedArm(), trig)
      ensures tracer.coords == [TracePoint(DefinedChain(), DefinedArm(), 1.0, Origin(), trig)]
      ensures tracer.modCoords == []
      ensures resolution == Resolution && rotations == RotationsPerFrame && frame == 0
      ensures innerColour == InitialInner && outerColour == InitialOuter
    {
      var cs := [DefinedCircle(0)];
      for k := 1 to NumberOfCircles - 1
        invariant |cs| == k
        invariant forall j :: 0 <= j < k ==> cs[j] == DefinedCircle(j)
      {
        cs := cs + [Circle(CircleRadii[k], 0.0, CircleThetaMods[k], CircleAt(k - 1), Point(0.0, 0.0))];
      }
      assert cs == DefinedChain();
      circles := cs;
      arm := Arm(|cs| - 1, 1.0, ArmThetaMod, ArmThetaMod, cs[|cs| - 1].center, Point(0.0, 0.0));
      tracer := new Tracer();
      rotations := 10;
      frame := 0;
      innerColour := InitialInner;
      outerColour := InitialOuter;
      dimensions := (0, 0);
      resolution := (0, 0);
      center := Pixel(0, 0);
      new;
      DefinedChainShape();
      CalculateSize();
      DefinedSize();
      CalculatePositions(1.0, trig);
      resolution := Resolution;
      rotations := RotationsPerFrame;
    }

    /** `calculate_size`: a square image just big enough for the outer circle plus an arm's
        reach, and its centre. */
    method CalculateSize()
      requires |circles| > 0
      modifies this
      ensures circles == old(circles) && arm == old(arm) && frame == old(frame)
      ensures dimensions == (CanvasSide(circles, arm), CanvasSide(circles, arm))
      ensures center == Pixel(dimensions.0 / 2, dimensions.1 / 2)
      ensures innerColour == old(innerColour) && outerColour == old(outerColour)
      ensures resolution == old(resolution) && rotations == old(rotations)
    {
      var size := CanvasSide(circles, arm);
      dimensions := (size, size);
      center := Pixel(dimensions.0 / 2, dimensions.1 / 2);
    }

    /** `calculate_positions(i)`: the circles placed in list order, the arm placed on its
        circle, and the arm's end appended to the tracer. */
    method CalculatePositions(i: real, trig: Trig)
      requires WellFormed(circles) && ArmResolvable(circles, arm)
      modifies this, tracer
      ensures circles == Resolve(old(circles), i, Origin(), trig)
      ensures arm == PlaceArm(circles, old(arm), trig)
      ensures tracer.coords == old(tracer.coords) + [Round4Point(arm.end)]
      ensures tracer.modCoords == old(tracer.modCoords)
      ensures WellFormed(circles) && ArmResolvable(circles, arm)
      ensures center == old(center) && frame == old(frame) && rotations == old(rotations)
      ensures innerColour == old(innerColour) && outerColour == old(outerColour)
      ensures dimensions == old(dimensions) && resolution == old(resolution)
    {
      var cs := PlaceCircles(circles, i, Origin(), trig);
      AgreeArmResolvable(circles, cs, arm, arm);
      var placed := PlaceArm(cs, arm, trig);
      AgreeArmResolvable(circles, cs, arm, placed);
      circles := cs;
      arm := placed;
      tracer.coords := tracer.coords + [Round4Point(placed.end)];
    }

    /** `cycle_gradient_colours`: the first band test that holds for `frame`, top-down, picks
        the deltas added to each colour. The Python `while True` loops spin forever when no
        test holds, so `frame` must lie in [0, 1275]. */
    method CycleGradientColours()
      requires 0 <= frame <= LastBandedFrame
      modifies this
      ensures circles == old(circles) && arm == old(arm) && frame == old(frame)
      ensures innerColour == Cycle(Inner, old(innerColour), frame)
      ensures outerColour == Cycle(Outer, old(outerColour), frame)
      ensures center == old(center) && rotations == old(rotations) && resolution == old(resolution)
      ensures dimensions == old(dimensions)
    {
      var i := frame;
      var f := ColourChangeFreq;
      if ColourIncrement * 4 <= i <= ColourIncrement * 5 {
        innerColour := innerColour.(red := innerColour.red - f);
        innerColour := innerColour.(green := innerColour.green + f);
        innerColour := innerColour.(blue := innerColour.blue + f);
      } else if ColourIncrement * 3 <= i <= ColourIncrement * 4 {
        innerColour := innerColour.(green := innerColour.green - f);
        innerColour := innerColour.(red := innerColour.red + f);
      } else if ColourIncrement * 2 <= i <= ColourIncrement * 3 {
        innerColour := innerColour.(red := innerColour.red - f);
        innerColour := innerColour.(green := innerColour.green + f);
        innerColour := innerColour.(blue := innerColour.blue - f);
      } else if ColourIncrement <= i <= ColourIncrement * 2 {
        innerColour := innerColour.(red := innerColour.red + f);
      } else {
        innerColour := innerColour.(green := innerColour.green - f);
      }

      if ColourIncrement * 4 <= i <= ColourIncrement * 5 {
        outerColour := outerColour.(green := outerColour.green - f);
        outerColour := outerColour.(red := outerColour.red + f);
      } else if ColourIncrement * 3 <= i <= ColourIncrement * 4 {
        outerColour := outerColour.(red := outerColour.red - f);
        outerColour := outerColour.(green := outerColour.green + f);
        outerColour := outerColour.(blue := outerColour.blue - f);
      } else if ColourIncrement * 2 <= i <= ColourIncrement * 3 {
        outerColour := outerColour.(red := outerColour.red + f);
      } else if ColourIncrement <= i <= ColourIncrement * 2 {
        outerColour := outerColour.(green := outerColour.green - f);
      } else {
        outerColour := outerColour.(red := outerColour.red - f);
        outerColour := outerColour.(green := outerColour.green + f);
        outerColour := outerColour.(blue := outerColour.blue + f);
      }
    }

    /** `calculate_pixel_gradient` given the point's distance from the image centre as a
        fraction d of the half diagonal; main.py subtracts 0.1 from it before blending. */
    function PixelGradient(d: real): (c: Colour)
      reads this`innerColour, this`outerColour
      ensures innerColour == outerColour ==> c == outerColour
      ensures d == 0.1 ==> c == innerColour
      ensures d == 1.1 ==> c == outerColour
    {
      if outerColour == innerColour then outerColour
      else Blend(innerColour, outerColour, d - 0.1)
    }
  }

  /** `main()` cycles the colours at frame 1 before it writes its first image, so the first
      image is drawn with [0, 254, 255] inside and [254, 1, 1] outside. A point at the
      roulette's centre (distance 0) is coloured at t = -0.1, outside [0, 1], and its red
      channel is negative and its green and blue channels exceed 255. */
  lemma FirstFrameCentrePixel()
    ensures Cycle(Inner, InitialInner, 1) == Colour(0, 254, 255)
    ensures Cycle(Outer, InitialOuter, 1) == Colour(254, 1, 1)
    ensures Blend(Cycle(Inner, InitialInner, 1), Cycle(Outer, InitialOuter, 1), 0.0 - 0.1) == Colour(-25, 279, 280)
  {
    assert SelectBand(1) == Some(0);
    RoundUnique(-25.4, -25);
    RoundUnique(279.3, 279);
    RoundUnique(280.4, 280);
    assert 254.0 * -0.1 + 0.0 * (1.0 - -0.1) == -25.4;
    assert 1.0 * -0.1 + 254.0 * (1.0 - -0.1) == 279.3;
    assert 1.0 * -0.1 + 255.0 * (1.0 - -0.1) == 280.4;
  }

  /** `calculate_geometry(roulette, degrees)`: the samples i / PIXEL_DENSITY for
      i = 0 .. degrees * 360 * PIXEL_DENSITY - 1, in order. For an ordered chain the points
      appended are exactly the sweep of the chain and arm as they stood before the call. */
  method CalculateGeometry(roulette: Roulette, degrees: int, trig: Trig)
    requires WellFormed(roulette.circles) && ArmResolvable(roulette.circles, roulette.arm)
    modifies roulette, roulette.tracer
    ensures Agree(roulette.circles, old(roulette.circles)) && ArmAgree(roulette.arm, old(roulette.arm))
    ensures WellFormed(roulette.circles) && ArmResolvable(roulette.circles, roulette.arm)
    ensures |roulette.tracer.coords| == |old(roulette.tracer.coords)| + SampleCount(degrees)
    ensures Ordered(old(roulette.circles)) ==>
      roulette.tracer.coords == old(roulette.tracer.coords)
        + Sweep(old(roulette.circles), old(roulette.arm), SampleCount(degrees), roulette.Origin(), trig)
    ensures roulette.tracer.modCoords == old(roulette.tracer.modCoords)
    ensures roulette.center == old(roulette.center) && roulette.frame == old(roulette.frame)
    ensures roulette.rotations == old(roulette.rotations) && roulette.resolution == old(roulette.resolution)
    ensures roulette.innerColour == old(roulette.innerColour) && roulette.outerColour == old(roulette.outerColour)
    ensures roulette.dimensions == old(roulette.dimensions)
  {
    var n := SampleCount(degrees);
    ghost var cs0, arm0, coords0 := roulette.circles, roulette.arm, roulette.tracer.coords;
    for k := 0 to n
      invariant Agree(roulette.circles, cs0) && ArmAgree(roulette.arm, arm0)
      invariant WellFormed(roulette.circles) && ArmResolvable(roulette.circles, roulette.arm)
      invariant |roulette.tracer.coords| == |coords0| + k
      invariant Ordered(cs0) ==> roulette.tracer.coords == coords0 + Sweep(cs0, arm0, k, roulette.Origin(), trig)
      invariant roulette.tracer.modCoords == old(roulette.tracer.modCoords)
      invariant roulette.Layout() == old(roulette.Layout()) && roulette.frame == old(roulette.frame)
      invariant roulette.innerColour == old(roulette.innerColour) && roulette.outerColour == old(roulette.outerColour)
    {
      ghost var before, armBefore := roulette.circles, roulette.arm;
      roulette.CalculatePositions(k as real / PixelDensity as real, trig);
      if Ordered(cs0) {
        SweepStep(cs0, arm0, before, armBefore, k, roulette.Origin(), trig);
      }
    }
  }

  /** One more sample extends the sweep by the trace point of the chain in its current state,
      which for an ordered chain is the trace point of the chain as it started. */
  lemma SweepStep(cs0: seq<Circle>, arm0: Arm, cs: seq<Circle>, arm: Arm, k: nat, origin: Point, trig: Trig)
    requires WellFormed(cs0) && Ordered(cs0) && ArmResolvable(cs0, arm0)
    requires Agree(cs0, cs) && ArmAgree(arm, arm0) && WellFormed(cs) && ArmResolvable(cs, arm)
    ensures Sweep(cs0, arm0, k + 1, origin, trig)
         == Sweep(cs0, arm0, k, origin, trig)
            + [Round4Point(PlaceArm(Resolve(cs, k as real / PixelDensity as real, origin, trig), arm, trig).end)]
  {
    var i := k as real / PixelDensity as real;
    ResolveIgnoresState(cs0, cs, i, origin, trig);
    PlaceArmIgnoresState(Resolve(cs0, i, origin, trig), arm, arm0, trig);
  }

  /** The points a frame of `main()` draws, for an ordered chain: those already in the tracer,
      then the sweep of `rotations` degrees with the arm's theta_mod stepped once. */
  predicate FrameTraced(points: seq<Point>, coords: seq<Point>, cs: seq<Circle>, arm: Arm, rotations: int,
                        origin: Point, trig: Trig)
    requires WellFormed(cs) && ArmResolvable(cs, arm)
  {
    Ordered(cs) ==>
      points == coords + Sweep(cs, arm.(thetaMod := ThetaModStep(arm.thetaMod)), SampleCount(rotations), origin, trig)
  }

  /** One iteration of the frame loop of `main()`: step the arm's theta_mod, collect the
      frame's points, advance the frame and recolour, take the points to pixels, and (once the
      image is written) empty the tracer. `points` and `pixels` are the tracer's two lists as
      `output_png` reads them. */
  method RenderFrame(roulette: Roulette, trig: Trig) returns (points: seq<Point>, pixels: seq<Pixel>)
    requires 0 <= roulette.frame < LastBandedFrame
    requires WellFormed(roulette.circles) && ArmResolvable(roulette.circles, roulette.arm)
    modifies roulette, roulette.tracer
    ensures roulette.frame == old(roulette.frame) + 1
    ensures roulette.arm.thetaMod == ThetaModStep(old(roulette.arm.thetaMod))
    ensures roulette.Layout() == old(roulette.Layout())
    ensures roulette.innerColour == Cycle(Inner, old(roulette.innerColour), roulette.frame)
    ensures roulette.outerColour == Cycle(Outer, old(roulette.outerColour), roulette.frame)
    ensures Agree(roulette.circles, old(roulette.circles))
    ensures WellFormed(roulette.circles) && ArmResolvable(roulette.circles, roulette.arm)
    ensures |points| == |old(roulette.tracer.coords)| + SampleCount(old(roulette.rotations))
    ensures FrameTraced(points, old(roulette.tracer.coords), old(roulette.circles), old(roulette.arm),
                        old(roulette.rotations), roulette.Origin(), trig)
    ensures pixels == OutputPixels(points, roulette.center, roulette.resolution)
    ensures roulette.tracer.coords == [] && roulette.tracer.modCoords == []
  {
    roulette.arm := roulette.arm.(thetaMod := ThetaModStep(roulette.arm.thetaMod));
    CalculateGeometry(roulette, roulette.rotations, trig);
    roulette.frame := roulette.frame + 1;
    roulette.CycleGradientColours();
    roulette.tracer.ModifyCoordsForOutput(roulette.center, roulette.resolution);
    points, pixels := roulette.tracer.coords, roulette.tracer.modCoords;
    roulette.tracer.Clear();
  }

  /** The frame loop of `main()` for `count` frames. The colour loops stop only for frames up
      to 1275, so at most 1275 - frame frames can be run; `main()` asks for 1440. */
  method GenerateFrames(roulette: Roulette, count: nat, trig: Trig)
    requires 0 <= roulette.frame && roulette.frame + count <= LastBandedFrame
    requires WellFormed(roulette.circles) && ArmResolvable(roulette.circles, roulette.arm)
    modifies roulette, roulette.tracer
    ensures roulette.frame == old(roulette.frame) + count
    ensures roulette.arm.thetaMod == ThetaModAfter(old(roulette.arm.thetaMod), count)
    ensures roulette.innerColour
         == ColourBetween(Inner, old(roulette.innerColour), old(roulette.frame), roulette.frame)
    ensures roulette.outerColour
         == ColourBetween(Outer, old(roulette.outerColour), old(roulette.frame), roulette.frame)
    ensures Agree(roulette.circles, old(roulette.circles))
    ensures WellFormed(roulette.circles) && ArmResolvable(roulette.circles, roulette.arm)
    ensures roulette.Layout() == old(roulette.Layout())
    ensures count > 0 ==> roulette.tracer.coords == [] && roulette.tracer.modCoords == []
    ensures count == 0 ==>
             (roulette.tracer.coords == old(roulette.tracer.coords)
              && roulette.tracer.modCoords == old(roulette.tracer.modCoords))
  {
    ghost var frame0, theta0 := roulette.frame, roulette.arm.thetaMod;
    ghost var inner0, outer0 := roulette.innerColour, roulette.outerColour;
    ghost var cs0, layout0 := roulette.circles, roulette.Layout();
    for k := 0 to count
      invariant roulette.frame == frame0 + k
      invariant roulette.arm.thetaMod == ThetaModAfter(theta0, k)
      invariant roulette.innerColour == ColourBetween(Inner, inner0, frame0, frame0 + k)
      invariant roulette.outerColour == ColourBetween(Outer, outer0, frame0, frame0 + k)
      invariant Agree(roulette.circles, cs0)
      invariant WellFormed(roulette.circles) && ArmResolvable(roulette.circles, roulette.arm)
      invariant roulette.Layout() == layout0
      invariant k > 0 ==> roulette.tracer.coords == [] && roulette.tracer.modCoords == []
      invariant k == 0 ==>
                 (roulette.tracer.coords == old(roulette.tracer.coords)
                  && roulette.tracer.modCoords == old(roulette.tracer.modCoords))
    {
      var points, pixels := RenderFrame(roulette, trig);
    }
  }

  /** `main()` asks for more frames than the colour bands cover: its 1276th iteration calls
      `cycle_gradient_colours` with frame 1276, where no band test holds. */
  lemma MainOutrunsColourBands()
    ensures FramesToGenerate > LastBandedFrame
    ensures SelectBand(LastBandedFrame + 1) == None
  {
  }
}
