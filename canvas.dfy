/** canvas.py: the `MainCanvas` image-export path. The circle chain's angles follow the same
    rules as main.py; where a circle or the arm actually lands is decided by `geometry.Circle`
    and `geometry.Arm`, which are not part of this model, so that placement is a parameter. */
module Canvas {
  import opened Numerics
  import Chain
  import Colours

  /** A canvas circle: radius, theta, theta_mod and the index of its parent circle, `None` for
      the outermost circle (`parent is None`). */
  datatype CanvasCircle = CanvasCircle(radius: real, theta: real, thetaMod: real, parent: Option<nat>)

  /** The canvas arm; it always hangs from the last circle. */
  datatype CanvasArm = CanvasArm(lengthMod: real, theta: real, thetaMod: real)

  /** Where the arm ends once `calculate_position` has run on every circle and on the arm. */
  type Placement = (seq<CanvasCircle>, CanvasArm) -> Point

  const CanvasWidth := 1000
  const CanvasHeight := 800
  /** `rotation_mod`: `create_img` draws 360 * 25 samples. */
  const RotationMod := 25
  /** `img_output_res_mod`: the exported image is twice the canvas scale. */
  const ImgOutputResMod := 2
  /** `create_many_images` exports this many images. */
  const ImagesToCreate := 2880
  /** The images `create_many_images` draws are bordered by 5 pixels on each side. */
  const ImageBorder := 10

  /** Every parent index names an earlier circle, and every circle with a parent has a
      non-zero radius, the divisor of its theta. */
  predicate WellFormed(cs: seq<CanvasCircle>)
  {
    forall k :: 0 <= k < |cs| && cs[k].parent.Some? ==> cs[k].parent.value < k && cs[k].radius != 0.0
  }

  /** `arm.parent.parent.radius` exists: the last circle has a parent circle. */
  predicate ArmReady(cs: seq<CanvasCircle>)
  {
    |cs| >= 1 && cs[|cs| - 1].parent.Some?
  }

  /** Two chains with the same fixed data: radii, theta_mods, parents, and the thetas of the
      circles nothing drives. */
  predicate Agree(a: seq<CanvasCircle>, b: seq<CanvasCircle>)
  {
    |a| == |b| &&
    forall k :: 0 <= k < |a| ==>
      a[k].radius == b[k].radius && a[k].thetaMod == b[k].thetaMod && a[k].parent == b[k].parent
      && (a[k].parent.None? ==> a[k].theta == b[k].theta)
  }

  /** Two chains with the same fixed data, except perhaps the radius of circle j. */
  predicate AgreeBut(a: seq<CanvasCircle>, b: seq<CanvasCircle>, j: nat)
  {
    |a| == |b| &&
    forall k :: 0 <= k < |a| ==>
      (k != j ==> a[k].radius == b[k].radius) && a[k].thetaMod == b[k].thetaMod && a[k].parent == b[k].parent
      && (a[k].parent.None? ==> a[k].theta == b[k].theta)
  }

  /** Two arms with the same length_mod and theta_mod. */
  predicate ArmAgree(a: CanvasArm, b: CanvasArm)
  {
    a.lengthMod == b.lengthMod && a.thetaMod == b.thetaMod
  }

  /** One pass of the circle loop of `calculate_positions` at sample i, for circle k: a circle
      without a parent keeps its theta, any other gets `parent.radius / radius * i`. */
  function DriveCircle(cs: seq<CanvasCircle>, k: nat, i: real): (c: CanvasCircle)
    requires WellFormed(cs) && k < |cs|
    ensures c.radius == cs[k].radius && c.thetaMod == cs[k].thetaMod && c.parent == cs[k].parent
    ensures cs[k].parent.None? ==> c.theta == cs[k].theta
    ensures cs[k].parent.Some? ==> c.theta * c.radius == cs[cs[k].parent.value].radius * i
  {
    match cs[k].parent
    case None => cs[k]
    case Some(p) => cs[k].(theta := Chain.DrivenTheta(cs[p].radius, cs[k].radius, i))
  }

  /** The circles after the loop of `calculate_positions` at sample i. */
  function Drive(cs: seq<CanvasCircle>, i: real): (r: seq<CanvasCircle>)
    requires WellFormed(cs)
    ensures Agree(r, cs) && WellFormed(r)
  {
    seq(|cs|, k requires 0 <= k < |cs| => DriveCircle(cs, k, i))
  }

  /** The arm after `calculate_positions`: `-parent.theta * (parent.parent.radius / parent.radius)`,
      with the parent's theta as the circle loop just left it. */
  function DriveArm(cs: seq<CanvasCircle>, arm: CanvasArm): (a: CanvasArm)
    requires WellFormed(cs) && ArmReady(cs)
    ensures ArmAgree(a, arm)
    ensures var p := cs[|cs| - 1];
      a.theta * p.radius == -p.theta * cs[p.parent.value].radius
  {
    var p := cs[|cs| - 1];
    arm.(theta := Chain.ArmTheta(p.theta, cs[p.parent.value].radius, p.radius))
  }

  /** The point `calculate_positions(i)` appends to `tracer.coords`: the arm end, rounded to
      four decimals. */
  function TracePoint(cs: seq<CanvasCircle>, arm: CanvasArm, i: real, place: Placement): (p: Point)
    requires WellFormed(cs) && ArmReady(cs)
    ensures var d := Drive(cs, i); var e := place(d, DriveArm(d, arm));
      e.x - 0.00005 <= p.x <= e.x + 0.00005 && e.y - 0.00005 <= p.y <= e.y + 0.00005
  {
    var d := Drive(cs, i);
    Round4Point(place(d, DriveArm(d, arm)))
  }

  /** The points appended by `calculate_positions(0)`, ..., `calculate_positions(n - 1)`. */
  function CanvasSweep(cs: seq<CanvasCircle>, arm: CanvasArm, n: nat, place: Placement): (ps: seq<Point>)
    requires WellFormed(cs) && ArmReady(cs)
    ensures |ps| == n
  {
    seq(n, j requires 0 <= j < n => TracePoint(cs, arm, j as real, place))
  }

  /** One more sample appends one more point. */
  lemma CanvasSweepStep(cs: seq<CanvasCircle>, arm: CanvasArm, n: nat, place: Placement)
    requires WellFormed(cs) && ArmReady(cs)
    ensures CanvasSweep(cs, arm, n + 1, place) == CanvasSweep(cs, arm, n, place) + [TracePoint(cs, arm, n as real, place)]
  {
    assert forall j :: 0 <= j < n ==> CanvasSweep(cs, arm, n + 1, place)[j] == CanvasSweep(cs, arm, n, place)[j];
  }

  /** The angles `calculate_positions` sets do not depend on the angles left by the previous
      sample, only on the fixed data: two chains that agree are driven to the same circles. */
  lemma DriveIgnoresState(a: seq<CanvasCircle>, b: seq<CanvasCircle>, i: real)
    requires WellFormed(a) && Agree(a, b)
    ensures WellFormed(b) && Drive(a, i) == Drive(b, i)
  {
    forall k | 0 <= k < |a|
      ensures DriveCircle(a, k, i) == DriveCircle(b, k, i)
    {
      if a[k].parent.Some? {
        assert a[a[k].parent.value].radius == b[a[k].parent.value].radius;
      }
    }
  }

  /** Hence a whole sample is fixed by the fixed data and i. */
  lemma TracePointIgnoresState(a: seq<CanvasCircle>, b: seq<CanvasCircle>, armA: CanvasArm, armB: CanvasArm, i: real, place: Placement)
    requires WellFormed(a) && ArmReady(a) && Agree(a, b) && ArmAgree(armA, armB)
    ensures WellFormed(b) && ArmReady(b)
    ensures TracePoint(a, armA, i, place) == TracePoint(b, armB, i, place)
  {
    DriveIgnoresState(a, b, i);
    var d := Drive(a, i);
    assert DriveArm(d, armA) == DriveArm(d, armB);
  }

  /** One step of a sampling run: driving a chain that agrees with the run's starting chain
      appends the next point of the starting chain's sweep and keeps the fixed data. */
  lemma SampleStep(cs: seq<CanvasCircle>, arm: CanvasArm, cs0: seq<CanvasCircle>, arm0: CanvasArm,
                   coords: seq<Point>, coords0: seq<Point>, j: nat, place: Placement)
    requires WellFormed(cs) && ArmReady(cs) && Agree(cs, cs0) && ArmAgree(arm, arm0)
    requires WellFormed(cs0) && ArmReady(cs0)
    requires coords == coords0 + CanvasSweep(cs0, arm0, j, place)
    ensures coords + [TracePoint(cs, arm, j as real, place)] == coords0 + CanvasSweep(cs0, arm0, j + 1, place)
    ensures Agree(Drive(cs, j as real), cs0)
  {
    TracePointIgnoresState(cs, cs0, arm, arm0, j as real, place);
    CanvasSweepStep(cs0, arm0, j, place);
    var d := Drive(cs, j as real);
    assert Agree(d, cs);
  }

  /** The arm turns against the last circle: its theta is `-(gp.radius / p.radius)^2 * i`. */
  lemma ArmCounterRotation(cs: seq<CanvasCircle>, arm: CanvasArm, i: real)
    requires WellFormed(cs) && ArmReady(cs)
    ensures var p := cs[|cs| - 1]; var gr := cs[p.parent.value].radius;
      DriveArm(Drive(cs, i), arm).theta == -(gr / p.radius) * (gr / p.radius) * i
  {
    var d := Drive(cs, i);
    var p := cs[|cs| - 1];
    var gr := cs[p.parent.value].radius;
    assert d[|cs| - 1].theta == gr / p.radius * i by {
      assert d[|cs| - 1].theta * p.radius == gr * i;
    }
  }

  /** The exact side `calculate_img_canvas_size` rounds: twice the first radius plus the arm's
      reach, scaled to the output resolution. */
  function ImgSideExact(firstRadius: real, lengthMod: real, lastRadius: real): real
  {
    (firstRadius * 2.0 + lengthMod * lastRadius) * ImgOutputResMod as real
  }

  /** `round((i - center) * img_output_res_mod + img_size)` for one coordinate. */
  function OutputOrdinate(v: real, center: int, half: int): (n: int)
    ensures (v - center as real) * ImgOutputResMod as real + half as real - 0.5 <= n as real
    ensures n as real <= (v - center as real) * ImgOutputResMod as real + half as real + 0.5
  {
    Round((v - center as real) * ImgOutputResMod as real + half as real)
  }

  /** One point of `modify_coords_for_output`, given the canvas centre and half the image side. */
  function OutputCoord(p: Point, center: Pixel, half: int): (q: Pixel)
    ensures (p.x - center.x as real) * ImgOutputResMod as real + half as real - 0.5 <= q.x as real
         <= (p.x - center.x as real) * ImgOutputResMod as real + half as real + 0.5
    ensures (p.y - center.y as real) * ImgOutputResMod as real + half as real - 0.5 <= q.y as real
         <= (p.y - center.y as real) * ImgOutputResMod as real + half as real + 0.5
  {
    Pixel(OutputOrdinate(p.x, center.x, half), OutputOrdinate(p.y, center.y, half))
  }

  /** `modify_coords_for_output` as a function of the traced points: one pixel per point, in
      order, each within half a pixel of the point's offset from the canvas centre scaled to
      the image and moved to the image centre. */
  function OutputCoords(ps: seq<Point>, center: Pixel, half: int): (qs: seq<Pixel>)
    ensures |qs| == |ps|
    ensures forall k :: 0 <= k < |ps| ==>
      (ps[k].x - center.x as real) * ImgOutputResMod as real + half as real - 0.5 <= qs[k].x as real
        <= (ps[k].x - center.x as real) * ImgOutputResMod as real + half as real + 0.5
      && (ps[k].y - center.y as real) * ImgOutputResMod as real + half as real - 0.5 <= qs[k].y as real
        <= (ps[k].y - center.y as real) * ImgOutputResMod as real + half as real + 0.5
  {
    seq(|ps|, k requires 0 <= k < |ps| => OutputCoord(ps[k], center, half))
  }

  /** The mapping is point by point: the output of a joined trace is the joined outputs. */
  lemma OutputCoordsAppend(a: seq<Point>, b: seq<Point>, center: Pixel, half: int)
    ensures OutputCoords(a + b, center, half) == OutputCoords(a, center, half) + OutputCoords(b, center, half)
  {
    var l, r := OutputCoords(a + b, center, half), OutputCoords(a, center, half) + OutputCoords(b, center, half);
    assert |l| == |r|;
    forall k | 0 <= k < |l|
      ensures l[k] == r[k]
    {
      if k < |a| {
        assert (a + b)[k] == a[k];
      } else {
        assert (a + b)[k] == b[k - |a|];
      }
    }
  }

  /** On whole-number canvas points the mapping is exact, and the canvas point is recovered
      from the image pixel by undoing the shift and the scale. */
  lemma OutputCoordInverse(x: int, y: int, center: Pixel, half: int)
    ensures var q := OutputCoord(Point(x as real, y as real), center, half);
      q == Pixel((x - center.x) * ImgOutputResMod + half, (y - center.y) * ImgOutputResMod + half)
      && (q.x - half) / ImgOutputResMod + center.x == x && (q.y - half) / ImgOutputResMod + center.y == y
  {
    RoundOfInteger((x - center.x) * ImgOutputResMod + half);
    RoundOfInteger((y - center.y) * ImgOutputResMod + half);
  }

  /** Every point shifted by (dx, dy), as `compute_glow` computes it, one point after another. */
  function Shifted(ps: seq<Pixel>, dx: int, dy: int): (r: seq<Pixel>)
    ensures |r| == |ps|
    ensures forall k :: 0 <= k < |ps| ==> r[k].x - ps[k].x == dx && r[k].y - ps[k].y == dy
  {
    if |ps| == 0 then []
    else [Pixel(ps[0].x + dx, ps[0].y + dy)] + Shifted(ps[1..], dx, dy)
  }

  /** Shifting by (dx, dy) and then by (-dx, -dy) gives back the points. */
  lemma ShiftedInverse(ps: seq<Pixel>, dx: int, dy: int)
    ensures Shifted(Shifted(ps, dx, dy), -dx, -dy) == ps
  {
    var r := Shifted(Shifted(ps, dx, dy), -dx, -dy);
    assert forall k :: 0 <= k < |ps| ==> r[k] == ps[k];
  }

  /** Shifts compose by adding their offsets. */
  lemma ShiftedCompose(ps: seq<Pixel>, dx: int, dy: int, ex: int, ey: int)
    ensures Shifted(Shifted(ps, dx, dy), ex, ey) == Shifted(ps, dx + ex, dy + ey)
  {
    var l, r := Shifted(Shifted(ps, dx, dy), ex, ey), Shifted(ps, dx + ex, dy + ey);
    assert forall k :: 0 <= k < |ps| ==> l[k] == r[k];
  }

  /** `compute_glow(rounded_coords, mod)`: a copy of the points, each moved by mod; the
      argument is left as it was. */
  method ComputeGlow(roundedCoords: seq<Pixel>, mod: (int, int)) returns (r: seq<Pixel>)
    ensures r == Shifted(roundedCoords, mod.0, mod.1)
  {
    r := roundedCoords;
    for k := 0 to |r|
      invariant |r| == |roundedCoords|
      invariant forall j :: 0 <= j < k ==> r[j] == Pixel(roundedCoords[j].x + mod.0, roundedCoords[j].y + mod.1)
      invariant forall j :: k <= j < |r| ==> r[j] == roundedCoords[j]
    {
      r := r[k := Pixel(r[k].x + mod.0, r[k].y + mod.1)];
    }
  }

  /** `circles[1].radius` after the first n images of `create_many_images`, which add
      i / 1440000 before image i. */
  function RadiusAfter(r: real, n: nat): (g: real)
    ensures r <= g
    ensures n >= 2 ==> r < g
  {
    if n == 0 then r else RadiusAfter(r, n - 1) + (n - 1) as real / 1440000.0
  }

  /** The growth is the sum 0 + 1 + ... + (n - 1) over 1440000. */
  lemma {:induction false} RadiusGrowth(r: real, n: nat)
    ensures RadiusAfter(r, n) == r + (n * (n - 1)) as real / 2880000.0
  {
    if n > 0 {
      RadiusGrowth(r, n - 1);
      assert (n - 1) * (n - 2) + 2 * (n - 1) == n * (n - 1);
    }
  }

  /** Over all 2880 images the second circle grows by 2.879. */
  lemma ManyImagesGrowth(r: real)
    ensures RadiusAfter(r, ImagesToCreate) == r + 2.879
  {
    RadiusGrowth(r, ImagesToCreate);
  }

  /** The theta_mod step of `create_many_images` before image i: at or above 1.5 it drops by
      i / 14400; below it the `elif` always holds and it rises by i / 14400. The value always
      moves by exactly one step, and it moves down exactly when it is at or above 1.5. */
  function ThetaModStep(v: real, i: nat): (r: real)
    ensures Abs(r - v) == i as real / 14400.0
    ensures i > 0 ==> (r < v <==> v >= 1.5)
  {
    if v >= 1.5 then v - i as real / 14400.0
    else if v <= 1.5 then v + i as real / 14400.0
    else v
  }

  /** theta_mod after the first n images; it has moved by at most the sum of the steps,
      0 + 1 + ... + (n - 1) over 14400. */
  function ThetaModAfter(v: real, n: nat): (r: real)
    ensures Abs(r - v) <= (n * (n - 1)) as real / 28800.0
  {
    if n == 0 then v
    else
      TriangleStep(n - 1);
      ThetaModStep(ThetaModAfter(v, n - 1), n - 1)
  }

  function Abs(x: real): real { if x < 0.0 then -x else x }

  /** Each step moves theta_mod towards 1.5 (at exactly 1.5 the decrease wins); its distance
      to 1.5 shrinks by the step, or the step overshoots and lands within one step of 1.5. */
  lemma ThetaModStepTowards(v: real, i: nat)
    ensures v >= 1.5 ==> ThetaModStep(v, i) <= v
    ensures v < 1.5 ==> ThetaModStep(v, i) >= v
    ensures v == 1.5 ==> ThetaModStep(v, i) == 1.5 - i as real / 14400.0
    ensures var s := i as real / 14400.0;
      Abs(ThetaModStep(v, i) - 1.5) <= Abs(v - 1.5) - s || Abs(ThetaModStep(v, i) - 1.5) <= s
  {
  }

  /** Once theta_mod is within n / 14400 of 1.5 after n images it stays within m / 14400 after
      every later m images: it swings around 1.5 with an amplitude bounded by the step. */
  lemma {:induction false} ThetaModStaysNear(v: real, n: nat, m: nat)
    requires n <= m && Abs(ThetaModAfter(v, n) - 1.5) <= n as real / 14400.0
    ensures Abs(ThetaModAfter(v, m) - 1.5) <= m as real / 14400.0
  {
    if m > n {
      ThetaModStaysNear(v, n, m - 1);
      ThetaModStepTowards(ThetaModAfter(v, m - 1), m - 1);
    }
  }

  lemma MulMono(a: nat, b: nat, c: nat, d: nat)
    requires a <= c && b <= d
    ensures a * b <= c * d
  {
    assert a * b <= c * b;
  }

  lemma TriangleStep(m: int)
    ensures m * (m - 1) + 2 * m == (m + 1) * m
  {
  }

  /** From the canvas's own start value, -1, theta_mod climbs for the first 269 images:
      after n <= 269 of them it is -1 + n (n - 1) / 28800. */
  lemma {:induction false} ThetaModClimbs(n: nat)
    requires n <= 269
    ensures ThetaModAfter(-1.0, n) == -1.0 + (n * (n - 1)) as real / 28800.0
  {
    if n > 0 {
      var m := n - 1;
      ThetaModClimbs(m);
      var p, q := m * (m - 1), n * m;
      if m > 0 {
        MulMono(m, m - 1, 268, 267);
      }
      assert p <= 71556;
      TriangleStep(m);
      assert p + 2 * m == q;
      assert ThetaModAfter(-1.0, m) == -1.0 + p as real / 28800.0 < 1.5;
      assert ThetaModAfter(-1.0, n) == ThetaModAfter(-1.0, m) + m as real / 14400.0;
    }
  }

  /** From -1 the value passes 1.5 at image 269 and from then on stays within i / 14400 of it. */
  lemma ThetaModSettles(m: nat)
    requires 269 <= m
    ensures Abs(ThetaModAfter(-1.0, m) - 1.5) <= m as real / 14400.0
    ensures ThetaModAfter(-1.0, 268) < 1.5 < ThetaModAfter(-1.0, 269)
  {
    ThetaModClimbs(268);
    ThetaModClimbs(269);
    ThetaModStaysNear(-1.0, 269, m);
  }

  /** The chain `initial_setup` builds, given the theta_mod geometry.Circle starts with: three
      circles, each the parent of the next, with radii 371, 300.02315 and 120.02315. */
  function InitialCircles(defaultThetaMod: real): (cs: seq<CanvasCircle>)
    ensures |cs| == 3 && WellFormed(cs) && ArmReady(cs)
    ensures cs[0].parent == None && forall k :: 1 <= k < 3 ==> cs[k].parent == Some(k - 1)
  {
    [CanvasCircle(371.0, 0.0, defaultThetaMod, None),
     CanvasCircle(300.02315, 0.0, defaultThetaMod, Some(0)),
     CanvasCircle(120.02315, 0.0, defaultThetaMod, Some(1))]
  }

  class MainCanvas {
    /** `self.center`: the middle of the 1000 by 800 canvas. */
    const center: Pixel
    var circles: seq<CanvasCircle>
    var arm: CanvasArm
    /** `tracer.coords`. */
    var traceCoords: seq<Point>
    var roundedCoords: seq<Pixel>
    var innerColour: Colours.Colour
    var outerColour: Colours.Colour

    /** The chain `calculate_positions` can work on. */
    predicate Valid()
      reads this`circles
    {
      WellFormed(circles) && ArmReady(circles)
    }

    /** `__init__` and `initial_setup`. The theta_mod a new geometry.Circle gets and the arm
        geometry.Arm builds are not visible here, so they are parameters. The loop negates the
        theta_mod of the odd circles, then circle 1 is set to 2.7 times circle 0, and the
        arm's theta_mod to -1. */
    constructor (defaultThetaMod: real, defaultArm: CanvasArm)
      ensures center == Pixel(500, 400)
      ensures circles == InitialCircles(defaultThetaMod)[1 := InitialCircles(defaultThetaMod)[1].(thetaMod := defaultThetaMod * 2.7)]
      ensures arm == defaultArm.(thetaMod := -1.0)
      ensures traceCoords == [] && roundedCoords == []
      ensures innerColour == Colours.Colour(255, 255, 255) && outerColour == Colours.Colour(0, 255, 255)
      ensures Valid()
    {
      center := Pixel(CanvasWidth / 2, CanvasHeight / 2);
      innerColour := Colours.Colour(255, 255, 255);
      outerColour := Colours.Colour(0, 255, 255);
      roundedCoords := [];
      traceCoords := [];
      var cs := InitialCircles(defaultThetaMod);
      for k := 0 to |cs|
        invariant |cs| == 3
        invariant forall j :: 0 <= j < 3 ==> cs[j] == InitialCircles(defaultThetaMod)[j].(thetaMod :=
          if j < k && j % 2 != 0 then -defaultThetaMod else defaultThetaMod)
      {
        if k % 2 != 0 {
          cs := cs[k := cs[k].(thetaMod := cs[k].thetaMod * -1.0)];
        }
      }
      cs := cs[1 := cs[1].(thetaMod := cs[0].thetaMod * 2.7)];
      circles := cs;
      arm := defaultArm.(thetaMod := -1.0);
    }

    /** `calculate_img_canvas_size`: a square whose side is the rounded scaled chain width
        plus the border. */
    function ImgCanvasSize(): (size: (int, int))
      reads this`circles, this`arm
      requires |circles| >= 1
      ensures size.0 == size.1
      ensures var exact := ImgSideExact(circles[0].radius, arm.lengthMod, circles[|circles| - 1].radius);
        exact - 0.5 + ImageBorder as real <= size.0 as real <= exact + 0.5 + ImageBorder as real
    {
      var size := Round(ImgSideExact(circles[0].radius, arm.lengthMod, circles[|circles| - 1].radius));
      (size + ImageBorder, size + ImageBorder)
    }

    /** `calculate_pixel_gradient` given the normalised distance t of the point from the image
        centre (canvas.py applies no offset to it). */
    function PixelGradient(t: real): (c: Colours.Colour)
      reads this`innerColour, this`outerColour
      ensures innerColour == outerColour ==> c == outerColour
      ensures t == 0.0 ==> c == innerColour
      ensures t == 1.0 ==> c == outerColour
    {
      if outerColour == innerColour then outerColour
      else Colours.Blend(innerColour, outerColour, t)
    }

    /** `calculate_positions(i)`: drives the circles and the arm, then appends the rounded arm
        end to the tracer. */
    method CalculatePositions(i: real, place: Placement)
      requires Valid()
      modifies this
      ensures circles == Drive(old(circles), i) && arm == DriveArm(circles, old(arm))
      ensures traceCoords == old(traceCoords) + [TracePoint(old(circles), old(arm), i, place)]
      ensures roundedCoords == old(roundedCoords)
      ensures innerColour == old(innerColour) && outerColour == old(outerColour)
      ensures Valid()
    {
      var cs := circles;
      for k := 0 to |cs|
        invariant |cs| == |circles|
        invariant forall j :: 0 <= j < k ==> cs[j] == DriveCircle(circles, j, i)
        invariant forall j :: k <= j < |cs| ==> cs[j] == circles[j]
      {
        if cs[k].parent.Some? {
          cs := cs[k := cs[k].(theta := Chain.DrivenTheta(circles[cs[k].parent.value].radius, cs[k].radius, i))];
        }
      }
      assert cs == Drive(circles, i);
      circles := cs;
      arm := DriveArm(cs, arm);
      traceCoords := traceCoords + [Round4Point(place(cs, arm))];
    }

    /** `modify_coords_for_output`: the traced points mapped to image pixels, in order. */
    method ModifyCoordsForOutput() returns (r: seq<Pixel>)
      requires |circles| >= 1
      ensures r == OutputCoords(traceCoords, center, ImgCanvasSize().0 / 2)
    {
      var half := ImgCanvasSize().0 / 2;
      r := [];
      for k := 0 to |traceCoords|
        invariant r == OutputCoords(traceCoords[..k], center, half)
      {
        r := r + [OutputCoord(traceCoords[k], center, half)];
      }
      assert traceCoords[..|traceCoords|] == traceCoords;
    }

    /** `modify_single_coord_for_output`, which computes the same list. */
    method ModifySingleCoordForOutput() returns (r: seq<Pixel>)
      requires |circles| >= 1
      ensures r == OutputCoords(traceCoords, center, ImgCanvasSize().0 / 2)
    {
      r := ModifyCoordsForOutput();
    }

    /** The sampling loop of `create_img`: `calculate_positions(j)` for j = 0 .. n - 1. */
    method Sample(n: nat, place: Placement)
      requires Valid()
      modifies this
      ensures Valid() && Agree(circles, old(circles)) && ArmAgree(arm, old(arm))
      ensures traceCoords == old(traceCoords) + CanvasSweep(old(circles), old(arm), n, place)
      ensures roundedCoords == old(roundedCoords)
      ensures innerColour == old(innerColour) && outerColour == old(outerColour)
    {
      ghost var cs0, arm0, coords0 := circles, arm, traceCoords;
      for j := 0 to n
        invariant Valid() && Agree(circles, cs0) && ArmAgree(arm, arm0)
        invariant traceCoords == coords0 + CanvasSweep(cs0, arm0, j, place)
        invariant roundedCoords == old(roundedCoords)
        invariant innerColour == old(innerColour) && outerColour == old(outerColour)
      {
        SampleStep(circles, arm, cs0, arm0, traceCoords, coords0, j, place);
        CalculatePositions(j as real, place);
      }
    }

    /** `create_img`: samples j = 0 .. 360 * rotation_mod - 1, keeps the image pixels of
        everything traced so far in `rounded_coords`, then empties the tracer. Drawing and
        saving the image are not modelled. */
    method CreateImg(place: Placement)
      requires Valid()
      modifies this
      ensures Valid() && Agree(circles, old(circles)) && ArmAgree(arm, old(arm))
      ensures roundedCoords == OutputCoords(old(traceCoords) + CanvasSweep(old(circles), old(arm), 360 * RotationMod, place),
        center, ImgCanvasSize().0 / 2)
      ensures traceCoords == []
      ensures innerColour == old(innerColour) && outerColour == old(outerColour)
    {
      var iterations := 360 * RotationMod;
      Sample(iterations, place);
      roundedCoords := ModifyCoordsForOutput();
      traceCoords := [];
    }

    /** `create_many_images`: before image i the second circle's radius grows by i / 1440000
        and the arm's theta_mod takes one step; each image is then drawn. The second circle
        must have a positive radius, so that growing it keeps it a valid divisor. */
    method CreateManyImages(place: Placement)
      requires Valid() && |circles| >= 2 && circles[1].radius > 0.0
      modifies this
      ensures Valid() && |circles| == |old(circles)|
      ensures circles[1].radius == RadiusAfter(old(circles[1].radius), ImagesToCreate)
      ensures AgreeBut(circles, old(circles), 1)
      ensures arm.thetaMod == ThetaModAfter(old(arm.thetaMod), ImagesToCreate)
      ensures arm.lengthMod == old(arm.lengthMod)
      ensures innerColour == old(innerColour) && outerColour == old(outerColour)
      ensures traceCoords == []
    {
      for i := 0 to ImagesToCreate
        invariant Valid() && |circles| == |old(circles)| && |circles| >= 2
        invariant circles[1].radius == RadiusAfter(old(circles[1].radius), i)
        invariant circles[1].radius >= old(circles[1].radius)
        invariant AgreeBut(circles, old(circles), 1)
        invariant arm.thetaMod == ThetaModAfter(old(arm.thetaMod), i)
        invariant arm.lengthMod == old(arm.lengthMod)
        invariant innerColour == old(innerColour) && outerColour == old(outerColour)
        invariant i > 0 ==> traceCoords == []
      {
        circles := circles[1 := circles[1].(radius := circles[1].radius + i as real / 1440000.0)];
        if arm.thetaMod >= 1.5 {
          arm := arm.(thetaMod := arm.thetaMod - i as real / 14400.0);
        } else if arm.thetaMod <= 1.5 {
          arm := arm.(thetaMod := arm.thetaMod + i as real / 14400.0);
        }
        CreateImg(place);
      }
    }
  }

  /** With 8-bit colours and t in [0, 1] the canvas gradient stays 8-bit, and its
      equal-colours shortcut returns what the blend would. */
  lemma PixelGradientInRange(c: MainCanvas, t: real)
    requires Colours.InByteRange(c.innerColour) && Colours.InByteRange(c.outerColour) && 0.0 <= t <= 1.0
    ensures Colours.InByteRange(c.PixelGradient(t))
    ensures c.PixelGradient(t) == Colours.Blend(c.innerColour, c.outerColour, t)
  {
    Colours.BlendInRange(c.innerColour, c.outerColour, t);
    if c.innerColour == c.outerColour {
      Colours.BlendOfEqual(c.outerColour, t);
    }
  }
}
