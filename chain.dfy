/** The rolling-circle chain of main.py: each circle's angle and centre as
    `Roulette.calculate_positions` recomputes them, and the arm that carries the pen.
    The Python objects point at their parents; here the circles sit in a sequence and a
    circle names its parent by index (or names the roulette itself, for the outermost one). */
module Chain {
  import opened Numerics

  /** `circle.parent`: the roulette itself (the fixed outer ring) or another circle. */
  datatype Parent = RouletteRoot | CircleAt(index: nat)

  /** A `Circle` of main.py:152-172. */
  datatype Circle = Circle(radius: real, theta: real, thetaMod: real, parent: Parent, center: Point)

  /** An `Arm` of main.py:175-192; `parent` is the index of the circle it hangs from. */
  datatype Arm = Arm(parent: nat, lengthMod: real, theta: real, thetaMod: real, start: Point, end: Point)

  /** `(r * cos(radians(theta)), r * sin(radians(theta)))`; trigonometry is left to the caller. */
  type Trig = (real, real) -> Point

  /** `polar_to_cartesian_with_offset`: a polar offset added to a centre. */
  function PolarWithOffset(trig: Trig, r: real, theta: real, offset: Point): Point
  {
    Point(trig(r, theta).x + offset.x, trig(r, theta).y + offset.y)
  }

  /** The angle a circle rolling inside a parent of radius parentRadius has turned through
      when the drive angle is i: `parent.radius / circle.radius * i`. */
  function DrivenTheta(parentRadius: real, radius: real, i: real): (theta: real)
    requires radius != 0.0
    ensures theta * radius == parentRadius * i
  {
    parentRadius / radius * i
  }

  /** The arm's angle: `-parent.theta * (grandparent.radius / parent.radius)`. */
  function ArmTheta(parentTheta: real, grandparentRadius: real, parentRadius: real): (theta: real)
    requires parentRadius != 0.0
    ensures theta * parentRadius == -parentTheta * grandparentRadius
  {
    -parentTheta * (grandparentRadius / parentRadius)
  }

  /** Every parent index names a circle, and every division the positioning code performs
      has a non-zero divisor: the circle's own radius (for its theta) and its parent's
      radius (for its placement angle). */
  predicate WellFormed(cs: seq<Circle>)
  {
    forall k :: 0 <= k < |cs| && cs[k].parent.CircleAt? ==>
      cs[k].parent.index < |cs| && cs[k].radius != 0.0 && cs[cs[k].parent.index].radius != 0.0
  }

  /** Each circle's parent comes before it, as `define_roulette` builds the chain. */
  predicate Ordered(cs: seq<Circle>)
  {
    forall k :: 0 <= k < |cs| && cs[k].parent.CircleAt? ==> cs[k].parent.index < k
  }

  /** The arm hangs from a circle that itself has a circle as parent (otherwise
      `arm.parent.parent.radius` does not exist), and that circle's radius is non-zero. */
  predicate ArmResolvable(cs: seq<Circle>, arm: Arm)
  {
    arm.parent < |cs| && cs[arm.parent].parent.CircleAt? && cs[arm.parent].parent.index < |cs|
    && cs[arm.parent].radius != 0.0
  }

  /** Two arenas with the same fixed data: radii, theta modifiers and parents, and the same
      theta for the outermost circles (which `calculate_positions` never rewrites). */
  predicate Agree(a: seq<Circle>, b: seq<Circle>)
  {
    |a| == |b| &&
    forall k :: 0 <= k < |a| ==>
      a[k].radius == b[k].radius && a[k].thetaMod == b[k].thetaMod && a[k].parent == b[k].parent
      && (a[k].parent.RouletteRoot? ==> a[k].theta == b[k].theta)
  }

  /** An arm that can be placed against one arena can be placed, on the same circle,
      against any arena that agrees with it. */
  lemma AgreeArmResolvable(a: seq<Circle>, b: seq<Circle>, arm: Arm, other: Arm)
    requires ArmResolvable(a, arm) && Agree(a, b) && other.parent == arm.parent
    ensures ArmResolvable(b, other)
  {
    assert a[arm.parent].parent == b[arm.parent].parent;
  }

  /** Two arms with the same fixed data: circle, length and theta modifiers. */
  predicate ArmAgree(a: Arm, b: Arm)
  {
    a.parent == b.parent && a.lengthMod == b.lengthMod && a.thetaMod == b.thetaMod
  }

  /** The angle `Circle.calculate_position` hands to the trigonometry for a circle with a
      parent: `(radius / parent.radius) * theta * theta_mod`. */
  function PlacementAngle(c: Circle, parentRadius: real): (angle: real)
    requires parentRadius != 0.0
    ensures angle * parentRadius == c.radius * c.theta * c.thetaMod
  {
    (c.radius / parentRadius) * c.theta * c.thetaMod
  }

  /** One iteration of the loop of `calculate_positions` (main.py:78-80) for circle k, read
      against the arena as the earlier iterations left it: the outermost circle keeps its
      theta and sits at the roulette's centre; any other circle gets its driven theta and sits
      `parent.radius - radius` from its parent's current centre. */
  function PlaceCircle(cs: seq<Circle>, k: nat, i: real, origin: Point, trig: Trig): (c: Circle)
    requires WellFormed(cs) && k < |cs|
    ensures c.radius == cs[k].radius && c.thetaMod == cs[k].thetaMod && c.parent == cs[k].parent
    ensures c.parent.RouletteRoot? ==> c.theta == cs[k].theta && c.center == origin
  {
    var c := cs[k];
    match c.parent
    case RouletteRoot => c.(center := origin)
    case CircleAt(p) =>
      var placed := c.(theta := DrivenTheta(cs[p].radius, c.radius, i));
      placed.(center := PolarWithOffset(trig, cs[p].radius - c.radius,
                                         PlacementAngle(placed, cs[p].radius), cs[p].center))
  }

  /** The arena after the first n iterations of the loop of `calculate_positions`. */
  function ResolvePrefix(cs: seq<Circle>, n: nat, i: real, origin: Point, trig: Trig): (r: seq<Circle>)
    requires WellFormed(cs) && n <= |cs|
    ensures Agree(r, cs) && WellFormed(r)
    ensures forall k :: n <= k < |cs| ==> r[k] == cs[k]
    decreases n
  {
    if n == 0 then cs
    else
      var prev := ResolvePrefix(cs, n - 1, i, origin, trig);
      prev[n - 1 := PlaceCircle(prev, n - 1, i, origin, trig)]
  }

  /** The arena after the whole loop of `calculate_positions`. */
  function Resolve(cs: seq<Circle>, i: real, origin: Point, trig: Trig): (r: seq<Circle>)
    requires WellFormed(cs)
    ensures Agree(r, cs) && WellFormed(r)
  {
    ResolvePrefix(cs, |cs|, i, origin, trig)
  }

  /** The angle `Arm.calculate_position` hands to the trigonometry: `theta * theta_mod`. */
  function ArmAngle(theta: real, thetaMod: real): real
  {
    theta * thetaMod
  }

  /** The arm's length: `parent.radius * length_mod`. */
  function ArmReach(parentRadius: real, lengthMod: real): real
  {
    parentRadius * lengthMod
  }

  /** The loop of `calculate_positions` over the circles, in list order, each placed against
      the arena as the earlier iterations left it. */
  method PlaceCircles(cs: seq<Circle>, i: real, origin: Point, trig: Trig) returns (r: seq<Circle>)
    requires WellFormed(cs)
    ensures r == Resolve(cs, i, origin, trig)
  {
    r := cs;
    for k := 0 to |cs|
      invariant r == ResolvePrefix(cs, k, i, origin, trig)
    {
      r := r[k := PlaceCircle(r, k, i, origin, trig)];
    }
  }

  /** main.py:81-82: the arm's new theta from its circle and that circle's parent, then
      `Arm.calculate_position` (main.py:184-192): it starts at its circle's centre and ends
      `parent.radius * length_mod` away at angle `theta * theta_mod`. */
  function PlaceArm(cs: seq<Circle>, arm: Arm, trig: Trig): (a: Arm)
    requires ArmResolvable(cs, arm)
    ensures a.parent == arm.parent && a.lengthMod == arm.lengthMod && a.thetaMod == arm.thetaMod
    ensures a.start == cs[arm.parent].center
  {
    var p := cs[arm.parent];
    var placed := arm.(theta := ArmTheta(p.theta, cs[p.parent.index].radius, p.radius));
    placed.(start := p.center,
            end := PolarWithOffset(trig, ArmReach(p.radius, placed.lengthMod),
                                   ArmAngle(placed.theta, placed.thetaMod), p.center))
  }

  /** The point one `calculate_positions(i)` call appends to `tracer.coords`: the arm's end
      after the whole chain is placed, each coordinate rounded to four decimals. */
  function TracePoint(cs: seq<Circle>, arm: Arm, i: real, origin: Point, trig: Trig): (p: Point)
    requires WellFormed(cs) && ArmResolvable(cs, arm)
    ensures var e := PlaceArm(Resolve(cs, i, origin, trig), arm, trig).end;
      e.x - 0.00005 <= p.x <= e.x + 0.00005 && e.y - 0.00005 <= p.y <= e.y + 0.00005
  {
    Round4Point(PlaceArm(Resolve(cs, i, origin, trig), arm, trig).end)
  }

  /** Once placed, every circle with a parent has turned through parent.radius / radius * i,
      and so the angle it is placed at is i * theta_mod: the radius ratios cancel. */
  lemma ResolvedAngle(cs: seq<Circle>, k: nat, i: real, origin: Point, trig: Trig)
    requires WellFormed(cs) && k < |cs| && cs[k].parent.CircleAt?
    ensures Resolve(cs, i, origin, trig)[k].theta * cs[k].radius == cs[cs[k].parent.index].radius * i
    ensures PlacementAngle(Resolve(cs, i, origin, trig)[k], cs[cs[k].parent.index].radius)
         == i * cs[k].thetaMod
  {
    var p := cs[k].parent.index;
    var r := Resolve(cs, i, origin, trig);
    assert r[k] == cs[k].(theta := DrivenTheta(cs[p].radius, cs[k].radius, i), center := r[k].center) by {
      Settled(cs, |cs|, k, i, origin, trig);
      var prev := ResolvePrefix(cs, k, i, origin, trig);
      assert prev[k] == cs[k] && prev[p].radius == cs[p].radius;
    }
    PlacementCancels(r[k], cs[p].radius, i);
  }

  /** (r / R) * (R / r * i) * m == i * m for non-zero radii r and R. */
  lemma PlacementCancels(c: Circle, parentRadius: real, i: real)
    requires c.radius != 0.0 && parentRadius != 0.0
    requires c.theta == DrivenTheta(parentRadius, c.radius, i)
    ensures c.theta * c.radius == parentRadius * i
    ensures PlacementAngle(c, parentRadius) == i * c.thetaMod
  {
    var r, bigR, m := c.radius, parentRadius, c.thetaMod;
    assert (r / bigR) * (bigR / r) == 1.0;
    assert (r / bigR) * (bigR / r * i) * m == i * m;
  }

  /** The outermost circles keep their theta and sit at the roulette's centre. */
  lemma ResolvedRoot(cs: seq<Circle>, k: nat, i: real, origin: Point, trig: Trig)
    requires WellFormed(cs) && k < |cs| && cs[k].parent.RouletteRoot?
    ensures Resolve(cs, i, origin, trig)[k] == cs[k].(center := origin)
  {
    Settled(cs, |cs|, k, i, origin, trig);
  }

  /** In an ordered chain each circle is placed around its parent's new centre, the one the
      same call computed (the chain is placed outermost-first): every circle of the result is
      what one iteration makes of it when read against the result itself. */
  lemma OrderedUsesNewCentre(cs: seq<Circle>, k: nat, i: real, origin: Point, trig: Trig)
    requires WellFormed(cs) && Ordered(cs) && k < |cs|
    ensures Resolve(cs, i, origin, trig)[k]
         == PlaceCircle(Resolve(cs, i, origin, trig), k, i, origin, trig)
  {
    var r, prev := Resolve(cs, i, origin, trig), ResolvePrefix(cs, k, i, origin, trig);
    Settled(cs, |cs|, k, i, origin, trig);
    if cs[k].parent.CircleAt? {
      var p := cs[k].parent.index;
      Settled(cs, |cs|, p, i, origin, trig);
      Settled(cs, k, p, i, origin, trig);
    }
    assert Agree(prev, r) by {
      assert Agree(prev, cs) && Agree(r, cs);
    }
    PlaceCircleAgree(prev, r, k, i, origin, trig);
  }

  /** Iteration k of the loop writes circle k and no other, so after n > k iterations
      circle k is what iteration k made of it. */
  lemma {:induction false} Settled(cs: seq<Circle>, n: nat, k: nat, i: real, origin: Point, trig: Trig)
    requires WellFormed(cs) && k < n <= |cs|
    ensures ResolvePrefix(cs, n, i, origin, trig)[k]
         == PlaceCircle(ResolvePrefix(cs, k, i, origin, trig), k, i, origin, trig)
    decreases n
  {
    if k < n - 1 {
      Settled(cs, n - 1, k, i, origin, trig);
    }
  }

  /** Iteration k makes the same circle of two arenas that agree on their fixed data and
      hold the same circle at k's parent. */
  lemma PlaceCircleAgree(a: seq<Circle>, b: seq<Circle>, k: nat, i: real, origin: Point, trig: Trig)
    requires WellFormed(a) && WellFormed(b) && Agree(a, b) && k < |a|
    requires a[k].parent.CircleAt? ==> a[a[k].parent.index] == b[a[k].parent.index]
    ensures PlaceCircle(a, k, i, origin, trig) == PlaceCircle(b, k, i, origin, trig)
  {
    match a[k].parent
    case RouletteRoot =>
      assert a[k].radius == b[k].radius && a[k].thetaMod == b[k].thetaMod;
      assert a[k].parent == b[k].parent && a[k].theta == b[k].theta;
      assert a[k].(center := origin) == b[k].(center := origin);
    case CircleAt(p) =>
      var ta := a[k].(theta := DrivenTheta(a[p].radius, a[k].radius, i));
      var tb := b[k].(theta := DrivenTheta(b[p].radius, b[k].radius, i));
      assert ta.theta == tb.theta;
      assert PlacementAngle(ta, a[p].radius) == PlacementAngle(tb, b[p].radius);
      var centre := PolarWithOffset(trig, a[p].radius - a[k].radius, PlacementAngle(ta, a[p].radius), a[p].center);
      assert ta.(center := centre) == tb.(center := centre);
  }

  /** Agreeing arenas are both well formed or both not. */
  lemma AgreeWellFormed(a: seq<Circle>, b: seq<Circle>)
    requires WellFormed(a) && Agree(a, b)
    ensures WellFormed(b)
  {
    forall k | 0 <= k < |b| && b[k].parent.CircleAt?
      ensures b[k].parent.index < |b| && b[k].radius != 0.0 && b[b[k].parent.index].radius != 0.0
    {
      assert a[k].parent == b[k].parent;
    }
  }

  /** The placement of an ordered chain depends on its fixed data and i alone: whatever
      thetas and centres the previous call left behind are overwritten before they are read.
      The first n iterations already give the same circles. */
  lemma {:induction false} PrefixIgnoresState(a: seq<Circle>, b: seq<Circle>, n: nat, i: real, origin: Point, trig: Trig)
    requires WellFormed(a) && WellFormed(b) && Ordered(a) && Agree(a, b) && n <= |a|
    ensures forall k :: 0 <= k < n ==>
      ResolvePrefix(a, n, i, origin, trig)[k] == ResolvePrefix(b, n, i, origin, trig)[k]
    decreases n
  {
    if n > 0 {
      PrefixIgnoresState(a, b, n - 1, i, origin, trig);
      var pa, pb := ResolvePrefix(a, n - 1, i, origin, trig), ResolvePrefix(b, n - 1, i, origin, trig);
      var k := n - 1;
      assert Agree(pa, pb) by {
        assert Agree(pa, a) && Agree(pb, b);
      }
      if a[k].parent.CircleAt? {
        assert a[k].parent.index < k;
      }
      PlaceCircleAgree(pa, pb, k, i, origin, trig);
    }
  }

  /** `calculate_positions` on an ordered chain is a function of the chain's fixed data and
      i: two arenas that agree on it are placed identically. */
  lemma ResolveIgnoresState(a: seq<Circle>, b: seq<Circle>, i: real, origin: Point, trig: Trig)
    requires WellFormed(a) && Ordered(a) && Agree(a, b)
    ensures WellFormed(b)
    ensures Resolve(a, i, origin, trig) == Resolve(b, i, origin, trig)
  {
    AgreeWellFormed(a, b);
    PrefixIgnoresState(a, b, |a|, i, origin, trig);
  }

  /** The arm turns against its circle: its theta is -(R / r)^2 * i, where r is its
      circle's radius and R that circle's parent's radius. */
  lemma ArmCounterRotation(cs: seq<Circle>, arm: Arm, i: real, origin: Point, trig: Trig)
    requires WellFormed(cs) && ArmResolvable(cs, arm)
    ensures var gr, pr := cs[cs[arm.parent].parent.index].radius, cs[arm.parent].radius;
      PlaceArm(Resolve(cs, i, origin, trig), arm, trig).theta == -(gr / pr) * (gr / pr) * i
  {
    var r := Resolve(cs, i, origin, trig);
    ResolvedAngle(cs, arm.parent, i, origin, trig);
    var gr, pr := cs[cs[arm.parent].parent.index].radius, cs[arm.parent].radius;
    assert r[arm.parent].theta == gr / pr * i by {
      assert r[arm.parent].theta * pr == gr * i;
    }
  }

  /** Placing the arm overwrites its theta and both ends: only its fixed data matters. */
  lemma PlaceArmIgnoresState(cs: seq<Circle>, a: Arm, b: Arm, trig: Trig)
    requires ArmResolvable(cs, a) && ArmAgree(a, b)
    ensures ArmResolvable(cs, b)
    ensures PlaceArm(cs, a, trig) == PlaceArm(cs, b, trig)
  {
  }

  /** p moved by (dx, dy). */
  function Moved(p: Point, dx: real, dy: real): Point
  {
    Point(p.x + dx, p.y + dy)
  }

  /** Moving the offset of `polar_to_cartesian_with_offset` moves its result by as much. */
  lemma PolarWithOffsetTranslates(trig: Trig, r: real, theta: real, offset: Point, dx: real, dy: real)
    ensures PolarWithOffset(trig, r, theta, Moved(offset, dx, dy))
         == Moved(PolarWithOffset(trig, r, theta, offset), dx, dy)
  {
  }

  /** One iteration against a moved roulette centre, where circle k's parent has already been
      moved, makes the same circle moved by as much. */
  lemma PlaceCircleTranslates(a: seq<Circle>, b: seq<Circle>, k: nat, i: real, origin: Point, dx: real, dy: real, trig: Trig)
    requires WellFormed(a) && WellFormed(b) && k < |a| == |b| && b[k] == a[k]
    requires a[k].parent.CircleAt? ==>
      b[a[k].parent.index] == a[a[k].parent.index].(center := Moved(a[a[k].parent.index].center, dx, dy))
    ensures var c := PlaceCircle(a, k, i, origin, trig);
      PlaceCircle(b, k, i, Moved(origin, dx, dy), trig) == c.(center := Moved(c.center, dx, dy))
  {
    match a[k].parent
    case RouletteRoot =>
    case CircleAt(p) =>
      var placed := a[k].(theta := DrivenTheta(a[p].radius, a[k].radius, i));
      PolarWithOffsetTranslates(trig, a[p].radius - a[k].radius, PlacementAngle(placed, a[p].radius),
                                a[p].center, dx, dy);
  }

  /** The first n iterations against a roulette centre moved by (dx, dy) give the same circles,
      each with its centre moved by (dx, dy). */
  lemma {:induction false} PrefixTranslates(cs: seq<Circle>, n: nat, i: real, origin: Point, dx: real, dy: real, trig: Trig)
    requires WellFormed(cs) && Ordered(cs) && n <= |cs|
    ensures forall k :: 0 <= k < n ==>
      var c := ResolvePrefix(cs, n, i, origin, trig)[k];
      ResolvePrefix(cs, n, i, Moved(origin, dx, dy), trig)[k] == c.(center := Moved(c.center, dx, dy))
    decreases n
  {
    if n > 0 {
      PrefixTranslates(cs, n - 1, i, origin, dx, dy, trig);
      var k := n - 1;
      var pa, pb := ResolvePrefix(cs, k, i, origin, trig), ResolvePrefix(cs, k, i, Moved(origin, dx, dy), trig);
      assert pa[k] == cs[k] && pb[k] == cs[k];
      PlaceCircleTranslates(pa, pb, k, i, origin, dx, dy, trig);
      var ra, rb := ResolvePrefix(cs, n, i, origin, trig), ResolvePrefix(cs, n, i, Moved(origin, dx, dy), trig);
      forall j | 0 <= j < n
        ensures rb[j] == ra[j].(center := Moved(ra[j].center, dx, dy))
      {
        if j < k { assert ra[j] == pa[j] && rb[j] == pb[j]; }
      }
    }
  }

  /** Moving the roulette's centre by (dx, dy) moves every circle of an ordered chain, and both
      ends of the arm, by (dx, dy) and changes nothing else: the drawing is laid out relative to
      that centre. */
  lemma ChainTranslates(cs: seq<Circle>, arm: Arm, i: real, origin: Point, dx: real, dy: real, trig: Trig)
    requires WellFormed(cs) && Ordered(cs) && ArmResolvable(cs, arm)
    ensures var r, s := Resolve(cs, i, origin, trig), Resolve(cs, i, Moved(origin, dx, dy), trig);
      |s| == |r| && forall k :: 0 <= k < |r| ==> s[k] == r[k].(center := Moved(r[k].center, dx, dy))
    ensures var a := PlaceArm(Resolve(cs, i, origin, trig), arm, trig);
      PlaceArm(Resolve(cs, i, Moved(origin, dx, dy), trig), arm, trig)
        == a.(start := Moved(a.start, dx, dy), end := Moved(a.end, dx, dy))
  {
    PrefixTranslates(cs, |cs|, i, origin, dx, dy, trig);
    var r, s := Resolve(cs, i, origin, trig), Resolve(cs, i, Moved(origin, dx, dy), trig);
    var p := r[arm.parent];
    assert s[arm.parent] == p.(center := Moved(p.center, dx, dy));
    assert s[p.parent.index].radius == r[p.parent.index].radius;
    var theta := ArmTheta(p.theta, r[p.parent.index].radius, p.radius);
    PolarWithOffsetTranslates(trig, ArmReach(p.radius, arm.lengthMod), ArmAngle(theta, arm.thetaMod), p.center, dx, dy);
  }
}
