/** Colour state of the renderer: the five-band colour-cycling state machine of
    `Roulette.cycle_gradient_colours` and the per-channel gradient blend used by both
    `calculate_pixel_gradient` variants. */
module Colours {
  import opened Numerics

  /** An RGB colour as the source keeps it: a list of three ints, indices 0, 1 and 2 being
      red, green and blue, never clamped. */
  datatype Colour = Colour(red: int, green: int, blue: int)

  /** `colour_increment`: the width of one band, in frames. */
  const ColourIncrement := 255
  /** `colour_change_freq`: the amount added to or taken from a channel per call. */
  const ColourChangeFreq := 1
  /** Past this frame no band test holds and the `while True` loops never exit. */
  const LastBandedFrame := 5 * ColourIncrement

  /** The two colours the state machine drives; each has its own table of deltas. */
  datatype Ring = Inner | Outer

  /** The range test written for band b: [255*b, 255*(b+1)] for b >= 1, and [0, 256] for band 0. */
  predicate InBand(i: int, b: nat)
  {
    if b == 0 then 0 <= i <= ColourIncrement + 1
    else ColourIncrement * b <= i <= ColourIncrement * (b + 1)
  }

  /** The band whose `break` the body of the `while True` loop reaches for frame i, the tests
      taken top-down (band 4 first); None where no test holds, so that the loop spins forever. */
  function SelectBand(i: int): (b: Option<nat>)
    ensures b.Some? <==> 0 <= i <= LastBandedFrame
    ensures b.Some? ==> b.value <= 4 && InBand(i, b.value)
    ensures b.Some? ==> forall h: nat :: b.value < h <= 4 ==> !InBand(i, h)
    ensures b.Some? ==> b.value == if i == LastBandedFrame then 4 else i / ColourIncrement
    ensures b == Some(0) <==> 0 <= i < ColourIncrement
  {
    if ColourIncrement * 4 <= i <= ColourIncrement * 5 then Some(4)
    else if ColourIncrement * 3 <= i <= ColourIncrement * 4 then Some(3)
    else if ColourIncrement * 2 <= i <= ColourIncrement * 3 then Some(2)
    else if ColourIncrement <= i <= ColourIncrement * 2 then Some(1)
    else if 0 <= i <= ColourIncrement + 1 then Some(0)
    else None
  }

  /** Each channel of b is within f of the same channel of a. */
  predicate WithinStep(a: Colour, b: Colour, f: int)
  {
    a.red - f <= b.red <= a.red + f && a.green - f <= b.green <= a.green + f
    && a.blue - f <= b.blue <= a.blue + f
  }

  /** What band `band` adds to each channel of the inner or the outer colour. */
  function Delta(ring: Ring, band: nat): (d: Colour)
    requires band <= 4
    ensures WithinStep(Colour(0, 0, 0), d, ColourChangeFreq)
    ensures d != Colour(0, 0, 0)
  {
    var f := ColourChangeFreq;
    match ring
    case Inner =>
      if band == 4 then Colour(-f, f, f)
      else if band == 3 then Colour(f, -f, 0)
      else if band == 2 then Colour(-f, f, -f)
      else if band == 1 then Colour(f, 0, 0)
      else Colour(0, -f, 0)
    case Outer =>
      if band == 4 then Colour(f, -f, 0)
      else if band == 3 then Colour(-f, f, -f)
      else if band == 2 then Colour(f, 0, 0)
      else if band == 1 then Colour(0, -f, 0)
      else Colour(-f, f, f)
  }

  /** c + k * d, channel by channel. */
  function AddScaled(c: Colour, k: int, d: Colour): Colour
  {
    Colour(c.red + k * d.red, c.green + k * d.green, c.blue + k * d.blue)
  }

  /** The colour after one call at frame i: the selected band's delta added, nothing clamped. */
  function Cycle(ring: Ring, c: Colour, i: int): (r: Colour)
    requires 0 <= i <= LastBandedFrame
    ensures WithinStep(c, r, ColourChangeFreq)
  {
    AddScaled(c, 1, Delta(ring, SelectBand(i).value))
  }

  /** Every call changes the colour: each band's deltas touch at least one channel. */
  lemma CycleChangesColour(ring: Ring, c: Colour, i: int)
    requires 0 <= i <= LastBandedFrame
    ensures Cycle(ring, c, i) != c
  {
    var d := Delta(ring, SelectBand(i).value);
    var r := Cycle(ring, c, i);
    assert r.red - c.red == d.red && r.green - c.green == d.green && r.blue - c.blue == d.blue;
  }

  /** The colour after the calls at frames first+1, ..., last, starting from c. */
  function ColourBetween(ring: Ring, c: Colour, first: int, last: int): Colour
    requires 0 <= first && last <= LastBandedFrame
    decreases last - first
  {
    if last <= first then c else Cycle(ring, ColourBetween(ring, c, first, last - 1), last)
  }

  /** Over the calls at frames first+1, ..., last each channel moves by at most one per call,
      and with no call the colour is unchanged. */
  lemma {:induction false} ColourBetweenWithinStep(ring: Ring, c: Colour, first: int, last: int)
    requires 0 <= first && last <= LastBandedFrame
    ensures last <= first ==> ColourBetween(ring, c, first, last) == c
    ensures first <= last ==> WithinStep(c, ColourBetween(ring, c, first, last), (last - first) * ColourChangeFreq)
    decreases last - first
  {
    if first < last {
      ColourBetweenWithinStep(ring, c, first, last - 1);
    }
  }

  /** Adding k-1 deltas and then one more is adding k deltas. */
  lemma AddScaledStep(c: Colour, k: int, d: Colour)
    ensures AddScaled(AddScaled(c, k - 1, d), 1, d) == AddScaled(c, k, d)
  {
    assert (k - 1) * d.red + d.red == k * d.red;
    assert (k - 1) * d.green + d.green == k * d.green;
    assert (k - 1) * d.blue + d.blue == k * d.blue;
  }

  /** While the frames m+1 .. m+k all fall in one band, each call adds that band's delta
      once: the colour moves linearly, by k deltas. */
  lemma {:induction false} SteadyBand(ring: Ring, c: Colour, first: int, m: int, k: nat, band: nat)
    requires 0 <= first <= m && m + k <= LastBandedFrame && band <= 4
    requires forall f :: m < f <= m + k ==> SelectBand(f) == Some(band)
    ensures ColourBetween(ring, c, first, m + k)
         == AddScaled(ColourBetween(ring, c, first, m), k, Delta(ring, band))
  {
    var before := ColourBetween(ring, c, first, m);
    var d := Delta(ring, band);
    if k == 0 {
      assert AddScaled(before, 0, d) == before;
    } else {
      SteadyBand(ring, c, first, m, k - 1, band);
      assert SelectBand(m + k) == Some(band);
      calc {
        ColourBetween(ring, c, first, m + k);
        Cycle(ring, ColourBetween(ring, c, first, m + k - 1), m + k);
        AddScaled(AddScaled(before, k - 1, d), 1, d);
        { AddScaledStep(before, k, d); }
        AddScaled(before, k, d);
      }
    }
  }

  /** The colours a Roulette starts from. */
  const InitialInner := Colour(0, 255, 255)
  const InitialOuter := Colour(255, 0, 0)

  /** Frames 1 .. 764 cover band 0 (254 frames), then band 1 and band 2 (255 frames each). */
  lemma InnerRuns(c: Colour)
    ensures ColourBetween(Inner, c, 0, 764)
         == AddScaled(AddScaled(AddScaled(c, 254, Delta(Inner, 0)), 255, Delta(Inner, 1)), 255, Delta(Inner, 2))
  {
    var x1 := ColourBetween(Inner, c, 0, 254);
    var x2 := ColourBetween(Inner, c, 0, 509);
    assert x1 == AddScaled(c, 254, Delta(Inner, 0)) by { SteadyBand(Inner, c, 0, 0, 254, 0); }
    assert x2 == AddScaled(x1, 255, Delta(Inner, 1)) by { SteadyBand(Inner, c, 0, 254, 255, 1); }
    assert ColourBetween(Inner, c, 0, 764) == AddScaled(x2, 255, Delta(Inner, 2)) by {
      SteadyBand(Inner, c, 0, 509, 255, 2);
    }
  }

  lemma InnerRunsSum(c: Colour)
    ensures AddScaled(AddScaled(AddScaled(c, 254, Delta(Inner, 0)), 255, Delta(Inner, 1)), 255, Delta(Inner, 2))
         == Colour(c.red, c.green + 1, c.blue - 255)
  {
  }

  /** Over the calls main() makes at frames 1 .. 764 the inner colour gains one unit of
      green and loses 255 of blue, whatever it starts from; from the initial inner colour
      [0, 255, 255] green reaches 256, past the 8-bit range. */
  lemma InnerGreenOverflows(c: Colour)
    ensures ColourBetween(Inner, c, 0, 764) == Colour(c.red, c.green + 1, c.blue - 255)
    ensures c.green == InitialInner.green ==> ColourBetween(Inner, c, 0, 764).green == 256
  {
    InnerRuns(c);
    InnerRunsSum(c);
  }

  /** Frames 1 .. 509 cover band 0 (254 frames), then band 1 (255 frames). */
  lemma OuterRuns(c: Colour)
    ensures ColourBetween(Outer, c, 0, 509)
         == AddScaled(AddScaled(c, 254, Delta(Outer, 0)), 255, Delta(Outer, 1))
  {
    var x1 := ColourBetween(Outer, c, 0, 254);
    assert x1 == AddScaled(c, 254, Delta(Outer, 0)) by { SteadyBand(Outer, c, 0, 0, 254, 0); }
    assert ColourBetween(Outer, c, 0, 509) == AddScaled(x1, 255, Delta(Outer, 1)) by {
      SteadyBand(Outer, c, 0, 254, 255, 1);
    }
  }

  lemma OuterRunsSum(c: Colour)
    ensures AddScaled(AddScaled(c, 254, Delta(Outer, 0)), 255, Delta(Outer, 1))
         == Colour(c.red - 254, c.green - 1, c.blue + 254)
  {
  }

  /** Over the calls at frames 1 .. 509 the outer colour loses 254 units of red and 1 of
      green and gains 254 of blue; from the initial outer colour [255, 0, 0] green reaches
      -1: channels are not clamped at 0 either. */
  lemma OuterGreenGoesNegative(c: Colour)
    ensures ColourBetween(Outer, c, 0, 509) == Colour(c.red - 254, c.green - 1, c.blue + 254)
    ensures c.green == InitialOuter.green ==> ColourBetween(Outer, c, 0, 509).green == -1
  {
    OuterRuns(c);
    OuterRunsSum(c);
  }

  /** One channel of the gradient: `round(outer * t + inner * (1 - t))`. */
  function BlendChannel(inner: int, outer: int, t: real): (v: int)
    ensures outer as real * t + inner as real * (1.0 - t) - 0.5 <= v as real
         <= outer as real * t + inner as real * (1.0 - t) + 0.5
    ensures t == 0.0 ==> v == inner
    ensures t == 1.0 ==> v == outer
  {
    var x := outer as real * t + inner as real * (1.0 - t);
    assert t == 0.0 ==> x == inner as real;
    assert t == 1.0 ==> x == outer as real;
    RoundOfInteger(inner);
    RoundOfInteger(outer);
    Round(x)
  }

  /** The per-channel blend of `calculate_pixel_gradient` for a normalised distance t
      (t = 0 at the inner colour, t = 1 at the outer colour); each channel is the rounded
      weighted sum, within one half of it. */
  function Blend(inner: Colour, outer: Colour, t: real): (r: Colour)
    ensures t == 0.0 ==> r == inner
    ensures t == 1.0 ==> r == outer
  {
    Colour(BlendChannel(inner.red, outer.red, t), BlendChannel(inner.green, outer.green, t),
      BlendChannel(inner.blue, outer.blue, t))
  }

  /** Blending a colour with itself gives that colour back at every distance, so the
      equal-colours shortcut of `calculate_pixel_gradient` returns what the blend would. */
  lemma BlendOfEqual(c: Colour, t: real)
    ensures Blend(c, c, t) == c
  {
    SelfBlend(c.red, t);
    SelfBlend(c.green, t);
    SelfBlend(c.blue, t);
  }

  /** One channel blended with itself. */
  lemma SelfBlend(v: int, t: real)
    ensures BlendChannel(v, v, t) == v
  {
    var x := v as real;
    assert x * t + x * (1.0 - t) == x;
    RoundOfInteger(v);
  }

  /** A colour whose channels are all in the 8-bit range. */
  predicate InByteRange(c: Colour)
  {
    0 <= c.red <= 255 && 0 <= c.green <= 255 && 0 <= c.blue <= 255
  }

  /** 0 <= a * b <= 255 * b for a channel value a in [0, 255] and a weight b >= 0. */
  lemma ProductBounds(a: real, b: real)
    requires 0.0 <= a <= 255.0 && 0.0 <= b
    ensures 0.0 <= a * b <= 255.0 * b
  {
    assert (255.0 - a) * b >= 0.0;
  }

  /** The weighted sum of two values in [0, 255] at t in [0, 1] lies in [0, 255]. */
  lemma WeightedSumInRange(inner: real, outer: real, t: real)
    requires 0.0 <= inner <= 255.0 && 0.0 <= outer <= 255.0 && 0.0 <= t <= 1.0
    ensures 0.0 <= outer * t + inner * (1.0 - t) <= 255.0
  {
    var s := 1.0 - t;
    var p, q := outer * t, inner * s;
    ProductBounds(outer, t);
    ProductBounds(inner, s);
    assert 0.0 <= p <= 255.0 * t;
    assert 0.0 <= q <= 255.0 * s;
    assert p + q <= 255.0;
  }

  /** One channel blended from two 8-bit values at t in [0, 1] is an 8-bit value. */
  lemma BlendChannelInRange(inner: int, outer: int, t: real)
    requires 0 <= inner <= 255 && 0 <= outer <= 255 && 0.0 <= t <= 1.0
    ensures 0 <= BlendChannel(inner, outer, t) <= 255
  {
    WeightedSumInRange(inner as real, outer as real, t);
  }

  /** Blending two 8-bit colours at a distance t in [0, 1] stays in the 8-bit range. */
  lemma BlendInRange(inner: Colour, outer: Colour, t: real)
    requires InByteRange(inner) && InByteRange(outer) && 0.0 <= t <= 1.0
    ensures InByteRange(Blend(inner, outer, t))
  {
    BlendChannelInRange(inner.red, outer.red, t);
    BlendChannelInRange(inner.green, outer.green, t);
    BlendChannelInRange(inner.blue, outer.blue, t);
  }
}
