/** Numeric conventions of the Python source: round() with ties to even, round(x, 4),
    and the value types for points in world space and in pixel space. */
module Numerics {

  datatype Option<T> = None | Some(value: T)

  /** A point in world space (a pair of Python floats, modelled as reals). */
  datatype Point = Point(x: real, y: real)

  /** A point in pixel space (a pair of Python ints). */
  datatype Pixel = Pixel(x: int, y: int)

  /** Python 3 `round(x)`: the nearest integer, a tie going to the even neighbour. */
  function Round(x: real): (n: int)
    ensures x - 0.5 <= n as real <= x + 0.5
    ensures (n as real == x - 0.5 || n as real == x + 0.5) ==> n % 2 == 0
  {
    var f := x.Floor;
    var frac := x - f as real;
    if frac < 0.5 then f
    else if frac > 0.5 then f + 1
    else if f % 2 == 0 then f else f + 1
  }

  /** An integer is its own rounding. */
  lemma RoundOfInteger(k: int)
    ensures Round(k as real) == k
  {
    assert (k as real).Floor == k;
  }

  /** Rounding is determined by its two defining properties: whatever integer lies within
      one half of x, and is even on a tie, is Round(x). */
  lemma RoundUnique(x: real, n: int)
    requires x - 0.5 <= n as real <= x + 0.5
    requires (n as real == x - 0.5 || n as real == x + 0.5) ==> n % 2 == 0
    ensures Round(x) == n
  {
  }

  /** Python 3 `round(x, 4)`, exact on reals: the nearest multiple of 1/10000. */
  function Round4(x: real): (r: real)
    ensures x - 0.00005 <= r <= x + 0.00005
    ensures (r * 10000.0).Floor as real == r * 10000.0
  {
    Round(x * 10000.0) as real / 10000.0
  }

  /** `(round(p[0], 4), round(p[1], 4))`, as the tracer stores each arm end. */
  function Round4Point(p: Point): (q: Point)
    ensures p.x - 0.00005 <= q.x <= p.x + 0.00005
    ensures p.y - 0.00005 <= q.y <= p.y + 0.00005
  {
    Point(Round4(p.x), Round4(p.y))
  }
}
