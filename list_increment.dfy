/** list_increment.py: `increment_list`, which turns one list of numbers into another in a
    given number of evenly spaced steps, rounding every step to whole numbers. */
module ListIncrement {
  import opened Numerics

  /** `min([len(start_list), len(target_list)])`. */
  function Min(a: int, b: int): (m: int)
    ensures m <= a && m <= b && (m == a || m == b)
  {
    if a <= b then a else b
  }

  /** Entry j of row i before rounding, as the first loop computes it from row i - 1:
      `prev - (prev - target) / (steps - i)`; row 0 is the start value. The last row is the
      target exactly, its divisor `steps - i` being 1. */
  function Interpolated(s: real, t: real, i: nat, steps: int): (r: real)
    requires i < steps
    ensures 0 < i == steps - 1 ==> r == t
  {
    if i == 0 then s
    else
      var prev := Interpolated(s, t, i - 1, steps);
      prev - (prev - t) / (steps - i) as real
  }

  /** One step of the recurrence in closed form: if prev is k steps of a := (t - s) / n from s,
      and m = n - k steps remain, then `prev - (prev - t) / m` is k + 1 steps from s. */
  lemma StepAlgebra(s: real, t: real, k: real, m: real, n: real)
    requires 0.0 <= k && 0.0 < m && n == k + m
    ensures var a := (t - s) / n; var prev := s + k * a;
      prev - (prev - t) / m == s + (k + 1.0) * a
  {
    var a := (t - s) / n;
    var prev := s + k * a;
    assert a * n == t - s;
    assert t - prev == m * a by {
      assert a * n - k * a == a * (n - k);
    }
    assert (prev - t) / m == -a by {
      assert prev - t == (-a) * m;
    }
  }

  /** The recurrence is linear interpolation: row i lies i steps of (target - start) / (steps - 1)
      away from the start value. */
  lemma {:induction false} InterpolatedClosedForm(s: real, t: real, i: nat, steps: int)
    requires 2 <= steps && i < steps
    ensures Interpolated(s, t, i, steps) == s + i as real * ((t - s) / (steps - 1) as real)
  {
    if i > 0 {
      InterpolatedClosedForm(s, t, i - 1, steps);
      var k, m, n := (i - 1) as real, (steps - i) as real, (steps - 1) as real;
      StepAlgebra(s, t, k, m, n);
      var prev := Interpolated(s, t, i - 1, steps);
      assert prev == s + k * ((t - s) / n);
      assert Interpolated(s, t, i, steps) == prev - (prev - t) / m;
      assert k + 1.0 == i as real;
    }
  }

  /** Consecutive rows are the same distance apart: (target - start) / (steps - 1). */
  lemma EvenlySpaced(s: real, t: real, i: nat, steps: int)
    requires 2 <= steps && i + 1 < steps
    ensures Interpolated(s, t, i + 1, steps) - Interpolated(s, t, i, steps) == (t - s) / (steps - 1) as real
  {
    InterpolatedClosedForm(s, t, i, steps);
    InterpolatedClosedForm(s, t, i + 1, steps);
    var a := (t - s) / (steps - 1) as real;
    assert (i + 1) as real * a - i as real * a == a;
  }

  /** d / n for n > 0 has the sign of d and n times it is d. */
  lemma DivPositive(d: real, n: real)
    requires n > 0.0
    ensures n * (d / n) == d
    ensures 0.0 <= d <==> 0.0 <= d / n
  {
  }

  /** k steps of size a, with 0 <= k <= n and n steps making d, lie between 0 and d. */
  lemma ScaledBetween(k: real, n: real, a: real, d: real)
    requires 0.0 <= k <= n && n * a == d
    ensures 0.0 <= a ==> 0.0 <= k * a <= d
    ensures a <= 0.0 ==> d <= k * a <= 0.0
  {
    var j := n - k;
    assert j >= 0.0;
    assert d - k * a == j * a;
    if a <= 0.0 {
      var b := -a;
      assert k * b >= 0.0 && j * b >= 0.0;
      assert k * a == -(k * b) && j * a == -(j * b);
    } else {
      assert k * a >= 0.0 && j * a >= 0.0;
    }
  }

  /** Every row lies between the start value and the target value. */
  lemma InterpolatedBetween(s: real, t: real, i: nat, steps: int)
    requires 2 <= steps && i < steps
    ensures s <= t ==> s <= Interpolated(s, t, i, steps) <= t
    ensures t <= s ==> t <= Interpolated(s, t, i, steps) <= s
  {
    InterpolatedClosedForm(s, t, i, steps);
    var n1 := (steps - 1) as real;
    var a := (t - s) / n1;
    DivPositive(t - s, n1);
    ScaledBetween(i as real, n1, a, t - s);
  }

  /** Row i, entry j of the result once rounded: a whole number within one half of the
      unrounded entry. */
  function RoundedEntry(s: real, t: real, i: nat, steps: int): (r: real)
    requires i < steps
    ensures r.Floor as real == r
    ensures Interpolated(s, t, i, steps) - 0.5 <= r <= Interpolated(s, t, i, steps) + 0.5
  {
    Round(Interpolated(s, t, i, steps)) as real
  }

  /** Between whole-number endpoints, as the colour lists are, every rounded row still lies
      between the start value and the target value. */
  lemma RoundedEntryBetween(s: int, t: int, i: nat, steps: int)
    requires 2 <= steps && i < steps
    ensures s <= t ==> s as real <= RoundedEntry(s as real, t as real, i, steps) <= t as real
    ensures t <= s ==> t as real <= RoundedEntry(s as real, t as real, i, steps) <= s as real
  {
    InterpolatedBetween(s as real, t as real, i, steps);
    var x := Interpolated(s as real, t as real, i, steps);
    var n := Round(x);
    assert RoundedEntry(s as real, t as real, i, steps) == n as real;
    WholeWithinHalf(n, x, if s <= t then s else t, if s <= t then t else s);
  }

  /** A whole number within one half of a value between two whole numbers is between them. */
  lemma WholeWithinHalf(n: int, x: real, lo: int, hi: int)
    requires lo as real <= x <= hi as real && x - 0.5 <= n as real <= x + 0.5
    ensures lo <= n <= hi
  {
  }

  /** With a whole-number target, as in the colour lists the script feeds it, the last rounded
      row equals the target. */
  lemma LastRoundedRowIsTarget(s: real, t: int, steps: int)
    requires 2 <= steps
    ensures RoundedEntry(s, t as real, steps - 1, steps) == t as real
  {
    RoundOfInteger(t);
  }

  /** The script's own use, RED to GREEN in 5 steps: the middle row is (127.5, 127.5, 0) before
      rounding, and round() sends both halves up to the even 128; the rows either side are
      191.25 and 63.75, which round to 191 and 64. */
  lemma RedToGreenMiddleRow()
    ensures RoundedEntry(255.0, 0.0, 2, 5) == 128.0 && RoundedEntry(0.0, 255.0, 2, 5) == 128.0
    ensures RoundedEntry(255.0, 0.0, 1, 5) == 191.0 && RoundedEntry(0.0, 255.0, 1, 5) == 64.0
  {
    assert Interpolated(255.0, 0.0, 1, 5) == 191.25;
    assert Interpolated(255.0, 0.0, 2, 5) == 127.5;
    assert Interpolated(0.0, 255.0, 1, 5) == 63.75;
    assert Interpolated(0.0, 255.0, 2, 5) == 127.5;
    RoundUnique(127.5, 128);
    RoundUnique(191.25, 191);
    RoundUnique(63.75, 64);
  }

  /** The first loop of `increment_list`: row 0 is `start_list` itself and each later row is
      a new list computed from the row before it. Nothing is rounded yet. */
  method InterpolateRows(start: array<real>, target: seq<real>, steps: int) returns (rows: seq<array<real>>)
    ensures |rows| == if steps >= 1 then steps else 1
    ensures rows[0] == start
    ensures forall i :: 1 <= i < |rows| ==> fresh(rows[i]) && rows[i].Length == Min(start.Length, |target|)
    ensures forall a, b :: 0 <= a < b < |rows| ==> rows[a] != rows[b]
    ensures forall i, j :: 0 <= i < |rows| && i < steps && 0 <= j < Min(start.Length, |target|) ==>
      rows[i][j] == Interpolated(start[j], target[j], i, steps)
  {
    var n := Min(start.Length, |target|);
    rows := [start];
    var i := 1;
    while i < steps
      invariant 1 <= i <= if steps >= 1 then steps else 1
      invariant |rows| == i && rows[0] == start
      invariant forall r :: 1 <= r < i ==> fresh(rows[r]) && rows[r].Length == n
      invariant forall a, b :: 0 <= a < b < i ==> rows[a] != rows[b]
      invariant forall r, c :: 0 <= r < i && r < steps && 0 <= c < n ==>
        rows[r][c] == Interpolated(start[c], target[c], r, steps)
    {
      var row := new real[n];
      for c := 0 to n
        modifies row
        invariant forall c' :: 0 <= c' < c ==> row[c'] == Interpolated(start[c'], target[c'], i, steps)
      {
        row[c] := rows[i - 1][c] - (rows[i - 1][c] - target[c]) / (steps - i) as real;
      }
      rows := rows + [row];
      i := i + 1;
    }
  }

  /** The second loop of `increment_list`: rounds the first n entries of the first `count`
      rows in place and leaves every other entry alone. */
  method RoundRows(rows: seq<array<real>>, count: int, n: int)
    requires 0 <= count <= |rows| && 0 <= n
    requires forall r :: 0 <= r < count ==> n <= rows[r].Length
    requires forall a, b :: 0 <= a < b < |rows| ==> rows[a] != rows[b]
    modifies set r | 0 <= r < count :: rows[r]
    ensures forall r, c :: 0 <= r < count && 0 <= c < n ==> rows[r][c] == Round(old(rows[r][c])) as real
    ensures forall r, c :: 0 <= r < count && n <= c < rows[r].Length ==> rows[r][c] == old(rows[r][c])
  {
    for r := 0 to count
      invariant forall r', c :: 0 <= r' < r && 0 <= c < n ==> rows[r'][c] == Round(old(rows[r'][c])) as real
      invariant forall r', c :: r <= r' < count && 0 <= c < rows[r'].Length ==> rows[r'][c] == old(rows[r'][c])
      invariant forall r', c :: 0 <= r' < r && n <= c < rows[r'].Length ==> rows[r'][c] == old(rows[r'][c])
    {
      for c := 0 to n
        modifies rows[r]
        invariant forall c' :: 0 <= c' < c ==> rows[r][c'] == Round(old(rows[r][c'])) as real
        invariant forall c' :: c <= c' < rows[r].Length ==> rows[r][c'] == old(rows[r][c'])
      {
        rows[r][c] := Round(rows[r][c]) as real;
      }
    }
  }

  /** `increment_list(start_list, target_list, steps)`.
      The result has `steps` rows (one row when steps <= 0). Row 0 is `start_list` itself,
      not a copy, so the rounding pass rewrites the caller's list: its first
      min(len(start), len(target)) entries are rounded when steps >= 1, and its other entries
      are left alone. Rows 1 .. steps - 1 are new lists of min(len(start), len(target))
      entries, each the rounded interpolation from start to target. */
  method IncrementList(start: array<real>, target: seq<real>, steps: int) returns (rows: seq<array<real>>)
    modifies start
    ensures |rows| == if steps >= 1 then steps else 1
    ensures rows[0] == start
    ensures forall i :: 1 <= i < |rows| ==> fresh(rows[i]) && rows[i].Length == Min(start.Length, |target|)
    ensures forall a, b :: 0 <= a < b < |rows| ==> rows[a] != rows[b]
    ensures steps <= 0 ==> start[..] == old(start[..])
    ensures forall j :: Min(start.Length, |target|) <= j < start.Length ==> start[j] == old(start[j])
    ensures forall i, j :: 0 <= i < |rows| && 0 <= j < Min(start.Length, |target|) && steps >= 1 ==>
      rows[i][j] == RoundedEntry(old(start[j]), target[j], i, steps)
  {
    rows := InterpolateRows(start, target, steps);
    RoundRows(rows, if steps >= 1 then steps else 0, Min(start.Length, |target|));
  }
}
