/** Piecewise linear interpolation with linear extrapolation at both ends. */
module Interpolation {
  import opened Options
  import opened Numbers

  /** The straight line through points `i` and `i + 1`. */
  function Line(xs: seq<real>, ys: seq<real>, i: nat, x: real): real
    requires i + 1 < |xs| && |xs| == |ys| && xs[i] != xs[i + 1]
  {
    ys[i] + (x - xs[i]) * (ys[i + 1] - ys[i]) / (xs[i + 1] - xs[i])
  }

  /** The search for the segment that holds `x`, from segment `i` on. */
  function Search(xs: seq<real>, ys: seq<real>, i: nat, x: real): Option<real>
    requires |xs| == |ys|
    decreases |xs| - i
  {
    if i + 1 >= |xs| then None
    else if xs[i] <= x <= xs[i + 1] then
      Some(if xs[i + 1] == xs[i] then ys[i] else Line(xs, ys, i, x))
    else Search(xs, ys, i + 1, x)
  }

  function InterpolateY(x: real, xs: seq<real>, ys: seq<real>): Option<real> {
    var n := |xs|;
    if n == 0 || |ys| == 0 || n != |ys| then None
    else if x <= xs[0] then
      Some(if x == xs[0] then ys[0]
           else if n > 1 && xs[1] != xs[0] then Line(xs, ys, 0, x)
           else ys[0])
    else if x >= xs[n - 1] then
      Some(if x == xs[n - 1] then ys[n - 1]
           else if n > 1 && xs[n - 1] != xs[n - 2] then Line(xs, ys, n - 2, x)
           else ys[n - 1])
    else Search(xs, ys, 0, x)
  }

  ghost predicate StrictlyAscending(xs: seq<real>) {
    forall i, j :: 0 <= i < j < |xs| ==> xs[i] < xs[j]
  }

  /** The value is that of segment `i`, which reaches to `x` unless it is an end segment. */
  ghost predicate OnSegment(x: real, xs: seq<real>, ys: seq<real>, i: nat, y: real)
    requires StrictlyAscending(xs) && |xs| == |ys|
  {
    && i + 1 < |xs| && y == Line(xs, ys, i, x)
    && (i == 0 || xs[i] <= x) && (i + 2 == |xs| || x <= xs[i + 1])
  }

  lemma LineEnds(xs: seq<real>, ys: seq<real>, i: nat)
    requires i + 1 < |xs| && |xs| == |ys| && xs[i] < xs[i + 1]
    ensures Line(xs, ys, i, xs[i]) == ys[i] && Line(xs, ys, i, xs[i + 1]) == ys[i + 1]
  {
    var d, h := xs[i + 1] - xs[i], ys[i + 1] - ys[i];
    assert d * h / d == h;
    assert 0.0 * h / d == 0.0;
  }

  lemma {:induction false} SearchFinds(xs: seq<real>, ys: seq<real>, i: nat, x: real)
    requires StrictlyAscending(xs) && |xs| == |ys| && i + 1 < |xs| && xs[i] <= x <= xs[|xs| - 1]
    ensures Search(xs, ys, i, x).Some?
    ensures exists k :: OnSegment(x, xs, ys, k, Search(xs, ys, i, x).value)
    decreases |xs| - i
  {
    if x <= xs[i + 1] {
      assert OnSegment(x, xs, ys, i, Search(xs, ys, i, x).value);
    } else {
      SearchFinds(xs, ys, i + 1, x);
    }
  }

  /** With at least two points every value lies on a segment. */
  lemma AlwaysOnSegment(x: real, xs: seq<real>, ys: seq<real>)
    requires StrictlyAscending(xs) && |xs| == |ys| && |xs| >= 2
    ensures InterpolateY(x, xs, ys).Some?
    ensures exists k :: OnSegment(x, xs, ys, k, InterpolateY(x, xs, ys).value)
  {
    var n := |xs|;
    var y := InterpolateY(x, xs, ys);
    if x <= xs[0] {
      LineEnds(xs, ys, 0);
      assert OnSegment(x, xs, ys, 0, y.value);
    } else if x >= xs[n - 1] {
      LineEnds(xs, ys, n - 2);
      assert OnSegment(x, xs, ys, n - 2, y.value);
    } else {
      SearchFinds(xs, ys, 0, x);
    }
  }

  lemma LineMonotone(xs: seq<real>, ys: seq<real>, i: nat, x: real, x': real)
    requires i + 1 < |xs| && |xs| == |ys| && xs[i] < xs[i + 1] && ys[i] <= ys[i + 1] && x <= x'
    ensures Line(xs, ys, i, x) <= Line(xs, ys, i, x')
  {
    var d, h := xs[i + 1] - xs[i], ys[i + 1] - ys[i];
    assert (x - xs[i]) * h <= (x' - xs[i]) * h;
    DivideMonotone((x - xs[i]) * h, (x' - xs[i]) * h, d);
  }

  lemma DivideMonotone(a: real, b: real, d: real)
    requires a <= b && d > 0.0
    ensures a / d <= b / d
  {
  }

  /** Values on two segments are ordered as their abscissas are. */
  lemma SegmentsMonotone(xs: seq<real>, ys: seq<real>, x: real, i: nat, y: real, x': real, j: nat, y': real)
    requires StrictlyAscending(xs) && Ascending(ys) && |xs| == |ys|
    requires OnSegment(x, xs, ys, i, y) && OnSegment(x', xs, ys, j, y') && x <= x'
    ensures y <= y'
  {
    if i == j {
      LineMonotone(xs, ys, i, x, x');
    } else if i < j {
      LineEnds(xs, ys, i);
      LineEnds(xs, ys, j);
      LineMonotone(xs, ys, i, x, xs[i + 1]);
      LineMonotone(xs, ys, j, xs[j], x');
      assert i + 1 < j ==> ys[i + 1] <= ys[j];
    } else {
      assert xs[j + 1] <= xs[i] && j + 1 == i;
      LineEnds(xs, ys, i);
      LineEnds(xs, ys, j);
      assert x == x' == xs[i] == xs[j + 1];
    }
  }

  /** For ascending points the interpolation always has a value, passes through every point, and is
      monotone over the segments and both extrapolated ends; it has none only for empty or
      unequal data. */
  lemma InterpolationIsMonotone(xs: seq<real>, ys: seq<real>, x: real, x': real)
    requires StrictlyAscending(xs) && Ascending(ys) && x <= x'
    ensures InterpolateY(x, xs, ys) == None <==> xs == [] || ys == [] || |xs| != |ys|
    ensures InterpolateY(x, xs, ys).Some? && InterpolateY(x', xs, ys).Some? ==>
              InterpolateY(x, xs, ys).value <= InterpolateY(x', xs, ys).value
  {
    if |xs| == |ys| && |xs| >= 2 {
      AlwaysOnSegment(x, xs, ys);
      AlwaysOnSegment(x', xs, ys);
      var i: nat :| OnSegment(x, xs, ys, i, InterpolateY(x, xs, ys).value);
      var j: nat :| OnSegment(x', xs, ys, j, InterpolateY(x', xs, ys).value);
      SegmentsMonotone(xs, ys, x, i, InterpolateY(x, xs, ys).value, x', j, InterpolateY(x', xs, ys).value);
    }
  }

  lemma InterpolationHitsPoints(xs: seq<real>, ys: seq<real>, k: nat)
    requires StrictlyAscending(xs) && |xs| == |ys| && k < |xs|
    ensures InterpolateY(xs[k], xs, ys) == Some(ys[k])
  {
    var x := xs[k];
    if 0 < k < |xs| - 1 {
      AlwaysOnSegment(x, xs, ys);
      var i: nat :| OnSegment(x, xs, ys, i, InterpolateY(x, xs, ys).value);
      assert xs[0] <= xs[k] <= xs[|xs| - 1];
      assert xs[i] <= xs[k] <= xs[i + 1];
      assert i <= k <= i + 1;
      LineEnds(xs, ys, i);
    }
  }

  /** `y` relates to the ordinates of points `i` and `i + 1` as `x` to the abscissas, and that segment
      reaches to `x` unless it is an end segment. */
  ghost predicate Proportional(x: real, xs: seq<real>, ys: seq<real>, i: nat, y: real)
    requires |xs| == |ys|
  {
    && i + 1 < |xs|
    && (i == 0 || xs[i] <= x) && (i + 2 == |xs| || x <= xs[i + 1])
    && (y - ys[i]) * (xs[i + 1] - xs[i]) == (x - xs[i]) * (ys[i + 1] - ys[i])
  }

  lemma SegmentIsProportional(x: real, xs: seq<real>, ys: seq<real>, i: nat, y: real)
    requires StrictlyAscending(xs) && |xs| == |ys| && OnSegment(x, xs, ys, i, y)
    ensures Proportional(x, xs, ys, i, y)
  {
    LineIsStraight(xs[i], ys[i], xs[i + 1] - xs[i], ys[i + 1] - ys[i], x);
  }

  /** Between and beyond the points the values lie on straight lines. */
  lemma ValuesAreProportional(x: real, xs: seq<real>, ys: seq<real>)
    requires StrictlyAscending(xs) && |xs| == |ys| >= 2
    ensures InterpolateY(x, xs, ys).Some?
    ensures exists i :: Proportional(x, xs, ys, i, InterpolateY(x, xs, ys).value)
  {
    AlwaysOnSegment(x, xs, ys);
    var y := InterpolateY(x, xs, ys).value;
    var i :| OnSegment(x, xs, ys, i, y);
    SegmentIsProportional(x, xs, ys, i, y);
  }

  lemma LineIsStraight(x0: real, y0: real, d: real, h: real, x: real)
    requires d != 0.0
    ensures (y0 + (x - x0) * h / d - y0) * d == (x - x0) * h
  {
    assert (x - x0) * h / d * d == (x - x0) * h;
  }

  /** A single point, and an end whose two points share an abscissa, are continued level. */
  lemma LevelEnds(xs: seq<real>, ys: seq<real>, x: real)
    requires |xs| == |ys| >= 1 && Ascending(xs)
    ensures x <= xs[0] && (|xs| == 1 || xs[1] == xs[0]) ==> InterpolateY(x, xs, ys) == Some(ys[0])
    ensures x > xs[0] && x >= xs[|xs| - 1] && (|xs| == 1 || xs[|xs| - 2] == xs[|xs| - 1]) ==>
              InterpolateY(x, xs, ys) == Some(ys[|xs| - 1])
  {
  }
}
