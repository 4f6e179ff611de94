/** Grid search: the grid of each axis, their combinations, and the order in which they are handed out. */
module GridOptimizer {
  import opened Prelude
  import opened Cartesian

  /** Integer parameters have integer bounds. */
  datatype Bound = FloatBound(name: string, min: real, max: real) | IntBound(name: string, lo: int, hi: int)

  // ---------------------------------------------------------------- integer axes

  /** Python's `//`. */
  function FloorDiv(a: int, b: int): int
    requires b != 0
  {
    if b > 0 then a / b else (-a) / (-b)
  }

  /** It rounds down, also below zero. */
  lemma FloorDivIs(a: int, b: int)
    requires b != 0
    ensures var q := FloorDiv(a, b); if b > 0 then q * b <= a < (q + 1) * b else q * b >= a > (q + 1) * b
  {
    if b < 0 { assert (-a) / (-b) * (-b) <= -a < ((-a) / (-b) + 1) * (-b); }
  }

  /** `list(range(lo, end, step))` */
  function Range(lo: int, end: int, step: int): seq<int>
    requires step > 0
    decreases if lo < end then end - lo else 0
  {
    if lo >= end then [] else [lo] + Range(lo + step, end, step)
  }

  function Step(lo: int, hi: int, points: int): (step: int)
    requires points != 1
    ensures step >= 1
  {
    var s := FloorDiv(hi - lo, points - 1);
    if s > 1 then s else 1
  }

  /** The step is how often the gaps go into the width, and at least one. */
  lemma StepIs(lo: int, hi: int, points: int)
    requires points >= 2
    ensures var step := Step(lo, hi, points);
            if hi - lo < points - 1 then step == 1 else step * (points - 1) <= hi - lo < (step + 1) * (points - 1)
  {
    FloorDivIs(hi - lo, points - 1);
    var q := FloorDiv(hi - lo, points - 1);
    if hi - lo < points - 1 && q >= 1 { MulOrder(1, q, points - 1); }
    if hi - lo >= points - 1 && q < 1 { MulOrder(q + 1, 1, points - 1); }
  }

  /** The values of an integer axis; a single grid point divides by zero. */
  function IntAxis(lo: int, hi: int, points: int): (r: Option<seq<int>>)
    ensures r.None? <==> points == 1
  {
    if points == 1 then None else Some(Cut(Range(lo, hi + 1, Step(lo, hi, points)), points))
  }

  lemma {:induction false} RangeAt(lo: int, end: int, step: int)
    requires step > 0
    ensures |Range(lo, end, step)| == if lo >= end then 0 else (end - lo - 1) / step + 1
    ensures forall i :: 0 <= i < |Range(lo, end, step)| ==> Range(lo, end, step)[i] == lo + i * step < end
    decreases if lo < end then end - lo else 0
  {
    if lo < end {
      var rest := Range(lo + step, end, step);
      RangeAt(lo + step, end, step);
      QuotientStep(end - lo - 1, step);
      forall i | 0 <= i < |Range(lo, end, step)| ensures Range(lo, end, step)[i] == lo + i * step < end {
        if i > 0 {
          assert Range(lo, end, step)[i] == rest[i - 1] == lo + step + (i - 1) * step;
          assert step + (i - 1) * step == i * step;
        }
      }
    }
  }

  lemma QuotientStep(a: nat, step: nat)
    requires step > 0
    ensures a < step ==> a / step == 0
    ensures a >= step ==> a / step == (a - step) / step + 1
  {
    if a >= step {
      var q, r := (a - step) / step, (a - step) % step;
      assert a == (q + 1) * step + r;
      QuotientIs(a, step, q + 1, r);
    }
  }

  lemma QuotientIs(a: int, n: nat, q: int, r: nat)
    requires n > 0 && r < n && a == q * n + r
    ensures a / n == q
  {
    var p := a / n;
    if p > q {
      MulOrder(q + 1, p, n);
    } else if p < q {
      MulOrder(p + 1, q, n);
    }
  }

  lemma QuotientAtLeast(a: int, n: nat, m: int)
    requires n > 0 && m * n <= a
    ensures a / n >= m
  {
    if a / n + 1 <= m { MulOrder(a / n + 1, m, n); }
  }

  /** Steps fit `gaps` times whenever the width allows it; otherwise the step is one. */
  lemma EnoughSteps(lo: int, hi: int, points: int)
    requires points >= 2 && lo <= hi
    ensures var step := Step(lo, hi, points);
            if hi - lo >= points - 1 then (hi - lo) / step >= points - 1 else step == 1
  {
    var width, gaps := hi - lo, points - 1;
    if width >= gaps {
      QuotientAtLeast(width, gaps, 1);
      QuotientAtLeast(width, width / gaps, gaps);
    } else {
      QuotientIs(width, gaps, 0, width);
    }
  }

  lemma IntAxisIs(lo: int, hi: int, points: int)
    requires points >= 2 && lo <= hi
    ensures var axis := IntAxis(lo, hi, points).value;
            && |axis| == (if points <= hi - lo + 1 then points else hi - lo + 1)
            && (forall i :: 0 <= i < |axis| ==> axis[i] == lo + i * Step(lo, hi, points) <= hi)
  {
    hide Range, Step;
    RangeAt(lo, hi + 1, Step(lo, hi, points));
    EnoughSteps(lo, hi, points);
  }

  /** With at least two points: exactly min(points, width + 1) values, evenly spaced upwards from the lower bound, all in bounds. */
  lemma IntAxisShape(lo: int, hi: int, points: int)
    requires points >= 2 && lo <= hi
    ensures var axis := IntAxis(lo, hi, points).value;
            && |axis| == (if points <= hi - lo + 1 then points else hi - lo + 1)
            && (forall i :: 0 <= i < |axis| ==> axis[i] == lo + i * Step(lo, hi, points) && lo <= axis[i] <= hi)
            && (forall i, j :: 0 <= i < j < |axis| ==> axis[i] < axis[j])
  {
    hide IntAxis, Step;
    IntAxisIs(lo, hi, points);
    var step, axis := Step(lo, hi, points), IntAxis(lo, hi, points).value;
    forall i, j | 0 <= i < j < |axis| ensures axis[i] < axis[j] { MulOrder(i + 1, j, step); }
    forall i | 0 <= i < |axis| ensures lo <= axis[i] { MulOrder(0, i, step); }
  }

  /** The last value is the upper bound exactly when the gaps divide the width, or there are points to spare. */
  lemma IntAxisReaches(lo: int, hi: int, points: int)
    requires points >= 2 && lo <= hi
    ensures var axis := IntAxis(lo, hi, points).value;
            axis[|axis| - 1] == hi <==> points > hi - lo + 1 || (hi - lo) % (points - 1) == 0
  {
    hide Range, Cut;
    IntAxisShape(lo, hi, points);
    var width, gaps := hi - lo, points - 1;
    EnoughSteps(lo, hi, points);
    if points <= width + 1 {
      QuotientAtLeast(width, gaps, 1);
      assert Step(lo, hi, points) == width / gaps;
      assert gaps * (width / gaps) == width - width % gaps;
    }
  }

  /** Without a positive number of points: unit steps, and as many values missing at the upper end as the number says. */
  lemma IntAxisCutShort(lo: int, hi: int, points: int)
    requires points <= 0 && lo <= hi
    ensures var axis := IntAxis(lo, hi, points).value;
            && |axis| == (if points == 0 || hi - lo + 1 + points < 0 then 0 else hi - lo + 1 + points)
            && (forall i :: 0 <= i < |axis| ==> axis[i] == lo + i)
  {
    hide Range;
    FloorDivIs(hi - lo, points - 1);
    var q := FloorDiv(hi - lo, points - 1);
    if q >= 1 { MulOrder(1, q, 1 - points); }
    assert Step(lo, hi, points) == 1;
    RangeAt(lo, hi + 1, 1);
  }

  // ---------------------------------------------------------------- float axes

  /** `min + (max - min) * i / (points - 1)` */
  function Along(min: real, max: real, i: int, points: int): real
    requires points != 1
  {
    min + (max - min) * (i as real) / ((points - 1) as real)
  }

  function FloatAxis(min: real, max: real, points: int): (r: Option<seq<real>>)
    ensures r.None? <==> points == 1
    ensures points <= 0 ==> r == Some([])
  {
    if points == 1 then None
    else if points <= 0 then Some([])
    else Some(seq(points, i requires 0 <= i < points => Along(min, max, i, points)))
  }

  lemma AlongIncreases(min: real, max: real, i: int, j: int, points: int)
    requires points >= 2 && i < j
    ensures min < max ==> Along(min, max, i, points) < Along(min, max, j, points)
    ensures min == max ==> Along(min, max, i, points) == Along(min, max, j, points)
  {
    var gaps, width := (points - 1) as real, max - min;
    var x, y := width * (i as real), width * (j as real);
    assert y - x == width * ((j - i) as real);
    if min < max {
      assert width * ((j - i) as real) > 0.0;
      DivOrder(x, y, gaps);
    }
  }

  lemma DivOrder(x: real, y: real, n: real)
    requires x < y && n > 0.0
    ensures x / n < y / n
  {
    assert y / n - x / n == (y - x) / n;
    var q := (y - x) / n;
    assert q * n == y - x;
    if q <= 0.0 { RealOrder(q, n); }
  }

  lemma RealOrder(q: real, n: real)
    requires q <= 0.0 && n > 0.0
    ensures q * n <= 0.0
  {
  }

  /** The i-th of the gaps' shares of the width. */
  lemma AlongEvenly(min: real, max: real, i: int, points: int)
    requires points != 1
    ensures (Along(min, max, i, points) - min) * ((points - 1) as real) == (max - min) * (i as real)
  {
    var x, gaps := (max - min) * (i as real), (points - 1) as real;
    assert x / gaps * gaps == x;
  }

  lemma AlongEnds(min: real, max: real, points: int)
    requires points >= 2
    ensures Along(min, max, 0, points) == min && Along(min, max, points - 1, points) == max
  {
    var gaps := (points - 1) as real;
    assert (max - min) * gaps / gaps == max - min;
  }

  /** With at least two points a float axis runs evenly from bound to bound. */
  lemma FloatAxisShape(min: real, max: real, points: int)
    requires points >= 2 && min <= max
    ensures var axis := FloatAxis(min, max, points).value;
            && |axis| == points && axis[0] == min && axis[points - 1] == max
            && (forall i :: 0 <= i < points ==> min <= axis[i] <= max)
            && (min < max ==> forall i, j :: 0 <= i < j < points ==> axis[i] < axis[j])
            && (forall i :: 0 <= i < points ==> (axis[i] - min) * ((points - 1) as real) == (max - min) * (i as real))
  {
    hide Along;
    AlongEnds(min, max, points);
    forall i, j | 0 <= i < j < points
      ensures Along(min, max, i, points) <= Along(min, max, j, points)
      ensures min < max ==> Along(min, max, i, points) < Along(min, max, j, points)
    {
      AlongIncreases(min, max, i, j, points);
    }
    forall i | 0 <= i < points ensures (Along(min, max, i, points) - min) * ((points - 1) as real) == (max - min) * (i as real) {
      AlongEvenly(min, max, i, points);
    }
    forall i | 0 <= i < points ensures min <= Along(min, max, i, points) <= max {
      if i > 0 { AlongIncreases(min, max, 0, i, points); }
      if i < points - 1 { AlongIncreases(min, max, i, points - 1, points); }
    }
  }

  // ---------------------------------------------------------------- the grid

  function Reals(xs: seq<int>): (r: seq<real>)
    ensures |r| == |xs|
  {
    seq(|xs|, i requires 0 <= i < |xs| => xs[i] as real)
  }

  function Axis(b: Bound, points: int): Option<seq<real>> {
    match b
    case FloatBound(_, min, max) => FloatAxis(min, max, points)
    case IntBound(_, lo, hi) =>
      var axis := IntAxis(lo, hi, points);
      if axis.None? then None else Some(Reals(axis.value))
  }

  /** None where an axis divides by zero. */
  function Axes(space: seq<Bound>, points: int): (r: Option<seq<seq<real>>>)
    ensures r.Some? ==> |r.value| == |space|
  {
    if space == [] then Some([])
    else
      var front, last := Axes(space[..|space| - 1], points), Axis(space[|space| - 1], points);
      if front.None? || last.None? then None else Some(front.value + [last.value])
  }

  function Names(space: seq<Bound>): (r: seq<string>)
    ensures |r| == |space|
  {
    seq(|space|, i requires 0 <= i < |space| => space[i].name)
  }

  type Params = map<string, real>

  /** The grid point a number decodes to. */
  function Point(space: seq<Bound>, axes: seq<seq<real>>, k: nat): Params
    requires |space| == |axes| && k < Volume(axes)
  {
    Zip(Names(space), Decode(axes, k))
  }

  method GenerateGrid(space: seq<Bound>, points: int) returns (grid: Option<seq<Params>>)
    ensures grid.None? <==> Axes(space, points).None?
    ensures grid.Some? ==> var axes := Axes(space, points).value;
              && |grid.value| == Volume(axes)
              && forall k :: 0 <= k < Volume(axes) ==> grid.value[k] == Point(space, axes, k)
  {
    hide Axis, Decode, Product;
    var grids: seq<seq<real>> := [];
    assert space[..0] == [];
    for i := 0 to |space|
      invariant Axes(space[..i], points) == Some(grids)
    {
      var axis := Axis(space[i], points);
      assert space[..i + 1][..i] == space[..i];
      if axis.None? {
        RaisesEarly(space, points, i + 1);
        return None;
      }
      grids := grids + [axis.value];
    }
    assert space[..|space|] == space;
    ProductLength(grids);
    var tuples, combinations := Product(grids), [];
    for k := 0 to |tuples|
      invariant |combinations| == k
      invariant forall j :: 0 <= j < k ==> combinations[j] == Point(space, grids, j)
    {
      ProductDecodes(grids, k);
      combinations := combinations + [Zip(Names(space), tuples[k])];
    }
    grid := Some(combinations);
  }

  lemma {:induction false} RaisesEarly(space: seq<Bound>, points: int, n: nat)
    requires n <= |space| && Axes(space[..n], points).None?
    ensures Axes(space, points).None?
  {
    hide Axis;
    if n < |space| {
      assert space[..|space| - 1][..n] == space[..n];
      RaisesEarly(space[..|space| - 1], points, n);
    } else {
      assert space[..n] == space;
    }
  }

  // ---------------------------------------------------------------- the optimizer

  datatype Trial = Trial(iteration: nat, params: Params, summary: map<string, real>)

  class GridOptimizer {
    const grid: seq<Params>
    var gridIndex: nat
    var history: seq<Trial>
    var iterationCount: nat
    ghost var asked: nat

    constructor (grid: seq<Params>)
      ensures Valid() && asked == 0 && history == [] && this.grid == grid
    {
      this.grid, gridIndex, history, iterationCount, asked := grid, 0, [], 0, 0;
    }

    ghost predicate Valid()
      reads this
    {
      && gridIndex == (if asked <= |grid| then asked else |grid|)
      && iterationCount == |history|
      && forall i :: 0 <= i < |history| ==> history[i].iteration == i + 1
    }

    /** The n-th request is answered by the n-th grid point, then always by the last. */
    method Ask() returns (params: Params)
      requires Valid()
      modifies `gridIndex, `asked
      ensures Valid() && asked == old(asked) + 1
      ensures params == if old(asked) < |grid| then grid[old(asked)] else if grid != [] then grid[|grid| - 1] else map[]
    {
      asked := asked + 1;
      if gridIndex >= |grid| {
        return if grid != [] then grid[|grid| - 1] else map[];
      }
      params := grid[gridIndex];
      gridIndex := gridIndex + 1;
    }

    method Tell(params: Params, summary: map<string, real>)
      requires Valid()
      modifies `history, `iterationCount
      ensures Valid() && history == old(history) + [Trial(|old(history)| + 1, params, summary)]
    {
      iterationCount := iterationCount + 1;
      history := history + [Trial(iterationCount, params, summary)];
    }
  }

  // ---------------------------------------------------------------- whole searches

  predicate InOrder(b: Bound) { if b.FloatBound? then b.min <= b.max else b.lo <= b.hi }

  /** A float axis of no width. */
  predicate Flat(b: Bound) { b.FloatBound? && b.min == b.max }

  lemma AxisShape(b: Bound, points: int)
    requires points >= 2 && InOrder(b)
    ensures Axis(b, points).Some? && Axis(b, points).value != []
    ensures Flat(b) ==> |Axis(b, points).value| == points && forall i :: 0 <= i < points ==> Axis(b, points).value[i] == b.min
    ensures !Flat(b) ==> Distinct(Axis(b, points).value)
  {
    hide FloatAxis, IntAxis, Distinct;
    match b
    case FloatBound(_, min, max) =>
      FloatAxisShape(min, max, points);
      DistinctPairs(Axis(b, points).value);
    case IntBound(_, lo, hi) =>
      IntAxisShape(lo, hi, points);
      DistinctPairs(Axis(b, points).value);
  }

  /** The values an axis takes are those of its bound: floats evenly, integers in steps from the lower one. */
  lemma AxisValues(b: Bound, points: int, i: nat)
    requires points >= 2 && InOrder(b) && Axis(b, points).Some? && i < |Axis(b, points).value|
    ensures b.FloatBound? ==> (Axis(b, points).value[i] - b.min) * ((points - 1) as real) == (b.max - b.min) * (i as real)
    ensures b.IntBound? ==> Axis(b, points).value[i] == (b.lo + i * Step(b.lo, b.hi, points)) as real
  {
    hide FloatAxis, IntAxis, Step;
    match b
    case FloatBound(_, min, max) => FloatAxisShape(min, max, points);
    case IntBound(_, lo, hi) => IntAxisShape(lo, hi, points);
  }

  lemma {:induction false} AxesAt(space: seq<Bound>, points: int)
    requires points >= 2 && forall i :: 0 <= i < |space| ==> InOrder(space[i])
    ensures Axes(space, points).Some?
    ensures forall i :: 0 <= i < |space| ==> Some(Axes(space, points).value[i]) == Axis(space[i], points)
  {
    hide Axis;
    if space != [] {
      AxesAt(space[..|space| - 1], points);
      AxisShape(space[|space| - 1], points);
    }
  }

  /** No grid point comes up twice. */
  ghost predicate NoRepeat(space: seq<Bound>, axes: seq<seq<real>>)
    requires |axes| == |space|
  {
    forall i: nat, j: nat :: i < Volume(axes) && j < Volume(axes) && Point(space, axes, i) == Point(space, axes, j) ==> i == j
  }

  /**
   * A search with distinct names, bounds in order and at least two points per axis sees every grid point once
   * exactly when no float bound has equal ends.
   */
  lemma SearchCoversOnce(space: seq<Bound>, points: int)
    requires points >= 2 && Distinct(Names(space)) && forall i :: 0 <= i < |space| ==> InOrder(space[i])
    ensures Axes(space, points).Some?
    ensures NoRepeat(space, Axes(space, points).value) <==> forall i :: 0 <= i < |space| ==> !Flat(space[i])
  {
    hide Axes, Axis, Point, Distinct;
    AxesAt(space, points);
    var axes := Axes(space, points).value;
    if a :| 0 <= a < |space| && Flat(space[a]) {
      var i, j := RepeatedPoint(space, points, axes, a);
    } else {
      forall a | 0 <= a < |axes| ensures Distinct(axes[a]) { AxisShape(space[a], points); }
      forall i: nat, j: nat | i < Volume(axes) && j < Volume(axes) && Point(space, axes, i) == Point(space, axes, j)
        ensures i == j
      {
        SamePointSameTuple(space, axes, i, j);
        DecodeInjective(axes, i, j);
      }
    }
  }

  lemma SamePointSameTuple(space: seq<Bound>, axes: seq<seq<real>>, i: nat, j: nat)
    requires |axes| == |space| && Distinct(Names(space))
    requires i < Volume(axes) && j < Volume(axes) && Point(space, axes, i) == Point(space, axes, j)
    ensures Decode(axes, i) == Decode(axes, j)
  {
    hide Decode, Distinct, Zip;
    forall a | 0 <= a < |axes| ensures Decode(axes, i)[a] == Decode(axes, j)[a] {
      ZipAt(Names(space), Decode(axes, i), a);
      ZipAt(Names(space), Decode(axes, j), a);
    }
  }

  /** Along a flat axis the first two values are the same. */
  lemma RepeatedPoint(space: seq<Bound>, points: int, axes: seq<seq<real>>, a: nat) returns (i: nat, j: nat)
    requires points >= 2 && |axes| == |space| && a < |space| && Flat(space[a])
    requires forall k :: 0 <= k < |space| ==> InOrder(space[k]) && Some(axes[k]) == Axis(space[k], points)
    ensures i < Volume(axes) && j < Volume(axes) && i != j && Point(space, axes, i) == Point(space, axes, j)
  {
    hide Axis, Distinct, Digits;
    forall k | 0 <= k < |space| ensures axes[k] != [] { AxisShape(space[k], points); }
    AxisShape(space[a], points);
    var zeros: seq<nat> := seq(|axes|, k requires 0 <= k < |axes| => 0);
    i := Encode(axes, zeros);
    j := Encode(axes, zeros[a := 1]);
    assert zeros[a := 1][a] != zeros[a];
    assert axes[a][0] == axes[a][1];
    assert Decode(axes, i) == Decode(axes, j);
  }
}
