/** rootplotting/tools.py: bin-content and graph-point queries, the stack sum,
    the pad-type tests and snapping a coordinate to an axis bin edge. */
module RpTools {

  import opened PyBase
  import opened PyStr
  import opened Bins

  /** The objects the queries receive: a histogram's bin contents, a graph's
      points, or a stack's histograms in the order they were added. */
  datatype Obj = Histogram(bins: seq<real>) | Graph(xs: seq<real>, ys: seq<real>) | Stack(hists: seq<seq<real>>)

  predicate WellFormed(o: Obj) {
    && (o.Graph? ==> |o.xs| == |o.ys|)
    && (o.Stack? ==> SameBinning(o.hists))
  }

  predicate IsMaxOf(m: real, s: seq<real>) {
    m in s && forall i :: 0 <= i < |s| ==> s[i] <= m
  }

  predicate IsMinOf(m: real, s: seq<real>) {
    m in s && forall i :: 0 <= i < |s| ==> m <= s[i]
  }

  /** The smallest strictly positive entry of `s`. */
  predicate IsMinPositiveOf(m: real, s: seq<real>) {
    m > 0.0 && m in s && forall i :: 0 <= i < |s| && s[i] > 0.0 ==> m <= s[i]
  }

  /** The point loop of `get_maximum` for a graph: starts from minus the
      largest float and keeps the larger of it and each `y`. */
  method GraphMaximum(ys: seq<real>) returns (output: real)
    ensures output >= -FloatMax && forall i :: 0 <= i < |ys| ==> ys[i] <= output
    ensures output == -FloatMax || output in ys
  {
    output := -FloatMax;
    for i := 0 to |ys|
      invariant output >= -FloatMax && forall j :: 0 <= j < i ==> ys[j] <= output
      invariant output == -FloatMax || output in ys[..i]
    {
      if ys[i] > output {
        output := ys[i];
      }
    }
  }

  /** The point loop of `get_minimum` for a graph: starts from the largest
      float and keeps the smaller of it and each `y`. */
  method GraphMinimum(ys: seq<real>) returns (output: real)
    ensures output <= FloatMax && forall i :: 0 <= i < |ys| ==> output <= ys[i]
    ensures output == FloatMax || output in ys
  {
    output := FloatMax;
    for i := 0 to |ys|
      invariant output <= FloatMax && forall j :: 0 <= j < i ==> output <= ys[j]
      invariant output == FloatMax || output in ys[..i]
    {
      if ys[i] < output {
        output := ys[i];
      }
    }
  }

  /** The point loop of `get_minimum_positive` for a graph. Points are skipped
      by their `x` coordinate (`x <= 0`), not by their `y` value, so the result
      is the smallest `y` over the points right of the origin. */
  method GraphMinimumPositive(xs: seq<real>, ys: seq<real>) returns (output: real)
    requires |xs| == |ys|
    ensures output <= FloatMax
    ensures forall i :: 0 <= i < |ys| && xs[i] > 0.0 ==> output <= ys[i]
    ensures output == FloatMax || exists i :: 0 <= i < |ys| && xs[i] > 0.0 && ys[i] == output
  {
    output := FloatMax;
    for i := 0 to |ys|
      invariant output <= FloatMax
      invariant forall j :: 0 <= j < i && xs[j] > 0.0 ==> output <= ys[j]
      invariant output == FloatMax || exists j :: 0 <= j < i && xs[j] > 0.0 && ys[j] == output
    {
      if xs[i] <= 0.0 {
        continue;
      }
      if ys[i] < output {
        output := ys[i];
      }
    }
  }

  /** `get_stack_sum(stack, only_first)`. With `only_first` the result is a
      copy of the first histogram, and indexing the histograms of an empty
      stack raises. Otherwise the histograms are summed bin by bin; an empty
      stack gives `None`. */
  method GetStackSum(hists: seq<seq<real>>, onlyFirst: bool) returns (r: Result<Option<seq<real>>>)
    requires SameBinning(hists)
    ensures onlyFirst ==> (r.Raised? <==> |hists| == 0)
    ensures onlyFirst && r.Ok? ==> r.value == Some(hists[0])
    ensures !onlyFirst ==> r.Ok? && (r.value.None? <==> |hists| == 0)
    ensures !onlyFirst && r.Ok? && r.value.Some? ==>
      |r.value.value| == |hists[0]| && forall b :: 0 <= b < |hists[0]| ==> r.value.value[b] == ColumnSum(hists, b)
  {
    if onlyFirst {
      if |hists| == 0 {
        return Raised;
      }
      return Ok(Some(hists[0]));
    }
    var sum := StackSum(hists);
    if sum.Some? {
      forall b | 0 <= b < |hists[0]| ensures sum.value[b] == ColumnSum(hists, b) { SumOfAt(hists, b); }
    }
    r := Ok(sum);
  }

  /** `get_maximum`. A stack is represented by its first histogram (the
      default `only_first=True` of `get_stack_sum`), so an empty stack raises.
      A histogram without bins gives `None`; a graph gives the result of its
      point loop. */
  method GetMaximum(o: Obj) returns (r: Result<Option<real>>)
    requires WellFormed(o)
    ensures o.Histogram? ==> r.Ok? && (r.value.None? <==> |o.bins| == 0)
    ensures o.Histogram? && r.Ok? && r.value.Some? ==> IsMaxOf(r.value.value, o.bins)
    ensures o.Graph? ==> r.Ok? && r.value.Some? && r.value.value >= -FloatMax
    ensures o.Graph? && r.Ok? && r.value.Some? ==>
      (forall i :: 0 <= i < |o.ys| ==> o.ys[i] <= r.value.value) && (r.value.value == -FloatMax || r.value.value in o.ys)
    ensures o.Stack? ==> (r.Raised? <==> |o.hists| == 0)
    ensures o.Stack? && r.Ok? ==> (r.value.None? <==> |o.hists[0]| == 0)
    ensures o.Stack? && r.Ok? && r.value.Some? ==> IsMaxOf(r.value.value, o.hists[0])
  {
    match o
    case Histogram(bins) =>
      r := Ok(MaxBins(bins));
    case Graph(_, ys) =>
      var m := GraphMaximum(ys);
      r := Ok(Some(m));
    case Stack(hists) =>
      var sum := GetStackSum(hists, true);
      if sum.Raised? {
        return Raised;
      }
      r := Ok(MaxBins(sum.value.value));
  }

  /** `get_minimum`, with the same cases as `get_maximum`. */
  method GetMinimum(o: Obj) returns (r: Result<Option<real>>)
    requires WellFormed(o)
    ensures o.Histogram? ==> r.Ok? && (r.value.None? <==> |o.bins| == 0)
    ensures o.Histogram? && r.Ok? && r.value.Some? ==> IsMinOf(r.value.value, o.bins)
    ensures o.Graph? ==> r.Ok? && r.value.Some? && r.value.value <= FloatMax
    ensures o.Graph? && r.Ok? && r.value.Some? ==>
      (forall i :: 0 <= i < |o.ys| ==> r.value.value <= o.ys[i]) && (r.value.value == FloatMax || r.value.value in o.ys)
    ensures o.Stack? ==> (r.Raised? <==> |o.hists| == 0)
    ensures o.Stack? && r.Ok? ==> (r.value.None? <==> |o.hists[0]| == 0)
    ensures o.Stack? && r.Ok? && r.value.Some? ==> IsMinOf(r.value.value, o.hists[0])
  {
    match o
    case Histogram(bins) =>
      r := Ok(MinBins(bins));
    case Graph(_, ys) =>
      var m := GraphMinimum(ys);
      r := Ok(Some(m));
    case Stack(hists) =>
      var sum := GetStackSum(hists, true);
      if sum.Raised? {
        return Raised;
      }
      r := Ok(MinBins(sum.value.value));
  }

  /** `get_minimum_positive`. An empty stack gives the largest float; a
      non-empty one the smallest positive bin of the bottom layer of the
      drawn stack, which is its first histogram. */
  method GetMinimumPositive(o: Obj) returns (r: Result<Option<real>>)
    requires WellFormed(o)
    ensures r.Ok?
    ensures o.Histogram? ==> (r.value.None? <==> forall i :: 0 <= i < |o.bins| ==> o.bins[i] <= 0.0)
    ensures o.Histogram? && r.value.Some? ==> IsMinPositiveOf(r.value.value, o.bins)
    ensures o.Graph? ==> r.value.Some? && r.value.value <= FloatMax
    ensures o.Graph? && r.value.Some? ==>
      (forall i :: 0 <= i < |o.ys| && o.xs[i] > 0.0 ==> r.value.value <= o.ys[i])
      && (r.value.value == FloatMax || exists i :: 0 <= i < |o.ys| && o.xs[i] > 0.0 && o.ys[i] == r.value.value)
    ensures o.Stack? && |o.hists| == 0 ==> r.value == Some(FloatMax)
    ensures o.Stack? && |o.hists| > 0 ==> (r.value.None? <==> forall i :: 0 <= i < |o.hists[0]| ==> o.hists[0][i] <= 0.0)
    ensures o.Stack? && |o.hists| > 0 && r.value.Some? ==> IsMinPositiveOf(r.value.value, o.hists[0])
  {
    match o
    case Histogram(bins) =>
      r := Ok(MinPositiveBins(bins));
    case Graph(xs, ys) =>
      var m := GraphMinimumPositive(xs, ys);
      r := Ok(Some(m));
    case Stack(hists) =>
      if |hists| == 0 {
        r := Ok(Some(FloatMax));
      } else {
        r := Ok(MinPositiveBins(hists[0]));
      }
  }

  // ---------------------------------------------------------------------
  // Pad types
  // ---------------------------------------------------------------------

  /** `is_overlay(pad)`: the class name of the pad ends in `overlay`. */
  predicate IsOverlay(typeName: string) {
    EndsWith(typeName, "overlay")
  }

  /** `is_canvas(pad)`: the class name of the pad ends in `canvas`. */
  predicate IsCanvas(typeName: string) {
    EndsWith(typeName, "canvas")
  }

  /** No class name is both an overlay and a canvas, and a name built by
      appending `overlay` is always an overlay. */
  lemma OverlayAndCanvasDisjoint(typeName: string)
    ensures !(IsOverlay(typeName) && IsCanvas(typeName))
    ensures IsOverlay(typeName + "overlay") && !IsCanvas(typeName + "overlay")
  {
    EndsWithAppend(typeName, "overlay");
    var n := typeName + "overlay";
    assert n[|n| - 1] == 'y';
  }

  // ---------------------------------------------------------------------
  // snapToAxis
  // ---------------------------------------------------------------------

  /** A ROOT axis by its bin edges: at least one bin, edges strictly increasing.
      Bin `b` (1-based) spans `[edges[b - 1], edges[b])`. */
  predicate ValidAxis(edges: seq<real>) {
    |edges| >= 2 && forall i, j :: 0 <= i < j < |edges| ==> edges[i] < edges[j]
  }

  function Abs(x: real): (r: real)
    ensures r >= 0.0 && (r == x || r == -x)
  {
    if x < 0.0 then -x else x
  }

  /** The bin at or after `i` whose range holds `x`. */
  function Locate(edges: seq<real>, x: real, i: nat): (b: nat)
    requires ValidAxis(edges) && 1 <= i < |edges|
    requires edges[i - 1] <= x < edges[|edges| - 1]
    ensures i <= b < |edges| && edges[b - 1] <= x < edges[b]
    decreases |edges| - i
  {
    if x < edges[i] then i else Locate(edges, x, i + 1)
  }

  /** `axis.FindBin(x)`: 0 for the underflow, `N + 1` for the overflow (the
      upper edge itself belongs to the overflow), else the bin holding `x`. */
  function FindBin(edges: seq<real>, x: real): (b: nat)
    requires ValidAxis(edges)
    ensures b <= |edges|
    ensures b == 0 <==> x < edges[0]
    ensures b == |edges| <==> x >= edges[|edges| - 1]
    ensures 0 < b < |edges| ==> edges[b - 1] <= x < edges[b]
  {
    if x < edges[0] then 0
    else if x >= edges[|edges| - 1] then |edges|
    else Locate(edges, x, 1)
  }

  /** `snapToAxis(x, axis)`: the axis end for a coordinate outside the axis,
      otherwise the nearer edge of the bin holding `x`, the lower one on a tie. */
  function SnapToAxis(x: real, edges: seq<real>): (r: real)
    requires ValidAxis(edges)
    ensures r in edges && edges[0] <= r <= edges[|edges| - 1]
  {
    var bin := FindBin(edges, x);
    if bin <= 0 then edges[0]
    else if bin > |edges| - 1 then edges[|edges| - 1]
    else
      var down, up := edges[bin - 1], edges[bin];
      var d1, d2 := Abs(x - down), Abs(x - up);
      if d1 <= d2 then down else up
  }

  /** Snapping picks the nearest edge of the whole axis, and of several equally
      near edges the lowest. */
  lemma SnapIsLowestNearestEdge(x: real, edges: seq<real>)
    requires ValidAxis(edges)
    ensures forall j :: 0 <= j < |edges| ==> Abs(x - SnapToAxis(x, edges)) <= Abs(x - edges[j])
    ensures forall j :: 0 <= j < |edges| && Abs(x - edges[j]) == Abs(x - SnapToAxis(x, edges)) ==> SnapToAxis(x, edges) <= edges[j]
  {
    var bin := FindBin(edges, x);
    var r := SnapToAxis(x, edges);
    if 0 < bin < |edges| {
      var down, up := edges[bin - 1], edges[bin];
      forall j | 0 <= j < |edges|
        ensures Abs(x - r) <= Abs(x - edges[j])
        ensures Abs(x - edges[j]) == Abs(x - r) ==> r <= edges[j]
      {
        if j < bin - 1 {
          assert edges[j] < down;
        } else if j > bin {
          assert edges[j] > up;
        }
      }
    }
  }
}
