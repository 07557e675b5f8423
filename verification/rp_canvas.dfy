/** The canvas class of `rootplotting` (rootplotting/canvas.py): the three
    pad layouts of the constructor (one or two pads, a list of fractions
    stacked top to bottom, a regular grid), the pad accessor, the pad index
    every deferred call resolves to, and the de-duplicated region lines.
    ROOT drawing calls are left out; the axis, the x limits and the margins
    of the main pad are parameters. */
module RpCanvas {

  import opened PyBase
  import opened Layout
  import RpTools

  // ---------------------------------------------------------------------
  // Constructor arguments
  // ---------------------------------------------------------------------

  /** `num_pads`: a number, or a list of grid dimensions. */
  datatype PadSpec = Num(n: int) | Dims(dims: seq<int>)

  /** One element of a list of fractions, an `int` or a `float`. */
  datatype Number = IntNum(i: int) | FloatNum(x: real)

  /** `fraction`: one share for the two-pad split, or a list of shares. */
  datatype FractionSpec = Share(f: real) | Shares(fs: seq<Number>)

  function ValueOf(x: Number): real {
    match x
    case IntNum(i) => i as real
    case FloatNum(f) => f
  }

  function Values(fs: seq<Number>): (r: seq<real>)
    ensures |r| == |fs| && forall i :: 0 <= i < |fs| ==> r[i] == ValueOf(fs[i])
  {
    seq(|fs|, i requires 0 <= i < |fs| => ValueOf(fs[i]))
  }

  /** The sum of a list, added from the front. */
  function Sum(xs: seq<real>): real
    decreases |xs|
  {
    if |xs| == 0 then 0.0 else Sum(xs[..|xs| - 1]) + xs[|xs| - 1]
  }

  /** Every element divided by `s`. */
  function Scaled(xs: seq<real>, s: real): (r: seq<real>)
    requires s != 0.0
    ensures |r| == |xs| && forall i :: 0 <= i < |xs| ==> r[i] == xs[i] / s
  {
    seq(|xs|, i requires 0 <= i < |xs| => xs[i] / s)
  }

  /** Dividing every element by `s` divides the sum by `s`. */
  lemma {:induction false} SumScaled(xs: seq<real>, s: real)
    requires s != 0.0
    ensures Sum(Scaled(xs, s)) == Sum(xs) / s
    decreases |xs|
  {
    if |xs| > 0 {
      var init := xs[..|xs| - 1];
      assert Scaled(xs, s)[..|xs| - 1] == Scaled(init, s);
      SumScaled(init, s);
      assert Sum(init) / s + xs[|xs| - 1] / s == (Sum(init) + xs[|xs| - 1]) / s;
    }
  }

  /** `set(map(type, fraction)) == {int}`: a non-empty list of integers. */
  predicate AllInts(fs: seq<Number>) {
    |fs| > 0 && forall i :: 0 <= i < |fs| ==> fs[i].IntNum?
  }

  /** The fractions the list branch stacks: a list of integers is divided
      by its sum, which must not be 0; any other list must already sum to 1
      within 1e-6. */
  function Normalise(fs: seq<Number>): (r: Result<seq<real>>)
    ensures r.Ok? ==> |r.value| == |fs|
    ensures AllInts(fs) ==> (r.Raised? <==> Sum(Values(fs)) == 0.0)
    ensures AllInts(fs) && r.Ok? ==> Sum(r.value) == 1.0
    ensures AllInts(fs) && r.Ok? ==> forall i :: 0 <= i < |fs| ==> r.value[i] * Sum(Values(fs)) == fs[i].i as real
    ensures !AllInts(fs) ==> (r.Ok? <==> RpTools.Abs(Sum(Values(fs)) - 1.0) < 0.000001)
    ensures !AllInts(fs) && r.Ok? ==> r.value == Values(fs)
  {
    var vs := Values(fs);
    if AllInts(fs) then
      var s := Sum(vs);
      if s == 0.0 then Raised
      else
        SumScaled(vs, s);
        assert s / s == 1.0;
        Ok(Scaled(vs, s))
    else if RpTools.Abs(Sum(vs) - 1.0) < 0.000001 then Ok(vs)
    else Raised
  }

  // ---------------------------------------------------------------------
  // Fractions stacked top to bottom
  // ---------------------------------------------------------------------

  /** Pad `k` of the list branch: from `1 - cumsum` after share `k` up to
      `1 - cumsum` before it, over the full width. */
  function StackedRect(shares: seq<real>, k: nat): (r: Rect)
    requires k < |shares|
    ensures r.y2 - r.y1 == shares[k]
  {
    assert shares[..k + 1][..k] == shares[..k];
    Rect(0.0, 1.0 - Sum(shares[..k + 1]), 1.0, 1.0 - Sum(shares[..k]))
  }

  /** The loop over `zip(fractions[:-1], fractions[1:])`, with the running
      `1 - cumsum` as the cursor. */
  method StackedPads(shares: seq<real>) returns (pads: seq<Rect>)
    ensures |pads| == |shares|
    ensures forall k :: 0 <= k < |shares| ==> pads[k] == StackedRect(shares, k)
  {
    pads := [];
    var top := 1.0;
    for i := 0 to |shares|
      invariant |pads| == i && top == 1.0 - Sum(shares[..i])
      invariant forall k :: 0 <= k < i ==> pads[k] == StackedRect(shares, k)
    {
      assert shares[..i + 1][..i] == shares[..i];
      var bottom := top - shares[i];
      pads := pads + [Rect(0.0, bottom, 1.0, top)];
      top := bottom;
    }
  }

  /** The stacked pads start at the top of the canvas, each pad's lower edge
      is the next pad's upper edge, and the last one ends `sum` below the top. */
  lemma StackedPadsTile(shares: seq<real>)
    requires |shares| > 0
    ensures StackedRect(shares, 0).y2 == 1.0
    ensures StackedRect(shares, |shares| - 1).y1 == 1.0 - Sum(shares)
    ensures forall k :: 0 <= k < |shares| - 1 ==> StackedRect(shares, k).y1 == StackedRect(shares, k + 1).y2
  {
    assert shares[..|shares|] == shares;
  }

  /** Normalised or accepted fractions cover the canvas from 1 down to 0,
      exactly for integers and within 1e-6 otherwise. */
  lemma NormalisedPadsCoverCanvas(fs: seq<Number>)
    requires |fs| > 0 && Normalise(fs).Ok?
    ensures var shares := Normalise(fs).value;
      && StackedRect(shares, 0).y2 == 1.0
      && (AllInts(fs) ==> StackedRect(shares, |shares| - 1).y1 == 0.0)
      && RpTools.Abs(StackedRect(shares, |shares| - 1).y1) < 0.000001
  {
    StackedPadsTile(Normalise(fs).value);
  }

  // ---------------------------------------------------------------------
  // The regular grid
  // ---------------------------------------------------------------------

  function Ones(k: nat): (r: seq<int>)
    ensures |r| == k && forall i :: 0 <= i < k ==> r[i] == 1
  {
    seq(k, _ => 1)
  }

  /** The grid shape: a number `n` becomes `[n]`, and ones are put in front
      until there are two dimensions. */
  function PaddedShape(spec: PadSpec): (r: seq<int>)
    ensures |r| >= 2
  {
    var dims := if spec.Num? then [spec.n] else spec.dims;
    if |dims| >= 2 then dims else Ones(2 - |dims|) + dims
  }

  /** `while len(self._num_pads) < 2: self._num_pads.insert(0, 1)`. */
  method GridShape(spec: PadSpec) returns (shape: seq<int>)
    ensures shape == PaddedShape(spec)
  {
    shape := if spec.Num? then [spec.n] else spec.dims;
    ghost var dims := shape;
    ghost var inserted := 0;
    while |shape| < 2
      invariant inserted <= 2 && shape == Ones(inserted) + dims
      invariant inserted > 0 ==> |dims| < 2 && |shape| <= 2
      decreases 2 - |shape|
    {
      shape := [1] + shape;
      inserted := inserted + 1;
    }
  }

  /** The given dimensions are kept, at the end of the shape. */
  lemma PaddedShapeKeepsDims(spec: PadSpec)
    requires spec.Dims?
    ensures var s := PaddedShape(spec); s[|s| - |spec.dims|..] == spec.dims
    ensures |spec.dims| < 2 ==> PaddedShape(spec)[0] == 1
  {
  }

  /** `(ix, iy)` of the pad made for `ipad`: `ix = (nx - 1 - ipad) % nx`,
      `iy = ipad // nx`. */
  function PadCell(nx: int, ipad: int): (int, int)
    requires nx != 0
  {
    (FloorMod(nx - 1 - ipad, nx), FloorDiv(ipad, nx))
  }

  /** The cell of the `k`-th pad created: the loop runs `ipad` from
      `nx * ny - 1` down to 0. */
  function GridCell(nx: int, ny: int, k: int): (int, int)
    requires nx != 0
  {
    PadCell(nx, nx * ny - 1 - k)
  }

  /** The rectangle of cell `(ix, iy)`: one `1/nx` by `1/ny` tile. */
  function CellRect(nx: int, ny: int, cell: (int, int)): Rect
    requires nx != 0 && ny != 0
  {
    var fx, fy := 1.0 / nx as real, 1.0 / ny as real;
    Rect(cell.0 as real * fx, cell.1 as real * fy, (cell.0 + 1) as real * fx, (cell.1 + 1) as real * fy)
  }

  /** The pad count of a grid: `nx * ny`, or none when that is not positive. */
  function GridSize(nx: int, ny: int): nat {
    if nx * ny > 0 then nx * ny else 0
  }

  /** The loop `for ipad in reversed(range(n))` appending one tile per pad. */
  method GridPads(nx: int, ny: int) returns (pads: seq<Rect>)
    requires nx != 0 && ny != 0
    ensures |pads| == GridSize(nx, ny)
    ensures forall k :: 0 <= k < |pads| ==> pads[k] == CellRect(nx, ny, GridCell(nx, ny, k))
  {
    var n := nx * ny;
    pads := [];
    var ipad := n;
    while ipad > 0
      invariant n > 0 ==> 0 <= ipad <= n
      invariant n <= 0 ==> ipad == n
      invariant n > 0 ==> |pads| == n - ipad
      invariant n <= 0 ==> pads == []
      invariant forall k :: 0 <= k < |pads| ==> pads[k] == CellRect(nx, ny, GridCell(nx, ny, k))
    {
      ipad := ipad - 1;
      var ix := FloorMod(nx - 1 - ipad, nx);
      var iy := FloorDiv(ipad, nx);
      assert (ix, iy) == GridCell(nx, ny, |pads|);
      pads := pads + [CellRect(nx, ny, (ix, iy))];
    }
  }

  /** Python's `//` and `%` by a positive divisor are determined by a
      quotient and a remainder in range. */
  lemma DivModUnique(a: int, b: int, q: int, r: int)
    requires b > 0 && a == b * q + r && 0 <= r < b
    ensures FloorDiv(a, b) == q && FloorMod(a, b) == r
  {
    var q' := FloorDiv(a, b);
    if q' > q {
      assert b * q' == b * q + b * (q' - q);
      MultiplyAtLeast(b, q' - q);
    } else if q' < q {
      assert b * q == b * q' + b * (q - q');
      MultiplyAtLeast(b, q - q');
    }
  }

  lemma MultiplyAtLeast(b: int, d: int)
    requires b > 0 && d >= 1
    ensures b * d >= b
  {
    assert b * d == b + b * (d - 1);
  }

  /** In closed form, the `k`-th pad created sits in column `k % nx` and
      row `ny - 1 - k / nx`: the grid is filled left to right, top to bottom. */
  lemma GridCellClosedForm(nx: int, ny: int, k: int)
    requires nx > 0 && ny > 0 && 0 <= k < nx * ny
    ensures GridCell(nx, ny, k) == (k % nx, ny - 1 - k / nx)
  {
    var q, r := k / nx, k % nx;
    assert k == nx * q + r;
    var ipad := nx * ny - 1 - k;
    assert ipad == nx * (ny - 1 - q) + (nx - 1 - r);
    DivModUnique(ipad, nx, ny - 1 - q, nx - 1 - r);
    assert nx - 1 - ipad == nx * (q - ny + 1) + r;
    DivModUnique(nx - 1 - ipad, nx, q - ny + 1, r);
  }

  /** The first pad created is the top-left cell. */
  lemma FirstPadTopLeft(nx: int, ny: int)
    requires nx > 0 && ny > 0
    ensures GridCell(nx, ny, 0) == (0, ny - 1)
  {
    MultiplyAtLeast(nx, ny);
    GridCellClosedForm(nx, ny, 0);
  }

  /** Every pad of the grid lands in a cell of the `nx` by `ny` grid. */
  lemma GridCellsInGrid(nx: int, ny: int)
    requires nx > 0 && ny > 0
    ensures forall k :: 0 <= k < nx * ny ==>
      0 <= GridCell(nx, ny, k).0 < nx && 0 <= GridCell(nx, ny, k).1 < ny
  {
    forall k | 0 <= k < nx * ny
      ensures 0 <= GridCell(nx, ny, k).0 < nx && 0 <= GridCell(nx, ny, k).1 < ny
    {
      GridCellClosedForm(nx, ny, k);
      RowInRange(nx, ny, k);
    }
  }

  /** Some pad of the `nx` by `ny` grid lands in cell `(x, y)`. */
  ghost predicate HasPad(nx: int, ny: int, x: int, y: int)
    requires nx != 0
  {
    exists k :: 0 <= k < nx * ny && GridCell(nx, ny, k) == (x, y)
  }

  /** Every cell of the grid gets a pad. */
  lemma GridCellsCoverGrid(nx: int, ny: int)
    requires nx > 0 && ny > 0
    ensures forall x, y :: 0 <= x < nx && 0 <= y < ny ==> HasPad(nx, ny, x, y)
  {
    forall x, y | 0 <= x < nx && 0 <= y < ny
      ensures HasPad(nx, ny, x, y)
    {
      var k := PadOfCell(nx, ny, x, y);
    }
  }

  /** The pad created for cell `(x, y)`: number `nx * (ny - 1 - y) + x`. */
  lemma PadOfCell(nx: int, ny: int, x: int, y: int) returns (k: int)
    requires nx > 0 && ny > 0 && 0 <= x < nx && 0 <= y < ny
    ensures 0 <= k < nx * ny && GridCell(nx, ny, k) == (x, y)
  {
    var row := ny - 1 - y;
    var base := nx * row;
    k := base + x;
    MultiplyNonDecreasing(nx, 0, row);
    MultiplyNonDecreasing(nx, row + 1, ny);
    assert nx * (row + 1) == base + nx;
    assert 0 <= k < nx * ny;
    DivModUnique(k, nx, row, x);
    assert k / nx == row && k % nx == x;
    GridCellClosedForm(nx, ny, k);
    assert GridCell(nx, ny, k) == (x, ny - 1 - row);
  }

  /** No two pads of the grid share a cell. */
  lemma GridCellsDistinct(nx: int, ny: int)
    requires nx > 0 && ny > 0
    ensures forall k1, k2 :: 0 <= k1 < k2 < nx * ny ==> GridCell(nx, ny, k1) != GridCell(nx, ny, k2)
  {
    forall k1, k2 | 0 <= k1 < k2 < nx * ny
      ensures GridCell(nx, ny, k1) != GridCell(nx, ny, k2)
    {
      GridCellClosedForm(nx, ny, k1);
      GridCellClosedForm(nx, ny, k2);
      assert k1 == nx * (k1 / nx) + k1 % nx;
      assert k2 == nx * (k2 / nx) + k2 % nx;
    }
  }

  lemma RowInRange(nx: int, ny: int, k: int)
    requires nx > 0 && ny > 0 && 0 <= k < nx * ny
    ensures 0 <= k / nx < ny
  {
    assert k == nx * (k / nx) + k % nx;
    if k / nx >= ny {
      MultiplyNonDecreasing(nx, ny, k / nx);
    }
  }

  lemma MultiplyNonDecreasing(b: int, c: int, d: int)
    requires b > 0 && c <= d
    ensures b * c <= b * d
  {
    if c < d {
      MultiplyAtLeast(b, d - c);
      assert b * d == b * c + b * (d - c);
    }
  }

  // ---------------------------------------------------------------------
  // Size, acceptance of the arguments
  // ---------------------------------------------------------------------

  /** The default size: a two-pad ratio canvas is as tall as the `ap` one
      would be for a fraction of 0.3, whatever the fraction; any other is
      600 by 500. */
  function DefaultSize(numPads: PadSpec, ratio: bool): (size: (int, int))
    ensures size.0 == 600
    ensures size.1 == if numPads == Num(2) && ratio then 745 else 500
  {
    assert 745.0 <= 521.79 / (1.0 - 0.3) < 746.0;
    if numPads == Num(2) && ratio then (600, Trunc(521.79 / (1.0 - 0.3))) else (600, 500)
  }

  /** The layout the constructor picks: the count branch for a number up to
      2, the list branch for a list of fractions, the grid otherwise. */
  datatype Branch = CountBranch | ListBranch | GridBranch

  function BranchOf(numPads: PadSpec, fraction: FractionSpec): Branch {
    if numPads.Num? && numPads.n <= 2 then CountBranch
    else if fraction.Shares? then ListBranch
    else GridBranch
  }

  /** What the constructor's assertions and divisions let through: a list of
      fractions needs one share per pad and shares that `Normalise` accepts
      (a list of dimensions never has a length equal to a count); a grid
      needs two non-zero dimensions. The two-pad split takes a single share,
      which the pad constructor of `rootplotting` receives as a coordinate. */
  predicate Accepts(numPads: PadSpec, fraction: FractionSpec) {
    match BranchOf(numPads, fraction)
    case CountBranch => numPads.n == 2 ==> fraction.Share?
    case ListBranch => numPads.Num? && |fraction.fs| == numPads.n && Normalise(fraction.fs).Ok?
    case GridBranch =>
      var shape := PaddedShape(numPads);
      |shape| == 2 && shape[0] != 0 && shape[1] != 0
  }

  /** The pads of the count branch: one full pad, the two-pad split, or none
      for a count below 1. */
  function CountPads(n: int, fraction: FractionSpec): (pads: seq<Rect>)
    requires n == 2 ==> fraction.Share?
  {
    if n == 1 then [FullPad] else if n == 2 then TwoPadLayout(fraction.f) else []
  }

  /** The drawing produced by `region` on the main pad: whether each
      boundary line is drawn, and where the label goes. */
  datatype RegionMarks = RegionMarks(drawMin: bool, drawMax: bool, labelX: real)

  /** `xNDC`: the midpoint mapped from axis coordinates to the pad's
      normalised coordinates inside its margins. */
  function LabelX(mid: real, axisMin: real, axisMax: real, leftMargin: real, rightMargin: real): real
    requires axisMin < axisMax
  {
    leftMargin + (mid - axisMin) / (axisMax - axisMin) * (1.0 - leftMargin - rightMargin)
  }

  /** The label position is linear in the midpoint: the axis ends map to the
      margins, and a midpoint on the axis lands between them. */
  lemma LabelXWithinMargins(mid: real, axisMin: real, axisMax: real, leftMargin: real, rightMargin: real)
    requires axisMin < axisMax && leftMargin + rightMargin <= 1.0
    ensures LabelX(axisMin, axisMin, axisMax, leftMargin, rightMargin) == leftMargin
    ensures LabelX(axisMax, axisMin, axisMax, leftMargin, rightMargin) == 1.0 - rightMargin
    ensures axisMin <= mid <= axisMax ==>
      leftMargin <= LabelX(mid, axisMin, axisMax, leftMargin, rightMargin) <= 1.0 - rightMargin
  {
    var d := axisMax - axisMin;
    assert d / d == 1.0;
    var t := (mid - axisMin) / d;
    var w := 1.0 - leftMargin - rightMargin;
    if axisMin <= mid <= axisMax {
      ShareOfSpan(mid - axisMin, d);
      ProductNonNegative(t, w);
      ProductNonNegative(1.0 - t, w);
      assert (1.0 - t) * w == w - t * w;
    }
  }

  /** A part of a span, divided by the span, is a share between 0 and 1. */
  lemma ShareOfSpan(part: real, span: real)
    requires 0.0 <= part <= span && span > 0.0
    ensures 0.0 <= part / span <= 1.0
  {
    var t := part / span;
    assert t * span == part;
    assert (0.0 - t) * span == 0.0 - part;
    assert (t - 1.0) * span == part - span;
    if t < 0.0 {
      ProductPositive(0.0 - t, span);
    }
    if t > 1.0 {
      ProductPositive(t - 1.0, span);
    }
  }

  /** The canvas: its pads' rectangles and overlay flags, the pad count the
      deferred calls check against, and the x of every region line drawn. */
  class Canvas {
    const size: (int, int)
    const fraction: FractionSpec
    const ratio: bool
    const count: PadCount

    var pads: seq<Rect>
    var overlay: seq<bool>
    var existingLines: set<real>

    /** One overlay flag per pad. Overlay pads are made by the pad module of
        `rootplotting`, which is not part of this model; the constructor
        makes none. */
    ghost predicate Valid()
      reads this`pads, this`overlay
    {
      |overlay| == |pads|
    }

    constructor(numPads: PadSpec, size: Option<(int, int)>, fraction: FractionSpec, ratio: bool)
      requires Accepts(numPads, fraction)
      ensures Valid()
      ensures this.size == if size.Some? then size.value else DefaultSize(numPads, ratio)
      ensures this.fraction == if numPads == Num(2) then fraction else Share(0.0)
      ensures this.ratio == (ratio && numPads == Num(2))
      ensures forall i :: 0 <= i < |overlay| ==> !overlay[i]
      ensures existingLines == {}
      ensures BranchOf(numPads, fraction) == CountBranch ==>
        count == Count(numPads.n) && pads == CountPads(numPads.n, fraction)
      ensures BranchOf(numPads, fraction) == ListBranch ==>
        var shares := Normalise(fraction.fs).value;
        && count == Count(numPads.n) && |pads| == |shares|
        && forall k :: 0 <= k < |shares| ==> pads[k] == StackedRect(shares, k)
      ensures BranchOf(numPads, fraction) == GridBranch ==>
        var shape := PaddedShape(numPads);
        && count == Shape(shape) && |pads| == GridSize(shape[0], shape[1])
        && forall k :: 0 <= k < |pads| ==> pads[k] == CellRect(shape[0], shape[1], GridCell(shape[0], shape[1], k))
    {
      this.size := if size.Some? then size.value else DefaultSize(numPads, ratio);
      this.fraction := if numPads == Num(2) then fraction else Share(0.0);
      this.ratio := ratio && numPads == Num(2);
      var made: seq<Rect>;
      match BranchOf(numPads, fraction) {
        case CountBranch =>
          this.count := Count(numPads.n);
          made := CountPads(numPads.n, fraction);
        case ListBranch =>
          this.count := Count(numPads.n);
          made := StackedPads(Normalise(fraction.fs).value);
        case GridBranch =>
          var shape := GridShape(numPads);
          this.count := Shape(shape);
          made := GridPads(shape[0], shape[1]);
      }
      pads := made;
      overlay := seq(|made|, _ => false);
      existingLines := {};
    }

    /** `pad(idx=0)`, the later of the two definitions and so the one in
        effect: Python's `pads[idx]`, raising outside the list. */
    method Pad(idx: int) returns (r: Result<nat>)
      requires Valid()
      ensures r.Ok? <==> -|pads| <= idx < |pads|
      ensures r.Ok? ==> r.value < |pads| && (idx >= 0 ==> r.value == idx) && (idx < 0 ==> r.value == |pads| + idx)
    {
      var i := PyIndex(|pads|, idx);
      if i.None? {
        return Raised;
      }
      r := Ok(i.value);
    }

    /** `defer`: the index must be -1 or below the pad count (always below a
        list of dimensions); an overlay target is replaced by the last
        non-overlay pad below the last one, or by the last pad. */
    method Defer(idx: int) returns (r: Result<nat>)
      requires Valid()
      ensures r.Ok? ==> r.value < |pads|
      ensures !IndexAllowed(idx, count) || PyIndex(|pads|, idx).None? ==> r.Raised?
      ensures IndexAllowed(idx, count) && PyIndex(|pads|, idx).Some? && !overlay[PyIndex(|pads|, idx).value] ==>
        r == Ok(PyIndex(|pads|, idx).value)
      ensures IndexAllowed(idx, count) && PyIndex(|pads|, idx).Some? && overlay[PyIndex(|pads|, idx).value] ==>
        var s := LastNonOverlayBelow(overlay, |pads| - 1);
        r == if IndexAllowed(s, count) && PyIndex(|pads|, s).Some? then Ok(PyIndex(|pads|, s).value) else Raised
      ensures r.Ok? && overlay[r.value] ==>
        r.value == |pads| - 1 && forall j :: 0 <= j < |pads| - 1 ==> overlay[j]
    {
      r := Resolve(overlay, count, idx);
      if |overlay| > 0 {
        DeferAvoidsOverlays(overlay);
      }
    }

    /** `region`: both ends are snapped to the main pad's x axis (`edges`);
        nothing happens when the region lies outside the x limits. Otherwise
        a boundary line is drawn only at an x where none was drawn before,
        both x are recorded, and the label is centred between the ends, as
        `xline` returns them after drawing. `Raised` without any pad. */
    method Region(xmin: real, xmax: real, edges: seq<real>, xlim: (real, real),
                  leftMargin: real, rightMargin: real, xline: real -> real) returns (r: Result<Option<RegionMarks>>)
      requires RpTools.ValidAxis(edges)
      modifies this`existingLines
      ensures |pads| == 0 ==> r.Raised? && existingLines == old(existingLines)
      ensures |pads| > 0 ==>
        var lo, hi := RpTools.SnapToAxis(xmin, edges), RpTools.SnapToAxis(xmax, edges);
        if hi <= xlim.0 || lo >= xlim.1 then r == Ok(None) && existingLines == old(existingLines)
        else
          var a := if lo !in old(existingLines) then xline(lo) else lo;
          var b := if hi !in old(existingLines) then xline(hi) else hi;
          && existingLines == old(existingLines) + {lo, hi}
          && r == Ok(Some(RegionMarks(lo !in old(existingLines), hi !in old(existingLines),
                                      LabelX(0.5 * (a + b), edges[0], edges[|edges| - 1], leftMargin, rightMargin))))
    {
      if |pads| == 0 {
        return Raised;
      }
      var lo := RpTools.SnapToAxis(xmin, edges);
      var hi := RpTools.SnapToAxis(xmax, edges);
      if hi <= xlim.0 || lo >= xlim.1 {
        return Ok(None);
      }
      var drawMin := lo !in existingLines;
      var drawMax := hi !in existingLines;
      existingLines := existingLines + {lo};
      existingLines := existingLines + {hi};
      var a := if drawMin then xline(lo) else lo;
      var b := if drawMax then xline(hi) else hi;
      r := Ok(Some(RegionMarks(drawMin, drawMax, LabelX(0.5 * (a + b), edges[0], edges[|edges| - 1], leftMargin, rightMargin))));
    }
  }
}
