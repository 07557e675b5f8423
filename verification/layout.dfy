/** Pad geometry and pad selection shared by the canvas classes of the `ap`
    package and of `rootplotting`: pad rectangles in the canvas's normalised
    coordinates, the two-pad split, the pad constructor's coordinate check,
    and the index resolution of the `defer` decorator. */
module Layout {

  import opened PyBase

  /** A pad's rectangle `(x1, y1, x2, y2)`, lower-left then upper-right. */
  datatype Rect = Rect(x1: real, y1: real, x2: real, y2: real)

  function Coords(r: Rect): seq<real> {
    [r.x1, r.y1, r.x2, r.y2]
  }

  /** The assertions of the `ap` pad constructor: four coordinates, the
      second x above the first, the second y above the first. */
  predicate ValidCoords(coords: seq<real>) {
    |coords| == 4 && coords[0] < coords[2] && coords[1] < coords[3]
  }

  /** The pad's scale: one over its width and one over its height. */
  function PadScale(coords: seq<real>): (s: (real, real))
    requires ValidCoords(coords)
    ensures s.0 > 0.0 && s.1 > 0.0
    ensures s.0 * (coords[2] - coords[0]) == 1.0 && s.1 * (coords[3] - coords[1]) == 1.0
  {
    (1.0 / (coords[2] - coords[0]), 1.0 / (coords[3] - coords[1]))
  }

  /** The two pads of a ratio canvas: the main pad above `fraction`, the
      ratio pad below it, both spanning the full width. */
  function TwoPadLayout(fraction: real): (pads: seq<Rect>)
    ensures |pads| == 2
  {
    [Rect(0.0, fraction, 1.0, 1.0), Rect(0.0, 0.0, 1.0, fraction)]
  }

  /** The two pads meet at `fraction`, together span the canvas from 0 to 1
      vertically and horizontally, and are valid pads exactly when the
      fraction lies strictly between 0 and 1. */
  lemma TwoPadsTileCanvas(fraction: real)
    ensures var pads := TwoPadLayout(fraction);
      && pads[0].y1 == pads[1].y2 == fraction
      && pads[1].y1 == 0.0 && pads[0].y2 == 1.0
      && pads[0].x1 == pads[1].x1 == 0.0 && pads[0].x2 == pads[1].x2 == 1.0
    ensures var pads := TwoPadLayout(fraction);
      (ValidCoords(Coords(pads[0])) && ValidCoords(Coords(pads[1]))) <==> 0.0 < fraction < 1.0
  {
  }

  /** The single pad of a one-pad canvas. */
  const FullPad: Rect := Rect(0.0, 0.0, 1.0, 1.0)

  // ---------------------------------------------------------------------
  // defer
  // ---------------------------------------------------------------------

  /** The canvas's `_num_pads`: a count, or (in `rootplotting` after a grid
      layout) a list of dimensions. */
  datatype PadCount = Count(n: int) | Shape(dims: seq<int>)

  /** `idx_pad == -1 or (idx_pad >= 0 and idx_pad < self._num_pads)`. Under
      Python 2 an `int` compares below any `list`, so against a list of
      dimensions the upper bound always holds. */
  predicate IndexAllowed(idx: int, count: PadCount) {
    idx == -1 || (idx >= 0 && (count.Shape? || idx < count.n))
  }

  /** Python's `pads[idx]`: negative indices count from the end; `None` where
      the lookup raises `IndexError`. */
  function PyIndex(len: nat, idx: int): (r: Option<nat>)
    ensures r.Some? <==> -(len as int) <= idx < len
    ensures r.Some? ==> r.value < len && (idx >= 0 ==> r.value == idx) && (idx < 0 ==> r.value == len + idx)
  {
    if 0 <= idx < len then Some(idx as nat)
    else if -(len as int) <= idx < 0 then Some((len + idx) as nat)
    else None
  }

  /** The largest index below `k` whose pad is not an overlay, or -1. */
  function LastNonOverlayBelow(overlay: seq<bool>, k: int): (r: int)
    requires -1 <= k <= |overlay|
    ensures -1 <= r && (k <= 0 ==> r == -1) && (k > 0 ==> r < k)
    ensures r >= 0 ==> !overlay[r]
    ensures forall j :: r < j < k && j >= 0 ==> overlay[j]
    decreases k
  {
    if k <= 0 then -1
    else if !overlay[k - 1] then k - 1
    else LastNonOverlayBelow(overlay, k - 1)
  }

  /** The backwards search of `defer`, started when the requested pad is an
      overlay: the index goes down from `len - 1`, stopping at the first
      non-overlay pad or at -1. */
  method SearchNonOverlay(overlay: seq<bool>) returns (idx: int)
    requires |overlay| > 0
    ensures idx == LastNonOverlayBelow(overlay, |overlay| - 1)
  {
    idx := |overlay| - 1;
    while idx >= 0
      invariant -1 <= idx <= |overlay| - 1
      invariant LastNonOverlayBelow(overlay, |overlay| - 1) == LastNonOverlayBelow(overlay, idx)
      decreases idx
    {
      idx := idx - 1;
      // At -1 Python looks at the last pad; either way the search ends there.
      var look := if idx >= 0 then idx else |overlay| + idx;
      if !overlay[look] {
        break;
      }
    }
  }

  /** `defer`: the pad a deferred call goes to, as an index into the pad list.
      The requested index must be -1 or within the count; an overlay target
      is replaced by the search result, which must pass the same check. */
  method Resolve(overlay: seq<bool>, count: PadCount, idx: int) returns (r: Result<nat>)
    ensures !IndexAllowed(idx, count) ==> r.Raised?
    ensures IndexAllowed(idx, count) && PyIndex(|overlay|, idx).None? ==> r.Raised?
    ensures IndexAllowed(idx, count) && PyIndex(|overlay|, idx).Some? && !overlay[PyIndex(|overlay|, idx).value] ==>
      r == Ok(PyIndex(|overlay|, idx).value)
    ensures IndexAllowed(idx, count) && PyIndex(|overlay|, idx).Some? && overlay[PyIndex(|overlay|, idx).value] ==>
      var s := LastNonOverlayBelow(overlay, |overlay| - 1);
      r == if IndexAllowed(s, count) && PyIndex(|overlay|, s).Some? then Ok(PyIndex(|overlay|, s).value) else Raised
  {
    if !IndexAllowed(idx, count) {
      return Raised;
    }
    var first := PyIndex(|overlay|, idx);
    if first.None? {
      return Raised;
    }
    var target := idx;
    if overlay[first.value] {
      target := SearchNonOverlay(overlay);
      if !IndexAllowed(target, count) {
        return Raised;
      }
    }
    var chosen := PyIndex(|overlay|, target);
    if chosen.None? {
      return Raised;
    }
    r := Ok(chosen.value);
  }

  /** A deferred call never lands on an overlay pad unless every pad below the
      last is an overlay, in which case it goes to index -1, the last pad. */
  lemma DeferAvoidsOverlays(overlay: seq<bool>)
    requires |overlay| > 0
    ensures var s := LastNonOverlayBelow(overlay, |overlay| - 1);
      (s >= 0 ==> !overlay[s]) && (s == -1 <==> forall j :: 0 <= j < |overlay| - 1 ==> overlay[j])
  {
  }
}
