/** The canvas class of the `ap` package (ap/canvas.py): the constructor's
    checks, default size and pad layout, the single-pad accessor, and the pad
    index every deferred call resolves to. */
module ApCanvas {

  import opened PyBase
  import opened Layout
  import ApPad

  /** The default canvas size: a two-pad ratio canvas is made tall enough
      that its upper pad is about 521.79 pixels high; any other is 600 by 600. */
  function DefaultSize(numPads: int, fraction: real, ratio: bool): (size: (int, int))
    requires numPads == 2 && ratio ==> fraction != 1.0
    ensures size.0 == 600
    ensures !(numPads == 2 && ratio) ==> size.1 == 600
    ensures numPads == 2 && ratio && 0.0 <= fraction < 1.0 ==> size.1 >= 521
  {
    if numPads == 2 && ratio then
      if 0.0 <= fraction < 1.0 then DivideByShare(521.79, 1.0 - fraction); (600, Trunc(521.79 / (1.0 - fraction)))
      else (600, Trunc(521.79 / (1.0 - fraction)))
    else (600, 600)
  }

  /** For a ratio canvas the upper pad, `1 - fraction` of the height, comes
      out at 521.79 pixels up to the truncation of the height to whole pixels. */
  lemma RatioCanvasMainPadHeight(fraction: real)
    requires 0.0 < fraction < 1.0
    ensures var height := DefaultSize(2, fraction, true).1 as real;
      height * (1.0 - fraction) <= 521.79 < (height + 1.0) * (1.0 - fraction)
  {
    TruncatedQuotient(521.79, 1.0 - fraction);
  }

  /** `int(a / d)` pixels times the share `d` stay within one share of `a`. */
  lemma TruncatedQuotient(a: real, d: real)
    requires a >= 0.0 && 0.0 < d <= 1.0
    ensures var h := Trunc(a / d) as real; h * d <= a < (h + 1.0) * d
  {
    DivideByShare(a, d);
    ScaleBounds(Trunc(a / d) as real, a / d, d, a);
  }

  lemma ScaleBounds(h: real, q: real, d: real, a: real)
    requires h <= q < h + 1.0 && d > 0.0 && q * d == a
    ensures h * d <= a
    ensures a < (h + 1.0) * d
  {
    ScaleBelow(h, q, d, a);
    ScaleAbove(h, q, d, a);
  }

  lemma ScaleBelow(h: real, q: real, d: real, a: real)
    requires h <= q && d > 0.0 && q * d == a
    ensures h * d <= a
  {
    ProductNonNegative(q - h, d);
    assert (q - h) * d == a - h * d;
  }

  lemma ScaleAbove(h: real, q: real, d: real, a: real)
    requires q < h + 1.0 && d > 0.0 && q * d == a
    ensures a < (h + 1.0) * d
  {
    var e := h + 1.0 - q;
    ProductPositive(e, d);
    assert e * d == h * d + d - q * d;
    assert (h + 1.0) * d == h * d + d;
  }

  /** The pad rectangles of the constructor: the whole canvas for one pad,
      the split at `fraction` for two. */
  function PadRects(numPads: int, fraction: real): (rects: seq<Rect>)
    requires numPads == 1 || numPads == 2
    ensures |rects| == numPads
  {
    if numPads == 1 then [FullPad] else TwoPadLayout(fraction)
  }

  /** The pads are valid pads for one pad, and for two exactly when the
      fraction lies strictly between 0 and 1. */
  lemma PadRectsValid(numPads: int, fraction: real)
    requires numPads == 1 || (numPads == 2 && 0.0 < fraction < 1.0)
    ensures forall i :: 0 <= i < numPads ==> ValidCoords(Coords(PadRects(numPads, fraction)[i]))
  {
    TwoPadsTileCanvas(fraction);
  }

  class Canvas {
    const numPads: int
    const fraction: real
    const size: (int, int)
    const ratio: bool
    const pads: seq<ApPad.Pad>

    /** One pad per requested pad, distinct, each a valid pad. */
    ghost predicate Valid()
      reads this, pads
    {
      && 1 <= numPads <= 2 && |pads| == numPads
      && (forall i, j :: 0 <= i < j < |pads| ==> pads[i] != pads[j])
      && forall i :: 0 <= i < |pads| ==> pads[i].Valid()
    }

    /** `is_overlay` of every pad. */
    function Overlays(): (r: seq<bool>)
      reads this, pads
      ensures |r| == |pads| && forall i :: 0 <= i < |pads| ==> r[i] == pads[i].overlay
    {
      seq(|pads|, i requires 0 <= i < |pads| => pads[i].overlay)
    }

    /** The constructor: 1 or 2 pads (the pad constructor demands increasing
        coordinates, so two pads need a fraction strictly inside (0, 1)); the
        fraction is kept only for two pads, and the ratio flag only for two. */
    constructor(numPads: int, size: Option<(int, int)>, fraction: real, ratio: bool)
      requires 1 <= numPads <= 2
      requires numPads == 2 ==> 0.0 < fraction < 1.0
      ensures Valid()
      ensures this.numPads == numPads
      ensures this.fraction == if numPads == 2 then fraction else 0.0
      ensures this.size == if size.Some? then size.value else DefaultSize(numPads, fraction, ratio)
      ensures this.ratio == (ratio && numPads == 2)
      ensures forall i :: 0 <= i < |pads| ==> fresh(pads[i]) && !pads[i].overlay
      ensures forall i :: 0 <= i < |pads| ==> pads[i].coords == Coords(PadRects(numPads, fraction)[i])
      ensures forall i :: 0 <= i < |pads| ==> pads[i].primitives == [] && pads[i].entries == []
    {
      this.numPads := numPads;
      this.fraction := if numPads == 2 then fraction else 0.0;
      this.size := if size.Some? then size.value else DefaultSize(numPads, fraction, ratio);
      this.ratio := ratio && numPads == 2;
      var rects := PadRects(numPads, fraction);
      PadRectsValid(numPads, fraction);
      var made: seq<ApPad.Pad> := [];
      for i := 0 to numPads
        invariant |made| == i
        invariant forall k :: 0 <= k < i ==> fresh(made[k]) && made[k].Valid() && !made[k].overlay
        invariant forall k :: 0 <= k < i ==> made[k].coords == Coords(rects[k])
        invariant forall k :: 0 <= k < i ==> made[k].primitives == [] && made[k].entries == []
        invariant forall k, l :: 0 <= k < l < i ==> made[k] != made[l]
      {
        var p := new ApPad.Pad(Coords(rects[i]), false);
        made := made + [p];
      }
      this.pads := made;
    }

    /** `pad()`: the only pad, when there is exactly one. */
    method Pad() returns (r: Result<ApPad.Pad>)
      requires Valid()
      ensures r.Ok? <==> |pads| == 1
      ensures r.Ok? ==> r.value == pads[0]
    {
      if |pads| == 1 {
        return Ok(pads[0]);
      }
      return Raised;
    }

    /** `defer`: the pad a call with pad index `idx` goes to. The index must
        be -1 or below the pad count; an overlay target is replaced by the
        last non-overlay pad below the last one, or by the last pad. */
    method Defer(idx: int) returns (r: Result<nat>)
      requires Valid()
      ensures r.Ok? ==> r.value < |pads|
      ensures !IndexAllowed(idx, Count(numPads)) ==> r.Raised?
      ensures IndexAllowed(idx, Count(numPads)) && !pads[PyIndex(|pads|, idx).value].overlay ==>
        r == Ok(PyIndex(|pads|, idx).value)
      ensures IndexAllowed(idx, Count(numPads)) && pads[PyIndex(|pads|, idx).value].overlay ==>
        var s := LastNonOverlayBelow(Overlays(), |pads| - 1);
        r == Ok(if s >= 0 then s else |pads| - 1)
      ensures r.Ok? && pads[r.value].overlay ==>
        r.value == |pads| - 1 && forall j :: 0 <= j < |pads| - 1 ==> pads[j].overlay
    {
      assert IndexAllowed(idx, Count(numPads)) ==> PyIndex(|pads|, idx).Some?;
      r := Resolve(Overlays(), Count(numPads), idx);
      DeferAvoidsOverlays(Overlays());
    }
  }
}
