/** Drawing rules that ap.py and ap/pad.py write out identically: legend-entry
    ordering, the marker reset, the bin-wise ratio, the legend box, the
    text-line cursor and the linear y-axis range. Histograms are values: a
    method that changes one returns the changed copy. */
module Drawing {

  import opened PyBase
  import opened PyStr
  import Bins
  import Tools

  // ---------------------------------------------------------------------
  // Histograms, primitives, legend entries
  // ---------------------------------------------------------------------

  /** A one-dimensional histogram, or a graph whose `contents` are its y values. */
  datatype Kind = TH1 | TGraph

  /** The attributes of a histogram the plotting rules read or write. */
  datatype Hist = Hist(kind: Kind, contents: seq<real>, errors: seq<real>,
                       fillColor: int, markerSize: real, markerStyle: int, markerColor: int)

  /** What a pad has drawn, with the draw option used: a histogram or graph
      (a copy taken when drawn), or the owner's stack, which stays shared so
      that histograms added later show up in it. */
  datatype Primitive = Single(hist: Hist, option: string) | Stacked(option: string)

  /** A legend entry `(object, label, legend option)`. */
  datatype Entry = Entry(hist: Hist, caption: string, option: string)

  /** The style keyword arguments the model follows; `None` when not given. */
  datatype StyleArgs = StyleArgs(fillColor: Option<int>, markerSize: Option<real>, markerStyle: Option<int>, markerColor: Option<int>)

  /** `label.strip().lower() == 'data'`. */
  predicate IsDataLabel(caption: string) {
    Lower(Strip(caption)) == "data"
  }

  /** The legend entry of a drawn histogram: a data entry goes to the front,
      any other entry to the back. */
  function AddEntry(entries: seq<Entry>, e: Entry): (r: seq<Entry>)
    ensures |r| == |entries| + 1 && multiset(r) == multiset(entries) + multiset{e}
    ensures IsDataLabel(e.caption) ==> r[0] == e && r[1..] == entries
    ensures !IsDataLabel(e.caption) ==> r[..|entries|] == entries && r[|entries|] == e
  {
    if IsDataLabel(e.caption) then [e] + entries else entries + [e]
  }

  /** Where a stacked histogram's entry goes: behind a leading data entry,
      otherwise at the front. */
  function StackedIndex(entries: seq<Entry>): (idx: nat)
    ensures idx <= |entries| && idx <= 1
    ensures idx == 1 <==> |entries| > 0 && IsDataLabel(entries[0].caption)
  {
    if |entries| > 0 && IsDataLabel(entries[0].caption) then 1 else 0
  }

  /** The legend entry of a stacked histogram, inserted at `StackedIndex`. */
  function AddStackedEntry(entries: seq<Entry>, e: Entry): (r: seq<Entry>)
    ensures |r| == |entries| + 1 && multiset(r) == multiset(entries) + multiset{e}
    ensures var i := StackedIndex(entries); r[i] == e && r[..i] == entries[..i] && r[i + 1..] == entries[i..]
  {
    InsertAt(entries, StackedIndex(entries), e)
  }

  /** `xs` with `x` inserted before position `p`. */
  function InsertAt<T>(xs: seq<T>, p: nat, x: T): (r: seq<T>)
    requires p <= |xs|
    ensures |r| == |xs| + 1 && multiset(r) == multiset(xs) + multiset{x}
    ensures r[p] == x && r[..p] == xs[..p] && r[p + 1..] == xs[p..]
  {
    assert xs == xs[..p] + xs[p..];
    assert multiset(xs[..p] + [x] + xs[p..]) == multiset(xs[..p]) + multiset{x} + multiset(xs[p..]);
    xs[..p] + [x] + xs[p..]
  }

  /** A leading data entry is never displaced: neither a later ordinary entry
      nor a stacked entry takes its place. */
  lemma LeadingDataKept(entries: seq<Entry>, e: Entry)
    requires |entries| > 0 && IsDataLabel(entries[0].caption)
    ensures AddStackedEntry(entries, e)[0] == entries[0]
    ensures !IsDataLabel(e.caption) ==> AddEntry(entries, e)[0] == entries[0]
  {
  }

  /** Stacked entries come out in reverse order of stacking: a histogram
      stacked later is listed before one stacked earlier, just after a
      leading data entry if there is one. */
  lemma {:induction false} StackedEntriesReversed(entries: seq<Entry>, a: Entry, b: Entry)
    requires !IsDataLabel(a.caption)
    ensures var i := StackedIndex(entries);
      AddStackedEntry(AddStackedEntry(entries, a), b) == entries[..i] + [b, a] + entries[i..]
  {
    var i := StackedIndex(entries);
    var once := AddStackedEntry(entries, a);
    assert StackedIndex(once) == i by {
      if i == 1 {
        assert once[0] == entries[0];
      } else {
        assert once[0] == a;
      }
    }
    InsertTwice(entries, i, a, b);
  }

  lemma InsertTwice<T>(xs: seq<T>, p: nat, a: T, b: T)
    requires p <= |xs|
    ensures InsertAt(InsertAt(xs, p, a), p, b) == xs[..p] + [b, a] + xs[p..]
  {
    var once := InsertAt(xs, p, a);
    assert once[..p] == xs[..p] && once[p..] == [a] + xs[p..];
  }

  /** Taking out what was inserted at `p` gives back the list. */
  lemma RemoveInserted(xs: seq<Entry>, e: Entry, p: nat)
    requires p <= |xs|
    ensures var r := xs[..p] + [e] + xs[p..]; r[..p] + r[p + 1..] == xs
  {
    var r := xs[..p] + [e] + xs[p..];
    assert r[..p] == xs[..p] && r[p + 1..] == xs[p..];
    assert xs[..p] + xs[p..] == xs;
  }

  /** The relative order of the existing entries is kept: taking the new
      entry out again gives back the old list. */
  lemma AddEntryKeepsOrder(entries: seq<Entry>, e: Entry)
    ensures var r := AddEntry(entries, e); var p := if IsDataLabel(e.caption) then 0 else |entries|;
      r[..p] + r[p + 1..] == entries
  {
    var p := if IsDataLabel(e.caption) then 0 else |entries|;
    assert entries[..p] + [e] + entries[p..] == AddEntry(entries, e) by {
      assert entries[..0] == [] && entries[0..] == entries;
      assert entries[..|entries|] == entries && entries[|entries|..] == [];
    }
    RemoveInserted(entries, e, p);
  }

  /** The same for a stacked entry. */
  lemma AddStackedEntryKeepsOrder(entries: seq<Entry>, e: Entry)
    ensures var r := AddStackedEntry(entries, e); var p := StackedIndex(entries);
      r[..p] + r[p + 1..] == entries
  {
    RemoveInserted(entries, e, StackedIndex(entries));
  }

  // ---------------------------------------------------------------------
  // Draw options and legend options
  // ---------------------------------------------------------------------

  /** `PlotType`: plot, hist, hist2d, stack, graph. */
  datatype PlotType = PlotKind | HistKind | Hist2DKind | StackKind | GraphKind

  /** The letters a legend option is made of. */
  predicate LegendLetters(s: string) {
    forall i :: 0 <= i < |s| ==> s[i] in "LFPE"
  }

  /** The part of `_get_label_option` both versions share, applied to the
      upper-cased first token: `P` for markers, then `F` for an `E2`/`E3`
      error band or `EL` for any other error bar. */
  function LabelTail(token: string): (r: string)
    ensures LegendLetters(r) && |r| <= 3
    ensures 'P' in r <==> 'P' in token
    ensures (Contains(token, "E2") || Contains(token, "E3")) ==> |r| > 0 && r[|r| - 1] == 'F' && 'E' !in r
    ensures !(Contains(token, "E2") || Contains(token, "E3")) ==> ('E' in r <==> 'E' in token) && 'F' !in r
    ensures !(Contains(token, "E2") || Contains(token, "E3")) && 'E' in token ==> EndsWith(r, "EL")
  {
    var markers := if 'P' in token then "P" else "";
    var errors := if Contains(token, "E2") || Contains(token, "E3") then "F"
                  else if 'E' in token then "EL" else "";
    markers + errors
  }

  /** The tails of the default draw options: `P` for the graph options,
      `PEL` for the plot option, nothing for `HIST`. */
  lemma TailOfPL()
    ensures LabelTail("PL") == "P"
  {
    NoErrorBand("PL");
    assert 'P' in "PL";
  }

  lemma TailOfAPL()
    ensures LabelTail("APL") == "P"
  {
    NoErrorBand("APL");
    assert 'P' in "APL";
  }

  lemma TailOfPE0()
    ensures LabelTail("PE0") == "PEL"
  {
    NoErrorBand("PE0");
    assert 'P' in "PE0" && 'E' in "PE0";
  }

  lemma TailOfHIST()
    ensures LabelTail("HIST") == ""
  {
    NoErrorBand("HIST");
  }

  /** Without an `E`, or without a `2` and a `3`, a token mentions no
      `E2`/`E3` error band. */
  lemma NoErrorBand(t: string)
    requires 'E' !in t || ('2' !in t && '3' !in t)
    ensures !Contains(t, "E2") && !Contains(t, "E3")
  {
    if Contains(t, "E2") {
      ContainsEach(t, "E2", 0);
      ContainsEach(t, "E2", 1);
    }
    if Contains(t, "E3") {
      ContainsEach(t, "E3", 0);
      ContainsEach(t, "E3", 1);
    }
  }

  /** A token without an `H` does not mention `HIST`. */
  lemma NoEHist(t: string)
    requires 'H' !in t
    ensures !Contains(t, "HIST")
  {
    if Contains(t, "HIST") {
      ContainsEach(t, "HIST", 0);
    }
  }

  // ---------------------------------------------------------------------
  // _reset_style and _style
  // ---------------------------------------------------------------------

  /** `_reset_style(h, option)` for a histogram or graph: unless the first
      token of the option mentions `P`, the marker size, style and colour are
      zeroed. `None` where a blank option makes `split()[0]` raise. */
  function ResetStyle(h: Hist, option: string): (r: Option<Hist>)
    ensures r.None? <==> AllSpace(option)
    ensures r.Some? && 'P' in Upper(FirstToken(option).value) ==> r.value == h
    ensures r.Some? && 'P' !in Upper(FirstToken(option).value) ==>
      r.value == h.(markerSize := 0.0, markerStyle := 0, markerColor := 0)
  {
    // `strip()` before `split()` changes nothing: `split()` drops surrounding blanks.
    match FirstToken(option)
    case None => None
    case Some(token) =>
      if 'P' in Upper(token) then Some(h)
      else Some(h.(markerSize := 0.0, markerStyle := 0, markerColor := 0))
  }

  /** `hist.Scale(scale)` for a truthy `scale`: contents and errors multiplied. */
  function ScaleHist(h: Hist, scale: Option<real>): (r: Hist)
    ensures r.kind == h.kind && |r.contents| == |h.contents| && |r.errors| == |h.errors|
    ensures !Truthy(scale) ==> r == h
    ensures Truthy(scale) ==> forall b :: 0 <= b < |h.contents| ==> r.contents[b] == h.contents[b] * scale.value
    ensures Truthy(scale) ==> forall b :: 0 <= b < |h.errors| ==> r.errors[b] == h.errors[b] * scale.value
  {
    if !Truthy(scale) then h
    else h.(contents := seq(|h.contents|, b requires 0 <= b < |h.contents| => h.contents[b] * scale.value),
            errors := seq(|h.errors|, b requires 0 <= b < |h.errors| => h.errors[b] * scale.value))
  }

  /** `_style(h, **kwargs)`: each given keyword overrides its attribute. */
  function ApplyStyle(h: Hist, s: StyleArgs): (r: Hist)
    ensures r.kind == h.kind && r.contents == h.contents && r.errors == h.errors
    ensures r.fillColor == (if s.fillColor.Some? then s.fillColor.value else h.fillColor)
    ensures r.markerSize == (if s.markerSize.Some? then s.markerSize.value else h.markerSize)
    ensures r.markerStyle == (if s.markerStyle.Some? then s.markerStyle.value else h.markerStyle)
    ensures r.markerColor == (if s.markerColor.Some? then s.markerColor.value else h.markerColor)
  {
    h.(fillColor := if s.fillColor.Some? then s.fillColor.value else h.fillColor,
       markerSize := if s.markerSize.Some? then s.markerSize.value else h.markerSize,
       markerStyle := if s.markerStyle.Some? then s.markerStyle.value else h.markerStyle,
       markerColor := if s.markerColor.Some? then s.markerColor.value else h.markerColor)
  }

  /** The histogram `_plot1D` draws: scaled, reset for the option, then
      styled. `Raised` where the reset raises on a blank option. */
  function Prepared(h: Hist, scaleBy: Option<real>, option: string, style: StyleArgs): (r: Result<Hist>)
    ensures r.Raised? <==> AllSpace(option)
    ensures r.Ok? ==> r.value.kind == h.kind && |r.value.contents| == |h.contents| && |r.value.errors| == |h.errors|
  {
    match ResetStyle(ScaleHist(h, scaleBy), option)
    case None => Raised
    case Some(reset) => Ok(ApplyStyle(reset, style))
  }

  /** `_plot1D` resets and then styles: marker keywords given by the caller
      survive the reset, and the bins are never touched. */
  lemma StyleOverridesReset(h: Hist, option: string, s: StyleArgs)
    requires !AllSpace(option)
    requires s.markerSize.Some? && s.markerStyle.Some? && s.markerColor.Some?
    ensures var r := ApplyStyle(ResetStyle(h, option).value, s);
      && r.markerSize == s.markerSize.value && r.markerStyle == s.markerStyle.value
      && r.markerColor == s.markerColor.value
      && r.contents == h.contents && r.errors == h.errors && r.kind == h.kind
  {
  }

  /** The histogram `_plot1D` draws has the bins of its input, multiplied by
      the scale when that is truthy. */
  lemma PreparedScalesBins(h: Hist, scaleBy: Option<real>, option: string, style: StyleArgs)
    requires !AllSpace(option)
    ensures var r := Prepared(h, scaleBy, option, style).value;
      && (!Truthy(scaleBy) ==> r.contents == h.contents && r.errors == h.errors)
      && (Truthy(scaleBy) ==> forall b :: 0 <= b < |h.contents| ==> r.contents[b] == h.contents[b] * scaleBy.value)
      && (Truthy(scaleBy) ==> forall b :: 0 <= b < |h.errors| ==> r.errors[b] == h.errors[b] * scaleBy.value)
  {
    var scaled := ScaleHist(h, scaleBy);
    var reset := ResetStyle(scaled, option).value;
    assert reset.contents == scaled.contents && reset.errors == scaled.errors;
  }

  /** Resetting twice with the same option is resetting once. */
  lemma ResetStyleIdempotent(h: Hist, option: string)
    requires !AllSpace(option)
    ensures ResetStyle(ResetStyle(h, option).value, option) == ResetStyle(h, option)
  {
  }

  // ---------------------------------------------------------------------
  // _ratio_plot1D
  // ---------------------------------------------------------------------

  /** The new content and error of one bin of the ratio: divided by the
      denominator's content when that is positive, else 1 and 9999. */
  function RatioBin(content: real, error: real, denom: real): (r: (real, real))
  {
    if denom > 0.0 then (content / denom, error / denom) else (1.0, 9999.0)
  }

  /** Where the denominator is positive the ratio times the denominator gives
      back the numerator's content and error; elsewhere the bin is marked by
      content 1 and error 9999 whatever the numerator held. */
  lemma RatioBinInverse(content: real, error: real, denom: real)
    ensures denom > 0.0 ==> RatioBin(content, error, denom).0 * denom == content
    ensures denom > 0.0 ==> RatioBin(content, error, denom).1 * denom == error
    ensures denom <= 0.0 ==> RatioBin(content, error, denom) == (1.0, 9999.0)
  {
  }

  /** The loop of `_ratio_plot1D`: the numerator is cloned and every bin of
      the clone is overwritten in place; the inputs are left as they were. */
  method RatioHist(num: Hist, den: Hist) returns (ratio: Hist)
    requires |num.errors| == |num.contents| && |den.contents| == |num.contents|
    ensures ratio == num.(contents := ratio.contents, errors := ratio.errors)
    ensures |ratio.contents| == |num.contents| && |ratio.errors| == |num.contents|
    ensures forall b :: 0 <= b < |num.contents| ==>
      (ratio.contents[b], ratio.errors[b]) == RatioBin(num.contents[b], num.errors[b], den.contents[b])
  {
    var n := |num.contents|;
    var c := new real[n](i requires 0 <= i < n => num.contents[i]);
    var e := new real[n](i requires 0 <= i < n => num.errors[i]);
    for b := 0 to n
      invariant forall j :: 0 <= j < b ==> (c[j], e[j]) == RatioBin(num.contents[j], num.errors[j], den.contents[j])
      invariant forall j :: b <= j < n ==> c[j] == num.contents[j] && e[j] == num.errors[j]
    {
      var denom := den.contents[b];
      c[b] := if denom > 0.0 then c[b] / denom else 1.0;
      e[b] := if denom > 0.0 then e[b] / denom else 9999.0;
    }
    ratio := num.(contents := c[..], errors := e[..]);
  }

  /** The ratio `_ratio_plot1D` draws: the bin-wise ratio, multiplied by
      the scale when that is truthy. */
  lemma PreparedRatioBins(num: Hist, den: Hist, ratio: Hist, scaleBy: Option<real>, option: string, style: StyleArgs)
    requires !AllSpace(option)
    requires |num.errors| == |num.contents| && |den.contents| == |num.contents|
    requires |ratio.contents| == |num.contents| && |ratio.errors| == |num.contents|
    requires forall b :: 0 <= b < |num.contents| ==>
      (ratio.contents[b], ratio.errors[b]) == RatioBin(num.contents[b], num.errors[b], den.contents[b])
    ensures ScaledRatio(num, den, Prepared(ratio, scaleBy, option, style).value, scaleBy)
  {
    var r := Prepared(ratio, scaleBy, option, style).value;
    PreparedScalesBins(ratio, scaleBy, option, style);
    ScaledRatioOf(num, den, ratio, r, scaleBy);
  }

  /** `r` holds the bin-wise ratio of `num` to `den`, multiplied by the scale
      when that is truthy. */
  predicate ScaledRatio(num: Hist, den: Hist, r: Hist, scaleBy: Option<real>)
    requires |num.errors| == |num.contents| && |den.contents| == |num.contents|
  {
    && |r.contents| == |num.contents| && |r.errors| == |num.contents|
    && forall b :: 0 <= b < |num.contents| ==>
      var q := RatioBin(num.contents[b], num.errors[b], den.contents[b]);
      if Truthy(scaleBy) then r.contents[b] == q.0 * scaleBy.value && r.errors[b] == q.1 * scaleBy.value
      else (r.contents[b], r.errors[b]) == q
  }

  lemma ScaledRatioOf(num: Hist, den: Hist, ratio: Hist, r: Hist, scaleBy: Option<real>)
    requires |num.errors| == |num.contents| && |den.contents| == |num.contents|
    requires |ratio.contents| == |num.contents| && |ratio.errors| == |num.contents|
    requires forall b :: 0 <= b < |num.contents| ==>
      (ratio.contents[b], ratio.errors[b]) == RatioBin(num.contents[b], num.errors[b], den.contents[b])
    requires |r.contents| == |num.contents| && |r.errors| == |num.contents|
    requires !Truthy(scaleBy) ==> r.contents == ratio.contents && r.errors == ratio.errors
    requires Truthy(scaleBy) ==> forall b :: 0 <= b < |ratio.contents| ==> r.contents[b] == ratio.contents[b] * scaleBy.value
    requires Truthy(scaleBy) ==> forall b :: 0 <= b < |ratio.errors| ==> r.errors[b] == ratio.errors[b] * scaleBy.value
    ensures ScaledRatio(num, den, r, scaleBy)
  {
  }

  // ---------------------------------------------------------------------
  // Legend box
  // ---------------------------------------------------------------------

  /** The keyword arguments of `legend` that place the box. */
  datatype LegendArgs = LegendArgs(xmin: Option<real>, xmax: Option<real>, ymin: Option<real>, ymax: Option<real>,
                                   width: real, horisontal: string, vertical: string)

  /** The pad margins the box is placed against. */
  datatype Margins = Margins(left: real, right: real, top: real, bottom: real)

  /** The corners handed to `TLegend`; a corner can remain `None` only when a
      derived coordinate is exactly 0, which Python treats as missing. */
  datatype Box = Box(x1: Option<real>, y1: Option<real>, x2: Option<real>, y2: Option<real>)

  const LegendOffset: real := 0.05

  /** The two statements that fill in a missing end from the other one. */
  function CompleteSpan(lo: Option<real>, hi: Option<real>, size: real): (r: (Option<real>, Option<real>))
  {
    var lo' := if Truthy(hi) && !Truthy(lo) then Some(hi.value - size) else lo;
    var hi' := if Truthy(lo') && !Truthy(hi) then Some(lo'.value + size) else hi;
    (lo', hi')
  }

  /** One axis of the legend box. When neither end is given (both falsy) the
      anchor decides: `Some(true)` puts the upper end at `anchorValue`,
      `Some(false)` the lower end; `None`, an unrecognised side, abandons
      the legend. Then a missing end is derived from the other and `size`. */
  function Span(lo: Option<real>, hi: Option<real>, size: real, anchor: Option<bool>, anchorValue: real): (r: Option<(Option<real>, Option<real>)>)
    ensures r.None? <==> !(Truthy(lo) || Truthy(hi)) && anchor.None?
    ensures r.Some? && Truthy(lo) ==> r.value.0 == lo
    ensures r.Some? && Truthy(hi) ==> r.value.1 == hi
    ensures r.Some? && !(Truthy(lo) || Truthy(hi)) && anchor == Some(true) ==> r.value.1 == Some(anchorValue)
    ensures r.Some? && !(Truthy(lo) || Truthy(hi)) && anchor == Some(false) ==> r.value.0 == Some(anchorValue)
  {
    if !(Truthy(lo) || Truthy(hi)) then
      match anchor
      case None => None
      case Some(high) =>
        if high then Some(CompleteSpan(lo, Some(anchorValue), size))
        else Some(CompleteSpan(Some(anchorValue), hi, size))
    else Some(CompleteSpan(lo, hi, size))
  }

  /** Unless both ends were given, the box is exactly `size` long on this
      axis: `xmin = xmax - width` or `xmax = xmin + width`, likewise in y. */
  lemma DerivedSpanHasSize(lo: Option<real>, hi: Option<real>, size: real, anchor: Option<bool>, anchorValue: real)
    requires Span(lo, hi, size, anchor, anchorValue).Some?
    requires !(Truthy(lo) && Truthy(hi))
    requires Truthy(lo) || Truthy(hi) || anchorValue != 0.0
    ensures var r := Span(lo, hi, size, anchor, anchorValue).value;
      r.0.Some? && r.1.Some? && r.1.value - r.0.value == size
  {
  }

  /** `horisontal.upper()`: `R` anchors the right end, `L` the left end. */
  function XAnchor(horisontal: string): Option<bool> {
    if Upper(horisontal) == "R" then Some(true) else if Upper(horisontal) == "L" then Some(false) else None
  }

  /** `vertical.upper()`: `T` anchors the top, `B` the bottom. */
  function YAnchor(vertical: string): Option<bool> {
    if Upper(vertical) == "T" then Some(true) else if Upper(vertical) == "B" then Some(false) else None
  }

  /** The number of legend rows: entries, a header when one is given, categories. */
  function LegendRows(entries: nat, header: Option<string>, categories: nat): nat {
    entries + (if header.Some? && |header.value| > 0 then 1 else 0) + categories
  }

  /** `rows * fontsize / h * 1.30`. */
  function LegendHeight(rows: nat, fontsize: real, h: real): real
    requires h != 0.0
  {
    rows as real * fontsize / h * 1.30
  }

  /** The height grows by the same step for every row. */
  lemma LegendHeightLinear(rows: nat, fontsize: real, h: real)
    requires h != 0.0
    ensures LegendHeight(rows + 1, fontsize, h) - LegendHeight(rows, fontsize, h) == fontsize / h * 1.30
    ensures LegendHeight(rows, fontsize, h) == rows as real * LegendHeight(1, fontsize, h)
  {
  }

  /** Where an axis without given ends is anchored: inside the right or left
      margin in x; in y below the top margin (lowered by 1.8 font heights) or
      above the bottom margin. */
  function XAnchorValue(args: LegendArgs, m: Margins): real {
    if XAnchor(args.horisontal) == Some(true) then 1.0 - m.right - LegendOffset else m.left + LegendOffset
  }

  function YAnchorValue(args: LegendArgs, m: Margins, fontsize: real, h: real): real
    requires h != 0.0
  {
    if YAnchor(args.vertical) == Some(true) then 1.0 - m.top - LegendOffset - fontsize / h * 1.8
    else m.bottom + LegendOffset
  }

  /** The box of `legend`, once there are entries to show: `Raised` when the
      pad height is 0 (the division by `h` raises), `Ok(None)` exactly when an
      axis has neither end and an unrecognised side, so the legend is
      abandoned; otherwise the corners are the two axes' spans. */
  function LegendBox(entries: nat, header: Option<string>, categories: nat, args: LegendArgs, m: Margins,
                     fontsize: real, h: real): (r: Result<Option<Box>>)
    ensures r.Raised? <==> h == 0.0
    ensures r.Ok? ==>
      (r.value.None? <==>
        (!(Truthy(args.xmin) || Truthy(args.xmax)) && XAnchor(args.horisontal).None?) ||
        (!(Truthy(args.ymin) || Truthy(args.ymax)) && YAnchor(args.vertical).None?))
    ensures r.Ok? && r.value.Some? ==>
      var xs := Span(args.xmin, args.xmax, args.width, XAnchor(args.horisontal), XAnchorValue(args, m));
      var ys := Span(args.ymin, args.ymax, LegendHeight(LegendRows(entries, header, categories), fontsize, h),
                     YAnchor(args.vertical), YAnchorValue(args, m, fontsize, h));
      && xs.Some? && ys.Some?
      && r.value.value == Box(xs.value.0, ys.value.0, xs.value.1, ys.value.1)
  {
    if h == 0.0 then Raised
    else
      var height := LegendHeight(LegendRows(entries, header, categories), fontsize, h);
      match Span(args.xmin, args.xmax, args.width, XAnchor(args.horisontal), XAnchorValue(args, m))
      case None => Ok(None)
      case Some(xs) =>
        match Span(args.ymin, args.ymax, height, YAnchor(args.vertical), YAnchorValue(args, m, fontsize, h))
        case None => Ok(None)
        case Some(ys) => Ok(Some(Box(xs.0, ys.0, xs.1, ys.1)))
  }

  /** Unless both ends of an axis are given, the legend box is `width` wide
      and one row-height per row tall, and a given end stays where it was put. */
  lemma {:induction false} LegendBoxHasSize(entries: nat, header: Option<string>, categories: nat, args: LegendArgs,
                                            m: Margins, fontsize: real, h: real)
    requires LegendBox(entries, header, categories, args, m, fontsize, h).Ok?
    requires LegendBox(entries, header, categories, args, m, fontsize, h).value.Some?
    ensures var b := LegendBox(entries, header, categories, args, m, fontsize, h).value.value;
      && (Truthy(args.xmin) ==> b.x1 == args.xmin) && (Truthy(args.xmax) ==> b.x2 == args.xmax)
      && (Truthy(args.ymin) ==> b.y1 == args.ymin) && (Truthy(args.ymax) ==> b.y2 == args.ymax)
      && (!(Truthy(args.xmin) && Truthy(args.xmax)) && (Truthy(args.xmin) || Truthy(args.xmax) || XAnchorValue(args, m) != 0.0)
          ==> b.x1.Some? && b.x2.Some? && b.x2.value - b.x1.value == args.width)
      && (!(Truthy(args.ymin) && Truthy(args.ymax)) && (Truthy(args.ymin) || Truthy(args.ymax) || YAnchorValue(args, m, fontsize, h) != 0.0)
          ==> b.y1.Some? && b.y2.Some? && b.y2.value - b.y1.value == LegendHeight(LegendRows(entries, header, categories), fontsize, h))
  {
    var height := LegendHeight(LegendRows(entries, header, categories), fontsize, h);
    if !(Truthy(args.xmin) && Truthy(args.xmax)) && (Truthy(args.xmin) || Truthy(args.xmax) || XAnchorValue(args, m) != 0.0) {
      DerivedSpanHasSize(args.xmin, args.xmax, args.width, XAnchor(args.horisontal), XAnchorValue(args, m));
    }
    if !(Truthy(args.ymin) && Truthy(args.ymax)) && (Truthy(args.ymin) || Truthy(args.ymax) || YAnchorValue(args, m, fontsize, h) != 0.0) {
      DerivedSpanHasSize(args.ymin, args.ymax, height, YAnchor(args.vertical), YAnchorValue(args, m, fontsize, h));
    }
  }

  /** With no coordinates given and the default corner (`R`, `T`), the box
      sits `offset` inside the right and top margins (the top lowered by 1.8
      font heights), is `width` wide and one row-height per row tall. */
  lemma DefaultLegendBox(entries: nat, header: Option<string>, categories: nat, args: LegendArgs, m: Margins,
                         fontsize: real, h: real)
    requires h != 0.0
    requires args.xmin == args.xmax == args.ymin == args.ymax == None
    requires XAnchor(args.horisontal) == Some(true) && YAnchor(args.vertical) == Some(true)
    requires 1.0 - m.right - LegendOffset != 0.0 && 1.0 - m.top - LegendOffset - fontsize / h * 1.8 != 0.0
    ensures var r := LegendBox(entries, header, categories, args, m, fontsize, h);
      && r.Ok? && r.value.Some?
      && r.value.value.x2 == Some(1.0 - m.right - LegendOffset)
      && r.value.value.y2 == Some(1.0 - m.top - LegendOffset - fontsize / h * 1.8)
      && r.value.value.x1 == Some(1.0 - m.right - LegendOffset - args.width)
      && r.value.value.y1 == Some(1.0 - m.top - LegendOffset - fontsize / h * 1.8
                                  - LegendHeight(LegendRows(entries, header, categories), fontsize, h))
  {
  }

  // ---------------------------------------------------------------------
  // Text lines
  // ---------------------------------------------------------------------

  /** Where the text lines go: `x` for all of them, `atlasY` for the ATLAS /
      qualifier line when one is drawn, `ys[i]` for line `i`. */
  datatype TextLayout = TextLayout(x: real, atlasY: Option<real>, ys: seq<real>)

  /** Where `n` text lines go for a pad `h` high: `x` is the left margin plus
      the offset; the ATLAS / qualifier line, when drawn, sits one text height
      below the top margin and offset; the first line is 1.3 steps below it
      (or there, without it), and each further line one step lower. */
  predicate LinesAt(t: TextLayout, textSize: real, h: real, leftMargin: real, topMargin: real,
                    atlas: bool, qualifier: string, n: nat)
    requires h != 0.0
  {
    var step := textSize / h * 1.30;
    var y0 := 1.0 - topMargin - LegendOffset - textSize / h * 1.0;
    var first := if atlas || |qualifier| > 0 then y0 - step * 1.30 else y0;
    && t.x == leftMargin + LegendOffset * 1.0
    && (t.atlasY.Some? <==> atlas || |qualifier| > 0)
    && (t.atlasY.Some? ==> t.atlasY.value == y0)
    && |t.ys| == n
    && forall i :: 0 <= i < n ==> t.ys[i] == first - i as real * step
  }

  /** The y cursor of `lines` (ap.py) and `text` (ap/pad.py): it starts one
      text height below the top margin and offset, steps down by 1.3 line
      steps after the ATLAS/qualifier line, then by one step per line.
      `Raised` when the height is 0. */
  method TextLinePositions(textSize: real, h: real, leftMargin: real, topMargin: real,
                           atlas: bool, qualifier: string, lines: seq<string>) returns (r: Result<TextLayout>)
    ensures r.Raised? <==> h == 0.0
    ensures r.Ok? ==> LinesAt(r.value, textSize, h, leftMargin, topMargin, atlas, qualifier, |lines|)
  {
    if h == 0.0 {
      return Raised;
    }
    var ystep := textSize / h * 1.30;
    var x := leftMargin + LegendOffset * 1.0;
    var y := 1.0 - topMargin - LegendOffset - textSize / h * 1.0;
    var atlasY: Option<real> := None;
    if atlas || |qualifier| > 0 {
      atlasY := Some(y);
      y := y - ystep * 1.30;
    }
    ghost var first := y;
    var ys: seq<real> := [];
    for i := 0 to |lines|
      invariant |ys| == i && y == first - i as real * ystep
      invariant forall j :: 0 <= j < i ==> ys[j] == first - j as real * ystep
    {
      ys := ys + [y];
      y := y - ystep;
    }
    r := Ok(TextLayout(x, atlasY, ys));
  }

  /** Placed lines are one step apart. */
  lemma LinesAtEvenlySpaced(t: TextLayout, textSize: real, h: real, leftMargin: real, topMargin: real,
                            atlas: bool, qualifier: string, n: nat)
    requires h != 0.0 && LinesAt(t, textSize, h, leftMargin, topMargin, atlas, qualifier, n)
    ensures forall i :: 0 < i < n ==> t.ys[i - 1] - t.ys[i] == textSize / h * 1.30
  {
    var step := textSize / h * 1.30;
    var y0 := 1.0 - topMargin - LegendOffset - textSize / h * 1.0;
    var first := if atlas || |qualifier| > 0 then y0 - step * 1.30 else y0;
    TextLinesEvenlySpaced(first, step, t.ys);
  }

  /** Consecutive lines are one step apart, so with a positive text size they
      run strictly downwards. */
  lemma TextLinesEvenlySpaced(first: real, step: real, ys: seq<real>)
    requires forall i :: 0 <= i < |ys| ==> ys[i] == first - i as real * step
    ensures forall i :: 0 < i < |ys| ==> ys[i - 1] - ys[i] == step
    ensures step > 0.0 ==> forall i, j :: 0 <= i < j < |ys| ==> ys[j] < ys[i]
  {
    if step > 0.0 {
      forall i, j | 0 <= i < j < |ys| ensures ys[j] < ys[i] {
        assert ys[i] - ys[j] == (j - i) as real * step;
      }
    }
  }

  // ---------------------------------------------------------------------
  // The y-axis range of `_update`
  // ---------------------------------------------------------------------

  function StackContents(stack: seq<Hist>): (r: seq<seq<real>>)
    ensures |r| == |stack| && forall i :: 0 <= i < |stack| ==> r[i] == stack[i].contents
  {
    seq(|stack|, i requires 0 <= i < |stack| => stack[i].contents)
  }

  /** The histograms of a stack share one binning. */
  predicate StackBinned(stack: seq<Hist>) {
    Bins.SameBinning(StackContents(stack))
  }

  /** A primitive as the tools functions see it. */
  function ToObj(p: Primitive, stack: seq<Hist>): (o: Tools.Obj)
    requires StackBinned(stack)
    ensures Tools.WellFormed(o)
  {
    match p
    case Single(h, _) => if h.kind == TH1 then Tools.Histogram(h.contents) else Tools.Graph(h.contents)
    case Stacked(_) => Tools.Stack(StackContents(stack))
  }

  function PrimMax(p: Primitive, stack: seq<Hist>): Option<real>
    requires StackBinned(stack)
  {
    Tools.GetMaximum(ToObj(p, stack))
  }

  /** `ymax` bounds the maximum of every primitive that has one, and is one
      of those maxima unless it is still the starting value. */
  predicate IsPrimitivesMax(prims: seq<Primitive>, stack: seq<Hist>, ymax: real)
    requires StackBinned(stack)
  {
    && ymax >= -FloatMax
    && (forall i :: 0 <= i < |prims| && PrimMax(prims[i], stack).Some? ==> PrimMax(prims[i], stack).value <= ymax)
    && (ymax == -FloatMax || exists i :: 0 <= i < |prims| && PrimMax(prims[i], stack) == Some(ymax))
  }

  /** `ymax = max(get_maximum(hist), ymax)` over the primitives, from minus
      the largest float. Python 2 orders `None` below every number, so a
      primitive without a maximum leaves `ymax` alone. */
  method PrimitivesMaximum(prims: seq<Primitive>, stack: seq<Hist>) returns (ymax: real)
    requires StackBinned(stack)
    ensures IsPrimitivesMax(prims, stack, ymax)
  {
    ymax := -FloatMax;
    for i := 0 to |prims|
      invariant ymax >= -FloatMax
      invariant forall j :: 0 <= j < i && PrimMax(prims[j], stack).Some? ==> PrimMax(prims[j], stack).value <= ymax
      invariant ymax == -FloatMax || exists j :: 0 <= j < i && PrimMax(prims[j], stack) == Some(ymax)
    {
      var m := Tools.GetMaximum(ToObj(prims[i], stack));
      if m.Some? && !(ymax > m.value) {
        ymax := m.value;
      }
    }
  }

  /** The linear range built from the primitives' maximum reaches above every
      non-negative maximum among them. */
  lemma LinearRangeAboveAll(prims: seq<Primitive>, stack: seq<Hist>, ymax: real, padding: real)
    requires StackBinned(stack) && IsPrimitivesMax(prims, stack, ymax)
    requires 0.0 < padding < 1.0
    ensures forall i :: 0 <= i < |prims| && PrimMax(prims[i], stack).Some? && PrimMax(prims[i], stack).value >= 0.0 ==>
      PrimMax(prims[i], stack).value <= LinearRange(ymax, padding).hi
  {
    LinearRangeCovers(ymax, padding);
  }

  /** Some primitive has a minimum: the list that `min` is taken over is not empty. */
  predicate HasMinimum(prims: seq<Primitive>, stack: seq<Hist>)
    requires StackBinned(stack)
  {
    exists i :: 0 <= i < |prims| && Tools.GetMinimum(ToObj(prims[i], stack)).Some?
  }

  /** The y range set on the first primitive: explicit or linear limits, or
      the logarithmic range from the positive minimum 2, the maximum and the
      padding, which is left symbolic. */
  datatype YRange = YRange(lo: real, hi: real) | LogRange(yminPositive: real, ymax: real, padding: real)

  /** `(0, ymax / (1 - padding))`. */
  function LinearRange(ymax: real, padding: real): (r: YRange)
    requires padding != 1.0
    ensures r.YRange? && r.lo == 0.0
  {
    YRange(0.0, ymax / (1.0 - padding))
  }

  /** With an accepted padding the linear range reaches above the maximum:
      the top `padding` share of the axis is left free. */
  lemma LinearRangeCovers(ymax: real, padding: real)
    requires 0.0 < padding < 1.0
    ensures LinearRange(ymax, padding).hi * (1.0 - padding) == ymax
    ensures ymax >= 0.0 ==> LinearRange(ymax, padding).hi >= ymax
  {
    var hi := LinearRange(ymax, padding).hi;
    assert hi * (1.0 - padding) == ymax;
    if ymax >= 0.0 {
      if hi < 0.0 {
        ProductNonNegative(0.0 - hi, 1.0 - padding);
      }
      assert hi - ymax == hi * padding;
      ProductNonNegative(hi, padding);
    }
  }
}
