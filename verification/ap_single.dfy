/** The canvas of the single-file `ap.py`, the first generation of the API:
    one object holds the pads, the primitives drawn on each, one list of
    legend entries, the stack, the padding and the y limits. ROOT drawing
    calls are left out; pixel sizes, margins and the text size are
    parameters. */
module Ap {

  import opened PyBase
  import opened PyStr
  import Bins
  import opened Layout
  import opened Drawing
  import ApPad
  import ApCanvas

  /** `_get_plot_option`: the default draw option of each plot type. A graph
      is drawn with its axes (`APL`); for a 2D histogram the warning raises,
      since the plain integers of `PlotType` have no `name`. */
  function PlotOption(t: PlotType): (r: Result<string>)
    ensures r.Raised? <==> t == Hist2DKind
    ensures r.Ok? ==> !AllSpace(r.value)
  {
    match t
    case PlotKind => assert !IsSpace("PE0"[0]); Ok("PE0")
    case HistKind => assert !IsSpace("HIST"[0]); Ok("HIST")
    case StackKind => assert !IsSpace("HIST"[0]); Ok("HIST")
    case GraphKind => assert !IsSpace("APL"[0]); Ok("APL")
    case Hist2DKind => Raised
  }

  /** `_get_label_option` of this version: on the upper-cased first token,
      `HIST` gives `L` (unfilled) or `F` (filled), then the shared tail.
      There is no branch for `L`. `None` where a blank option makes
      `split()[0]` raise. */
  function LabelOption(plotOption: string, fillColor: int): (r: Option<string>)
    ensures r.None? <==> AllSpace(plotOption)
    ensures r.Some? ==>
      var t := Upper(FirstToken(plotOption).value);
      && LegendLetters(r.value) && |r.value| <= 4
      && EndsWith(r.value, LabelTail(t))
      && |r.value| - |LabelTail(t)| == (if Contains(t, "HIST") then 1 else 0)
      && (Contains(t, "HIST") ==> r.value[0] == if fillColor == 0 then 'L' else 'F')
  {
    match FirstToken(plotOption)
    case None => None
    case Some(token) =>
      var t := Upper(token);
      var head := if Contains(t, "HIST") then (if fillColor == 0 then "L" else "F") else "";
      assert (head + LabelTail(t))[|head|..] == LabelTail(t);
      Some(head + LabelTail(t))
  }

  /** Only the first token counts, so the ` SAME` that `_plot1D` appends
      never changes the legend option. */
  lemma LabelOptionIgnoresSame(plotOption: string, fillColor: int)
    requires !AllSpace(plotOption)
    ensures LabelOption(plotOption + " SAME", fillColor) == LabelOption(plotOption, fillColor)
  {
    FirstTokenAppend(plotOption, " SAME");
  }

  /** This version and the `ap` package agree on every token without an `L`.
      With an `L` they agree only on an unfilled `HIST` token, where both
      start with `L` anyway. */
  lemma LabelOptionVersions(plotOption: string, fillColor: int)
    requires !AllSpace(plotOption)
    ensures var t := Upper(FirstToken(plotOption).value);
      'L' !in t ==> LabelOption(plotOption, fillColor) == ApPad.LabelOption(plotOption, fillColor)
    ensures var t := Upper(FirstToken(plotOption).value);
      'L' in t ==> (LabelOption(plotOption, fillColor) == ApPad.LabelOption(plotOption, fillColor)
                    <==> Contains(t, "HIST") && fillColor == 0)
  {
    var t := Upper(FirstToken(plotOption).value);
    var mine := LabelOption(plotOption, fillColor).value;
    var theirs := ApPad.LabelOption(plotOption, fillColor).value;
    if 'L' in t && !(Contains(t, "HIST") && fillColor == 0) {
      if Contains(t, "HIST") {
        assert mine[0] == 'F' && theirs[0] == 'L';
      } else {
        assert |mine| != |theirs|;
      }
    }
  }

  /** The default graph option `APL` gets the legend option `P`: without an
      `L` branch the line is not shown, where the `ap` package shows `LP`. */
  lemma GraphLabelOption(fillColor: int)
    ensures PlotOption(GraphKind).Ok? && LabelOption(PlotOption(GraphKind).value, fillColor) == Some("P")
  {
    WordLabelAPL(fillColor);
  }

  lemma PlotLabelOption(fillColor: int)
    ensures PlotOption(PlotKind).Ok? && LabelOption(PlotOption(PlotKind).value, fillColor) == Some("PEL")
  {
    WordLabelPE0(fillColor);
  }

  lemma HistLabelOption(fillColor: int)
    ensures PlotOption(HistKind).Ok? && LabelOption(PlotOption(HistKind).value, fillColor) == Some(if fillColor == 0 then "L" else "F")
  {
    WordLabelHIST(fillColor);
  }

  lemma WordLabelAPL(fillColor: int)
    ensures LabelOption("APL", fillColor) == Some("P")
  {
    FirstTokenOfWord("APL");
    TailOfAPL();
    NoEHist("APL");
    assert Upper("APL") == "APL";
  }

  lemma WordLabelPE0(fillColor: int)
    ensures LabelOption("PE0", fillColor) == Some("PEL")
  {
    FirstTokenOfWord("PE0");
    TailOfPE0();
    NoEHist("PE0");
    assert Upper("PE0") == "PE0";
  }

  lemma WordLabelHIST(fillColor: int)
    ensures LabelOption("HIST", fillColor) == Some(if fillColor == 0 then "L" else "F")
  {
    FirstTokenOfWord("HIST");
    TailOfHIST();
    assert Upper("HIST") == "HIST";
    assert Contains("HIST", "HIST");
    assert "L" + "" == "L" && "F" + "" == "F";
  }

  /** The suffix `_plot1D` appends to the draw option of a pad that already
      shows `drawn` primitives. */
  function SameSuffix(drawn: nat): string {
    if drawn > 0 then " SAME" else ""
  }

  /** The legend option of a suffixed draw option is that of the option. */
  lemma LabelOfSuffixed(option: string, drawn: nat, fillColor: int)
    requires !AllSpace(option)
    ensures LabelOption(option + SameSuffix(drawn), fillColor) == LabelOption(option, fillColor)
  {
    LabelOptionIgnoresSame(option, fillColor);
    if drawn == 0 {
      assert option + SameSuffix(drawn) == option;
    }
  }

  /** The argument of `ylim`: a list or tuple of limits, or anything else. */
  datatype YlimArg = Limits(values: seq<real>) | NotASequence

  /** The canvas of `ap.py`. `pads` are the pad rectangles; everything drawn
      is recorded per pad in `primitives`, while `entries`, `stack`,
      `padding` and `logScale` belong to the canvas as a whole. */
  class Canvas {
    const numPads: int
    const fraction: real
    const size: (int, int)
    const pads: seq<Rect>

    var primitives: seq<seq<Primitive>>
    var entries: seq<Entry>
    var padding: real
    var logScale: bool
    var ylims: seq<Option<(real, real)>>
    var stack: Option<seq<Hist>>

    /** One list of primitives and one limit slot per pad, the accepted
        padding, and a stack whose histograms share one binning. */
    ghost predicate Valid()
      reads this`primitives, this`ylims, this`padding, this`stack
    {
      && 1 <= numPads <= 2
      && |pads| == numPads && |primitives| == numPads && |ylims| == numPads
      && 0.0 < padding < 1.0
      && (stack.Some? ==> StackBinned(stack.value))
    }

    /** The histograms in the stack; none before the stack exists. */
    function StackHists(): seq<Hist>
      reads this
    {
      if stack.Some? then stack.value else []
    }

    /** Whether `h` can join the stack: the binning of the histograms already in it. */
    predicate StackAccepts(h: Hist)
      reads this
    {
      stack.Some? && |stack.value| > 0 ==> |h.contents| == |stack.value[0].contents|
    }

    /** The constructor: 1 or 2 pads; the fraction is kept only for two. The
        default height of a two-pad canvas divides by `1 - fraction`. The
        pads are laid out with the fraction as given, whatever the count. */
    constructor(numPads: int, size: Option<(int, int)>, fraction: real)
      requires 1 <= numPads <= 2
      requires numPads == 2 && size.None? ==> fraction != 1.0
      ensures Valid()
      ensures this.numPads == numPads
      ensures this.fraction == if numPads == 2 then fraction else 0.0
      ensures this.size == if size.Some? then size.value else ApCanvas.DefaultSize(numPads, fraction, true)
      ensures pads == ApCanvas.PadRects(numPads, fraction)
      ensures |primitives| == numPads && forall i :: 0 <= i < numPads ==> primitives[i] == []
      ensures |ylims| == numPads && forall i :: 0 <= i < numPads ==> ylims[i] == None
      ensures entries == [] && stack == None && padding == 0.4 && !logScale
    {
      this.numPads := numPads;
      this.fraction := if numPads == 2 then fraction else 0.0;
      this.size := if size.Some? then size.value else ApCanvas.DefaultSize(numPads, fraction, true);
      this.pads := ApCanvas.PadRects(numPads, fraction);
      primitives := seq(numPads, _ => []);
      ylims := seq(numPads, _ => None);
      entries := [];
      stack := None;
      padding := 0.4;
      logScale := false;
    }

    /** `lines`: the text positions on pad `idx`, whose window is `wh` pixels
        high, of which the main pad takes `1 - fraction`. `Raised` for a pad
        index Python cannot look up or a zero height. */
    method Lines(lines: seq<string>, qualifier: string, atlas: bool, idx: int,
                 textSize: real, wh: real, leftMargin: real, topMargin: real) returns (r: Result<TextLayout>)
      requires Valid()
      ensures r.Raised? <==> PyIndex(|pads|, idx).None? || wh * (1.0 - fraction) == 0.0
      ensures r.Ok? ==> r.value.x == leftMargin + LegendOffset
      ensures r.Ok? ==> |r.value.ys| == |lines| && (r.value.atlasY.Some? <==> atlas || |qualifier| > 0)
      ensures r.Ok? ==> forall i :: 0 < i < |lines| ==>
        r.value.ys[i - 1] - r.value.ys[i] == textSize / (wh * (1.0 - fraction)) * 1.30
      ensures r.Ok? ==> LinesAt(r.value, textSize, wh * (1.0 - fraction), leftMargin, topMargin, atlas, qualifier, |lines|)
    {
      if PyIndex(|pads|, idx).None? {
        return Raised;
      }
      var h := wh * (1.0 - fraction);
      r := TextLinePositions(textSize, h, leftMargin, topMargin, atlas, qualifier, lines);
      if r.Ok? {
        LinesAtEvenlySpaced(r.value, textSize, h, leftMargin, topMargin, atlas, qualifier, |lines|);
      }
    }

    /** `legend`: nothing without entries; otherwise the box on the main pad,
        whose height is `1 - fraction` of a `wh`-pixel window. The stack adds
        no row. */
    method Legend(header: Option<string>, categories: nat, args: LegendArgs, m: Margins, fontsize: real, wh: real)
      returns (r: Result<Option<Box>>)
      requires Valid()
      ensures |entries| == 0 ==> r == Ok(None)
      ensures |entries| > 0 ==> r == LegendBox(|entries|, header, categories, args, m, fontsize, wh * (1.0 - fraction))
      ensures |entries| > 0 ==> (r.Raised? <==> wh * (1.0 - fraction) == 0.0)
    {
      if |entries| == 0 {
        return Ok(None);
      }
      r := LegendBox(|entries|, header, categories, args, m, fontsize, wh * (1.0 - fraction));
    }

    /** `_plot1D` for a histogram or graph on pad `idx`: the index must name a
        pad; then scale, reset and style, and, if displayed, record it with
        ` SAME` appended exactly when the pad already shows something, and
        file its legend entry. */
    method Plot1D(h: Hist, idx: int, option: string, display: bool, scaleBy: Option<real>,
                  caption: Option<string>, style: StyleArgs) returns (r: Result<Hist>)
      requires Valid()
      modifies this`primitives, this`entries
      ensures Valid()
      ensures !(0 <= idx < numPads) || AllSpace(option) ==> r.Raised? && primitives == old(primitives) && entries == old(entries)
      ensures 0 <= idx < numPads && !AllSpace(option) ==> r == Prepared(h, scaleBy, option, style)
      ensures r.Ok? ==>
        primitives == (if display then old(primitives)[idx := old(primitives)[idx] + [Single(r.value, option + SameSuffix(|old(primitives)[idx]|))]]
                       else old(primitives))
      ensures r.Ok? ==>
        entries == (if display && caption.Some?
                    then AddEntry(old(entries), Entry(r.value, caption.value, LabelOption(option, r.value.fillColor).value))
                    else old(entries))
    {
      if !(0 <= idx < numPads) {
        return Raised;
      }
      r := Prepared(h, scaleBy, option, style);
      if r.Ok? && display {
        var drawn := |primitives[idx]|;
        RecordPrimitive(idx, Single(r.value, option + SameSuffix(drawn)));
        if caption.Some? {
          FileEntry(r.value, caption.value, option, drawn);
        }
      }
    }

    /** A displayed primitive is recorded on its pad. */
    method RecordPrimitive(idx: int, p: Primitive)
      requires Valid() && 0 <= idx < numPads
      modifies this`primitives
      ensures Valid()
      ensures primitives == old(primitives)[idx := old(primitives)[idx] + [p]]
    {
      primitives := primitives[idx := primitives[idx] + [p]];
    }

    /** The legend entry of a displayed histogram, filed with the legend
        option of its draw option as suffixed for a pad showing `drawn`
        primitives, which is the legend option of the option itself. */
    method FileEntry(h: Hist, caption: string, option: string, drawn: nat)
      requires !AllSpace(option)
      modifies this`entries
      ensures entries == AddEntry(old(entries), Entry(h, caption, LabelOption(option, h.fillColor).value))
    {
      var opt := option + SameSuffix(drawn);
      LabelOfSuffixed(option, drawn, h.fillColor);
      entries := AddEntry(entries, Entry(h, caption, LabelOption(opt, h.fillColor).value));
    }

    /** `_plot1D` called with the canvas's stack on pad `idx`: no scaling,
        styling or legend entry, only the recorded draw. */
    method DrawStack(idx: int, option: string, display: bool) returns (ok: bool)
      requires Valid()
      modifies this`primitives
      ensures Valid()
      ensures ok <==> 0 <= idx < numPads
      ensures primitives == if ok && display
                            then old(primitives)[idx := old(primitives)[idx] +
                                   [Stacked(option + SameSuffix(|old(primitives)[idx]|))]]
                            else old(primitives)
    {
      ok := 0 <= idx < numPads;
      if ok && display {
        primitives := primitives[idx := primitives[idx] + [Stacked(option + SameSuffix(|primitives[idx]|))]];
      }
    }

    /** `_add_to_stack`: true exactly when the stack did not exist before;
        the histogram is always added at the end. */
    method AddToStack(h: Hist) returns (first: bool)
      requires Valid() && StackAccepts(h)
      modifies this`stack
      ensures Valid()
      ensures first <==> old(stack).None?
      ensures stack == Some(old(StackHists()) + [h])
    {
      first := stack.None?;
      var hs := StackHists() + [h];
      assert StackContents(hs) == StackContents(StackHists()) + [h.contents];
      stack := Some(hs);
    }

    /** `_plot1D_stack`: the entry goes behind a leading data entry, in front
        of every earlier stacked one; the first histogram stacked draws the
        stack on pad `idx`. A bad index raises only then, after the entry and
        the stack were already updated. */
    method Plot1DStack(h: Hist, idx: int, option: string, display: bool, caption: Option<string>)
      returns (r: Result<Hist>)
      requires Valid() && StackAccepts(h)
      modifies this`primitives, this`entries, this`stack
      ensures Valid()
      ensures caption.Some? && AllSpace(option) ==> r.Raised? && unchanged(this)
      ensures !(caption.Some? && AllSpace(option)) ==>
        && (r.Raised? <==> old(stack).None? && !(0 <= idx < numPads))
        && (r.Ok? ==> r.value == h)
        && entries == (if caption.Some?
                       then AddStackedEntry(old(entries), Entry(h, caption.value, LabelOption(option, h.fillColor).value))
                       else old(entries))
        && stack == Some(old(StackHists()) + [h])
        && primitives == (if old(stack).None? && display && 0 <= idx < numPads
                          then old(primitives)[idx := old(primitives)[idx] +
                                 [Stacked(option + SameSuffix(|old(primitives)[idx]|))]]
                          else old(primitives))
    {
      if caption.Some? {
        var opt := LabelOption(option, h.fillColor);
        if opt.None? {
          return Raised;
        }
        entries := AddStackedEntry(entries, Entry(h, caption.value, opt.value));
      }
      var first := AddToStack(h);
      r := Ok(h);
      if first {
        var ok := DrawStack(idx, option, display);
        if !ok {
          r := Raised;
        }
      }
    }

    /** `_ratio_plot1D`: the bin-wise ratio of a clone of `num` to `den`,
        drawn on the second pad like any histogram (so a one-pad canvas
        raises); a `scale` keyword is passed on and applies to the ratio. */
    method RatioPlot1D(num: Hist, den: Hist, option: string, display: bool, scaleBy: Option<real>,
                       caption: Option<string>, style: StyleArgs) returns (r: Result<Hist>)
      requires Valid()
      requires |num.errors| == |num.contents| && |den.contents| == |num.contents|
      modifies this`primitives, this`entries
      ensures Valid()
      ensures r.Raised? <==> numPads < 2 || AllSpace(option)
      ensures r.Raised? ==> unchanged(this)
      ensures r.Ok? ==> |r.value.contents| == |num.contents| && |r.value.errors| == |num.contents|
      ensures r.Ok? ==> ScaledRatio(num, den, r.value, scaleBy)
      ensures r.Ok? ==>
        primitives == (if display then old(primitives)[1 := old(primitives)[1] + [Single(r.value, option + SameSuffix(|old(primitives)[1]|))]]
                       else old(primitives))
      ensures r.Ok? ==>
        entries == (if display && caption.Some?
                    then AddEntry(old(entries), Entry(r.value, caption.value, LabelOption(option, r.value.fillColor).value))
                    else old(entries))
    {
      var ratio := RatioHist(num, den);
      if !AllSpace(option) {
        PreparedRatioBins(num, den, ratio, scaleBy, option, style);
      }
      r := Plot1D(ratio, 1, option, display, scaleBy, caption, style);
    }

    /** `ylim`: a value that is not a list or tuple is ignored (`Ok(false)`);
        a bad pad index or a length other than two raises; otherwise only the
        limits of pad `idx` are replaced. */
    method SetYlim(arg: YlimArg, idx: int) returns (r: Result<bool>)
      requires Valid()
      modifies this`ylims
      ensures Valid()
      ensures arg.NotASequence? ==> r == Ok(false) && ylims == old(ylims)
      ensures arg.Limits? && !(0 <= idx < numPads && |arg.values| == 2) ==> r.Raised? && ylims == old(ylims)
      ensures arg.Limits? && 0 <= idx < numPads && |arg.values| == 2 ==>
        r == Ok(true) && ylims == old(ylims)[idx := Some((arg.values[0], arg.values[1]))]
    {
      match arg
      case NotASequence =>
        return Ok(false);
      case Limits(values) =>
        if !(0 <= idx < numPads) || |values| != 2 {
          return Raised;
        }
        ylims := ylims[idx := Some((values[0], values[1]))];
        r := Ok(true);
    }

    /** `padding`: accepted only strictly between 0 and 1. */
    method SetPadding(p: real) returns (ok: bool)
      requires Valid()
      modifies this`padding
      ensures Valid()
      ensures ok <==> 0.0 < p < 1.0
      ensures padding == if ok then p else old(padding)
    {
      ok := 0.0 < p && p < 1.0;
      if ok {
        padding := p;
      }
    }

    /** `getStackSum`: `None` without a stack, else the bin-wise total. */
    method GetStackSum() returns (r: Option<seq<real>>)
      requires Valid()
      ensures r.None? <==> StackHists() == []
      ensures r.Some? ==> |r.value| == |StackHists()[0].contents|
      ensures r.Some? ==> forall b :: 0 <= b < |r.value| ==> r.value[b] == Bins.ColumnSum(StackContents(StackHists()), b)
    {
      if stack.None? {
        return None;
      }
      var hs := StackContents(stack.value);
      r := Bins.StackSum(hs);
      if r.Some? {
        forall b | 0 <= b < |r.value| ensures r.value[b] == Bins.ColumnSum(hs, b) {
          Bins.SumOfAt(hs, b);
        }
      }
    }

    /** The y range `_update` sets on the main pad: the stored limits, or,
        after `min` over the primitives' minima (which raises when none has
        one), a range built from the largest maximum: the logarithmic one from
        2 up, or the linear one. */
    method AxisRange() returns (r: Result<YRange>)
      requires Valid()
      ensures ylims[0].Some? ==> r == Ok(YRange(ylims[0].value.0, ylims[0].value.1))
      ensures ylims[0].None? ==> (r.Raised? <==> !HasMinimum(primitives[0], StackHists()))
      ensures ylims[0].None? && r.Ok? ==>
        exists ymax :: (IsPrimitivesMax(primitives[0], StackHists(), ymax) &&
                        r.value == if logScale then LogRange(2.0, ymax, padding) else LinearRange(ymax, padding))
    {
      if ylims[0].Some? {
        return Ok(YRange(ylims[0].value.0, ylims[0].value.1));
      }
      if !HasMinimum(primitives[0], StackHists()) {
        return Raised;
      }
      var ymax := PrimitivesMaximum(primitives[0], StackHists());
      r := Ok(if logScale then LogRange(2.0, ymax, padding) else LinearRange(ymax, padding));
    }
  }
}
