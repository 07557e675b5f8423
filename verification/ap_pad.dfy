/** The pad class of the `ap` package (ap/pad.py): what a pad remembers of
    what was drawn on it (primitives, legend entries, its stack) and the
    options, legend box, text cursor and y range it derives from that. ROOT
    drawing calls are left out; pixel sizes and margins are parameters. */
module ApPad {

  import opened PyBase
  import opened PyStr
  import Bins
  import opened Layout
  import opened Drawing

  /** `_get_plot_option`: the default draw option of each plot type. A 2D
      histogram is not recognised, and its warning raises: `PlotType` holds
      plain integers, which have no `name`. */
  function PlotOption(t: PlotType): (r: Result<string>)
    ensures r.Raised? <==> t == Hist2DKind
    ensures r.Ok? ==> !AllSpace(r.value)
  {
    match t
    case PlotKind => assert !IsSpace("PE0"[0]); Ok("PE0")
    case HistKind => assert !IsSpace("HIST"[0]); Ok("HIST")
    case StackKind => assert !IsSpace("HIST"[0]); Ok("HIST")
    case GraphKind => assert !IsSpace("PL"[0]); Ok("PL")
    case Hist2DKind => Raised
  }

  /** `_get_label_option` of this version, for a histogram with fill colour
      `fillColor`: on the upper-cased first token, an `L` gives `L`, else
      `HIST` gives `L` (unfilled) or `F` (filled); the shared tail follows.
      `None` where a blank option makes `split()[0]` raise. */
  function LabelOption(plotOption: string, fillColor: int): (r: Option<string>)
    ensures r.None? <==> AllSpace(plotOption)
    ensures r.Some? ==>
      var t := Upper(FirstToken(plotOption).value);
      && LegendLetters(r.value) && |r.value| <= 4
      && EndsWith(r.value, LabelTail(t))
      && |r.value| - |LabelTail(t)| == (if 'L' in t || Contains(t, "HIST") then 1 else 0)
      && ('L' in t ==> r.value[0] == 'L')
      && ('L' !in t && Contains(t, "HIST") ==> r.value[0] == if fillColor == 0 then 'L' else 'F')
  {
    match FirstToken(plotOption)
    case None => None
    case Some(token) =>
      var t := Upper(token);
      var head := if 'L' in t then "L"
                  else if Contains(t, "HIST") then (if fillColor == 0 then "L" else "F")
                  else "";
      assert (head + LabelTail(t))[|head|..] == LabelTail(t);
      Some(head + LabelTail(t))
  }

  /** The legend option depends only on the first token, so the ` SAME` and
      ` ][ SAME` suffixes `_plot1D` appends never change it. */
  lemma LabelOptionIgnoresSame(plotOption: string, fillColor: int)
    requires !AllSpace(plotOption)
    ensures LabelOption(plotOption + " SAME", fillColor) == LabelOption(plotOption, fillColor)
    ensures LabelOption(plotOption + " ][ SAME", fillColor) == LabelOption(plotOption, fillColor)
  {
    FirstTokenAppend(plotOption, " SAME");
    FirstTokenAppend(plotOption, " ][ SAME");
  }

  /** The legend options of the default draw options: a graph (`PL`) is shown
      with line and marker, a plot (`PE0`) with marker and error bar, a
      histogram with a line or a fill box. */
  lemma GraphLabelOption(fillColor: int)
    ensures PlotOption(GraphKind).Ok? && LabelOption(PlotOption(GraphKind).value, fillColor) == Some("LP")
  {
    WordLabelPL(fillColor);
  }

  lemma PlotLabelOption(fillColor: int)
    ensures PlotOption(PlotKind).Ok? && LabelOption(PlotOption(PlotKind).value, fillColor) == Some("PEL")
  {
    WordLabelPE0(fillColor);
  }

  lemma HistLabelOption(fillColor: int)
    ensures PlotOption(HistKind).Ok? && LabelOption(PlotOption(HistKind).value, fillColor) == Some(if fillColor == 0 then "L" else "F")
  {
    WordLabelHIST(fillColor);
  }

  lemma WordLabelPL(fillColor: int)
    ensures LabelOption("PL", fillColor) == Some("LP")
  {
    FirstTokenOfWord("PL");
    TailOfPL();
    assert Upper("PL") == "PL";
    assert 'L' in "PL";
    assert "L" + "P" == "LP";
  }

  lemma WordLabelPE0(fillColor: int)
    ensures LabelOption("PE0", fillColor) == Some("PEL")
  {
    FirstTokenOfWord("PE0");
    TailOfPE0();
    NoEHist("PE0");
    assert Upper("PE0") == "PE0";
    assert 'L' !in "PE0";
  }

  lemma WordLabelHIST(fillColor: int)
    ensures LabelOption("HIST", fillColor) == Some(if fillColor == 0 then "L" else "F")
  {
    FirstTokenOfWord("HIST");
    TailOfHIST();
    assert Upper("HIST") == "HIST";
    assert 'L' !in "HIST" && Contains("HIST", "HIST");
    assert "L" + "" == "L" && "F" + "" == "F";
  }

  /** The suffix `_plot1D` appends to the draw option. */
  function SameSuffix(overlay: bool, drawn: nat): string {
    if overlay then " ][ SAME" else if drawn > 0 then " SAME" else ""
  }

  /** The legend option of a suffixed draw option is that of the option. */
  lemma LabelOfSuffixed(option: string, overlay: bool, drawn: nat, fillColor: int)
    requires !AllSpace(option)
    ensures LabelOption(option + SameSuffix(overlay, drawn), fillColor) == LabelOption(option, fillColor)
  {
    LabelOptionIgnoresSame(option, fillColor);
    if SameSuffix(overlay, drawn) == "" {
      assert option + SameSuffix(overlay, drawn) == option;
    }
  }

  /** The entries of a list of pads, one pad after the other. */
  function ConcatEntries(pads: seq<Pad>): (r: seq<Entry>)
    reads pads
  {
    if |pads| == 0 then [] else ConcatEntries(pads[..|pads| - 1]) + pads[|pads| - 1].entries
  }

  /** Every entry of every pad in the list occurs in their concatenation. */
  lemma {:induction false} ConcatEntriesHasAll(pads: seq<Pad>, k: nat, j: nat)
    requires k < |pads| && j < |pads[k].entries|
    ensures pads[k].entries[j] in ConcatEntries(pads)
  {
    var init := pads[..|pads| - 1];
    if k < |pads| - 1 {
      assert init[k] == pads[k];
      ConcatEntriesHasAll(init, k, j);
    }
  }

  /** The number of entries of a list of pads. */
  function EntryCount(pads: seq<Pad>): nat
    reads pads
  {
    if |pads| == 0 then 0 else EntryCount(pads[..|pads| - 1]) + |pads[|pads| - 1].entries|
  }

  /** The concatenation holds nothing but the pads' entries: its length is
      their total, and each of its entries comes from some pad. */
  lemma {:induction false} ConcatEntriesOnlyFromPads(pads: seq<Pad>)
    ensures |ConcatEntries(pads)| == EntryCount(pads)
    ensures forall e :: e in ConcatEntries(pads) ==> exists k :: 0 <= k < |pads| && e in pads[k].entries
  {
    if |pads| > 0 {
      var init := pads[..|pads| - 1];
      ConcatEntriesOnlyFromPads(init);
      forall e | e in ConcatEntries(pads)
        ensures exists k :: 0 <= k < |pads| && e in pads[k].entries
      {
        if e in ConcatEntries(init) {
          var k :| 0 <= k < |init| && e in init[k].entries;
          assert pads[k] == init[k];
        } else {
          assert e in pads[|pads| - 1].entries;
        }
      }
    }
  }

  /** A pad of the `ap` package. `overlay` is what `is_overlay(self)`
      answers for it: overlay pads are a subclass defined outside this model. */
  class Pad {
    const coords: seq<real>
    const scale: (real, real)
    const overlay: bool

    var primitives: seq<Primitive>
    var entries: seq<Entry>
    var stack: Option<seq<Hist>>
    var legend: Option<Box>
    var children: seq<Pad>
    var padding: real
    var logScale: bool
    var ylim: Option<(real, real)>

    /** The constructor's coordinate check and scale, the accepted padding,
        and a stack whose histograms share one binning. */
    ghost predicate Valid()
      reads this`padding, this`stack
    {
      && ValidCoords(coords) && scale == PadScale(coords)
      && 0.0 < padding < 1.0
      && (stack.Some? ==> StackBinned(stack.value))
    }

    /** The histograms in the stack; none before the stack exists. */
    function StackHists(): seq<Hist>
      reads this`stack
    {
      if stack.Some? then stack.value else []
    }

    /** Whether `h` can join the stack: the binning of the histograms already in it. */
    predicate StackAccepts(h: Hist)
      reads this`stack
    {
      stack.Some? && |stack.value| > 0 ==> |h.contents| == |stack.value[0].contents|
    }

    constructor(coords: seq<real>, overlay: bool)
      requires ValidCoords(coords)
      ensures Valid()
      ensures this.coords == coords && this.overlay == overlay
      ensures primitives == [] && entries == [] && stack == None && legend == None && children == []
      ensures padding == 0.4 && !logScale && ylim == None
    {
      this.coords := coords;
      this.scale := PadScale(coords);
      this.overlay := overlay;
      primitives := [];
      entries := [];
      stack := None;
      legend := None;
      children := [];
      padding := 0.4;
      logScale := false;
      ylim := None;
    }

    /** `_get_all_entries`: the pad's own entries, then its children's. */
    function AllEntries(): (r: seq<Entry>)
      reads this, children
      ensures |r| >= |entries| && r[..|entries|] == entries
      ensures forall k, j :: 0 <= k < |children| && 0 <= j < |children[k].entries| ==> children[k].entries[j] in r
      ensures |r| == |entries| + EntryCount(children)
      ensures forall e :: e in r ==> e in entries || exists k :: 0 <= k < |children| && e in children[k].entries
    {
      var rest := ConcatEntries(children);
      ConcatEntriesOnlyFromPads(children);
      forall k, j | 0 <= k < |children| && 0 <= j < |children[k].entries|
        ensures children[k].entries[j] in rest
      {
        ConcatEntriesHasAll(children, k, j);
      }
      entries + rest
    }

    /** `_plot1D` for a histogram or graph: scale, reset and style it, then,
        if it is displayed, record it with ` SAME` appended when something is
        already drawn (` ][ SAME` on an overlay) and file its legend entry. */
    method Plot1D(h: Hist, option: string, display: bool, scaleBy: Option<real>, caption: Option<string>, style: StyleArgs)
      returns (r: Result<Hist>)
      requires Valid()
      modifies this`primitives, this`entries
      ensures Valid()
      ensures AllSpace(option) ==> r.Raised? && unchanged(this)
      ensures r == Prepared(h, scaleBy, option, style)
      ensures r.Ok? ==>
        primitives == (if display then old(primitives) + [Single(r.value, option + SameSuffix(overlay, |old(primitives)|))]
                       else old(primitives))
      ensures r.Ok? ==>
        entries == (if display && caption.Some?
                    then AddEntry(old(entries), Entry(r.value, caption.value, LabelOption(option, r.value.fillColor).value))
                    else old(entries))
    {
      r := Prepared(h, scaleBy, option, style);
      if r.Ok? && display {
        var drawn := |primitives|;
        primitives := primitives + [Single(r.value, option + SameSuffix(overlay, drawn))];
        if caption.Some? {
          FileEntry(r.value, caption.value, option, drawn);
        }
      }
    }

    /** The legend entry of a drawn histogram, with the legend option of the
        draw option as recorded (the ` SAME` suffix does not change it). */
    method FileEntry(h: Hist, caption: string, option: string, drawn: nat)
      requires !AllSpace(option)
      modifies this`entries
      ensures entries == AddEntry(old(entries), Entry(h, caption, LabelOption(option, h.fillColor).value))
    {
      LabelOfSuffixed(option, overlay, drawn, h.fillColor);
      var opt := option + SameSuffix(overlay, drawn);
      entries := AddEntry(entries, Entry(h, caption, LabelOption(opt, h.fillColor).value));
    }

    /** `_plot1D` called with the pad's own stack: no scaling, styling or
        legend entry, only the recorded draw. */
    method DrawStack(option: string, display: bool)
      requires Valid()
      modifies this`primitives
      ensures Valid()
      ensures primitives == old(primitives) + (if display then [Stacked(option + SameSuffix(overlay, |old(primitives)|))] else [])
    {
      if display {
        primitives := primitives + [Stacked(option + SameSuffix(overlay, |primitives|))];
      }
    }

    /** `_add_to_stack`: true exactly when the stack did not exist before;
        the histogram is always added at the end. */
    method AddToStack(h: Hist) returns (first: bool)
      requires Valid() && StackAccepts(h)
      modifies this`stack
      ensures Valid()
      ensures first <==> old(stack).None?
      ensures stack == Some(old(StackHists()) + [h])
    {
      first := stack.None?;
      var hs := StackHists() + [h];
      assert StackContents(hs) == StackContents(StackHists()) + [h.contents];
      stack := Some(hs);
    }

    /** `_plot1D_stack`: the entry goes behind a leading data entry, in front
        of every earlier stacked one; the first histogram stacked draws the
        stack itself. */
    method Plot1DStack(h: Hist, option: string, display: bool, caption: Option<string>) returns (r: Result<Hist>)
      requires Valid() && StackAccepts(h)
      modifies this`primitives, this`entries, this`stack
      ensures Valid()
      ensures caption.Some? && AllSpace(option) ==> r.Raised? && unchanged(this)
      ensures !(caption.Some? && AllSpace(option)) ==>
        && r == Ok(h)
        && entries == (if caption.Some?
                       then AddStackedEntry(old(entries), Entry(h, caption.value, LabelOption(option, h.fillColor).value))
                       else old(entries))
        && stack == Some(old(StackHists()) + [h])
        && primitives == old(primitives) + (if old(stack).None? && display
                                            then [Stacked(option + SameSuffix(overlay, |old(primitives)|))] else [])
    {
      if caption.Some? {
        var opt := LabelOption(option, h.fillColor);
        if opt.None? {
          return Raised;
        }
        entries := AddStackedEntry(entries, Entry(h, caption.value, opt.value));
      }
      var first := AddToStack(h);
      if first {
        DrawStack(option, display);
      }
      r := Ok(h);
    }

    /** `_ratio_plot1D`: the bin-wise ratio of a clone of `num` to `den`,
        then drawn like any histogram, with the keywords (among them `scale`)
        passed on to `_plot1D`. */
    method RatioPlot1D(num: Hist, den: Hist, option: string, display: bool, scaleBy: Option<real>,
                       caption: Option<string>, style: StyleArgs) returns (r: Result<Hist>)
      requires Valid()
      requires |num.errors| == |num.contents| && |den.contents| == |num.contents|
      modifies this`primitives, this`entries
      ensures Valid()
      ensures r.Raised? <==> AllSpace(option)
      ensures r.Raised? ==> unchanged(this)
      ensures r.Ok? ==> |r.value.contents| == |num.contents| && |r.value.errors| == |num.contents|
      ensures r.Ok? ==> ScaledRatio(num, den, r.value, scaleBy)
      ensures r.Ok? ==>
        primitives == (if display then old(primitives) + [Single(r.value, option + SameSuffix(overlay, |old(primitives)|))]
                       else old(primitives))
      ensures r.Ok? ==>
        entries == (if display && caption.Some?
                    then AddEntry(old(entries), Entry(r.value, caption.value, LabelOption(option, r.value.fillColor).value))
                    else old(entries))
    {
      var ratio := RatioHist(num, den);
      if !AllSpace(option) {
        PreparedRatioBins(num, den, ratio, scaleBy, option, style);
      }
      r := Plot1D(ratio, option, display, scaleBy, caption, style);
    }

    /** `padding`: accepted only strictly between 0 and 1. */
    method SetPadding(p: real) returns (ok: bool)
      requires Valid()
      modifies this`padding
      ensures Valid()
      ensures ok <==> 0.0 < p < 1.0
      ensures padding == if ok then p else old(padding)
    {
      ok := 0.0 < p && p < 1.0;
      if ok {
        padding := p;
      }
    }

    /** `ylim(*args)`: exactly two limits are stored; anything else raises. */
    method SetYlim(args: seq<real>) returns (ok: bool)
      requires Valid()
      modifies this`ylim
      ensures Valid()
      ensures ok <==> |args| == 2
      ensures ylim == if ok then Some((args[0], args[1])) else old(ylim)
    {
      ok := |args| == 2;
      if ok {
        ylim := Some((args[0], args[1]));
      }
    }

    /** `legend`: nothing to show or a legend already there leaves the pad as
        it is; otherwise the box is derived for a pad `wh` pixels high. */
    method Legend(header: Option<string>, categories: nat, args: LegendArgs, m: Margins, fontsize: real, wh: real)
      returns (r: Result<Option<Box>>)
      requires Valid()
      modifies this`legend
      ensures Valid()
      ensures |old(AllEntries())| == 0 || old(legend).Some? ==> r == Ok(None) && legend == old(legend)
      ensures |old(AllEntries())| > 0 && old(legend).None? ==>
        && r == LegendBox(|old(AllEntries())|, header, categories, args, m, fontsize, wh / scale.1)
        && legend == (if r.Ok? && r.value.Some? then r.value else None)
      ensures |old(AllEntries())| > 0 && old(legend).None? ==> (r.Raised? <==> wh == 0.0)
    {
      var n := |AllEntries()|;
      if n == 0 || legend.Some? {
        return Ok(None);
      }
      r := LegendBox(n, header, categories, args, m, fontsize, wh / scale.1);
      if r.Ok? && r.value.Some? {
        legend := r.value;
      }
    }

    /** `text`: the line positions for a pad `wh` pixels high. */
    method Text(lines: seq<string>, qualifier: string, atlas: bool, textSize: real, wh: real,
                leftMargin: real, topMargin: real) returns (r: Result<TextLayout>)
      requires Valid()
      ensures r.Raised? <==> wh == 0.0
      ensures r.Ok? ==> |r.value.ys| == |lines| && (r.value.atlasY.Some? <==> atlas || |qualifier| > 0)
      ensures r.Ok? ==> forall i :: 0 < i < |lines| ==> r.value.ys[i - 1] - r.value.ys[i] == textSize / (wh / scale.1) * 1.30
      ensures r.Ok? ==> LinesAt(r.value, textSize, wh / scale.1, leftMargin, topMargin, atlas, qualifier, |lines|)
    {
      r := TextLinePositions(textSize, wh / scale.1, leftMargin, topMargin, atlas, qualifier, lines);
      if r.Ok? {
        LinesAtEvenlySpaced(r.value, textSize, wh / scale.1, leftMargin, topMargin, atlas, qualifier, |lines|);
      }
    }

    /** `getStackSum`: `None` without a stack, else the bin-wise total. */
    method GetStackSum() returns (r: Option<seq<real>>)
      requires Valid()
      ensures r.None? <==> StackHists() == []
      ensures r.Some? ==> |r.value| == |StackHists()[0].contents|
      ensures r.Some? ==> forall b :: 0 <= b < |r.value| ==> r.value[b] == Bins.ColumnSum(StackContents(StackHists()), b)
    {
      if stack.None? {
        return None;
      }
      var hs := StackContents(stack.value);
      r := Bins.StackSum(hs);
      if r.Some? {
        forall b | 0 <= b < |r.value| ensures r.value[b] == Bins.ColumnSum(hs, b) {
          Bins.SumOfAt(hs, b);
        }
      }
    }

    /** The y range `_update` sets: none with nothing drawn, the stored
        limits, or a range built from the largest maximum of the primitives:
        the logarithmic one from 2 up, or the linear one. */
    method AxisRange() returns (r: Option<YRange>)
      requires Valid()
      ensures r.None? <==> |primitives| == 0
      ensures r.Some? && ylim.Some? ==> r.value == YRange(ylim.value.0, ylim.value.1)
      ensures r.Some? && ylim.None? ==>
        exists ymax :: (IsPrimitivesMax(primitives, StackHists(), ymax) &&
                        r.value == if logScale then LogRange(2.0, ymax, padding) else LinearRange(ymax, padding))
    {
      if |primitives| == 0 {
        return None;
      }
      if ylim.Some? {
        return Some(YRange(ylim.value.0, ylim.value.1));
      }
      var ymax := PrimitivesMaximum(primitives, StackHists());
      r := Some(if logScale then LogRange(2.0, ymax, padding) else LinearRange(ymax, padding));
    }
  }
}
