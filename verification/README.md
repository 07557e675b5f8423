# rootplotting in Dafny

rootplotting is a thin plotting layer over ROOT for ATLAS-style figures. It
comes in three generations of the same API:

- the single-file `ap.py`, with one `canvas` class;
- the `ap` package, where a `canvas` delegates to `pad` objects;
- the `rootplotting` package.

This project models the bookkeeping and arithmetic those layers add on top of
ROOT:

- how a draw option becomes a legend option;
- the order of legend entries, with a "data" entry first and stacked entries
  reversed;
- the stack and its sum;
- the bin-wise ratio histogram;
- the legend box and the text-line cursor;
- the linear y-axis range;
- the pad layouts: the two-pad split, fractions stacked top to bottom, and the
  regular grid;
- the pad index every deferred call resolves to;
- the de-duplicated boundary lines of a region;
- the bin-content queries of both tools modules, and snapping to a bin edge;
- the per-line logic of the cross-section reader `loadXsec`.

Histograms are values: a `Hist` holds its kind, bin contents for bins 1..N,
errors, fill colour and marker attributes. Classes whose fields the source
updates in place are Dafny classes: `ApPad.Pad`, `ApCanvas.Canvas`,
`Ap.Canvas` and `RpCanvas.Canvas`. Each class method states its new state
with `modifies` on exactly the fields it writes.

Python semantics are written out:

| Python | Model |
|---|---|
| `None` | `Option` |
| an exception | the `Raised` case of `Result` |
| truthiness of numbers (`0.0` is false) | `Truthy` |
| `int()` truncation | `Trunc` |
| floor `//` and `%` | `FloorDiv`, `FloorMod` |
| `np.finfo(float).max`, called `inf` | `FloatMax` |
| Python 2 ordering: `None` below every number | the maximum loops |
| Python 2 ordering: an `int` below any `list` | `IndexAllowed` |

A constructor cannot return a result, so the assertions in constructors, and the divisions by zero their arguments can cause, become preconditions. ROOT's demand that histograms added to a stack share a binning, and the ratio's reading of the denominator bin by bin, are preconditions too. Every other raise is modelled as a result. The list of what is left out below names each such precondition.

Modules, one per file:

| Module | File | Covers |
|---|---|---|
| `PyBase` | `py_base.dfy` | Python value semantics |
| `PyStr` | `py_str.dfy` | the `str` methods used |
| `Bins` | `bins.dfy` | max, min and stack sum over bin contents |
| `Tools` | `tools.dfy` | `tools.py` |
| `RpTools` | `rp_tools.dfy` | `rootplotting/tools.py` |
| `Layout` | `layout.dfy` | pad rectangles and `defer` |
| `Drawing` | `drawing.dfy` | rules `ap.py` and `ap/pad.py` share |
| `ApPad` | `ap_pad.dfy` | `ap/pad.py` |
| `ApCanvas` | `ap_canvas.dfy` | `ap/canvas.py` |
| `Ap` | `ap_single.dfy` | `ap.py` |
| `RpCanvas` | `rp_canvas.dfy` | `rootplotting/canvas.py` |

## Model

| member | source | states |
|---|---|---|
| PyBase.Trunc | ap/canvas.py:48 | `int(x)` truncates toward zero: the result is within one of `x`, at or below it for `x >= 0` and at or above it for `x < 0` |
| PyBase.FloorDiv | rootplotting/canvas.py:92 | `a // b` rounds toward minus infinity, for either sign of `b` |
| PyBase.FloorMod | rootplotting/canvas.py:91 | `a % b` completes `a == b * (a // b) + r`, and the remainder takes the sign of the divisor |
| PyStr.Strip | tools.py:39 | `strip()` is the slice of the string left once a leading and a trailing run of blanks are cut; it is empty exactly for an all-blank string and otherwise neither starts nor ends with a blank |
| PyStr.FirstToken | ap/pad.py:829 | `split()[0]` raises exactly on an all-blank string; otherwise it is the first maximal run of non-blanks, preceded only by blanks |
| PyStr.FirstTokenAppend | ap/pad.py:829 | appending text that starts with a blank never changes the first token |
| PyStr.FirstTokenOfWord | ap/pad.py:829 | a single word is its own first token |
| PyStr.SplitOn | tools.py:42 | `split(d)` yields at least one field, and no field contains the delimiter |
| PyStr.JoinSplitOn | tools.py:42 | splitting loses nothing: joining the fields with the delimiter gives back the line |
| Bins.MaxBins | tools.py:116 | `max` over the bins is `None` exactly for no bins; otherwise it is one of the bins and bounds them all |
| Bins.MinBins | tools.py:135 | `min` over the bins is `None` exactly for no bins; otherwise it is one of the bins and is below them all |
| Bins.Positives | tools.py:153 | the comprehension keeps exactly the strictly positive bins |
| Bins.MinPositiveBins | tools.py:153 | `None` exactly when no bin is positive; otherwise the smallest positive bin |
| Bins.SumOfAt | tools.py:166-174 | each bin of the accumulated sum is the total of that bin over the whole stack |
| Bins.StackSum | tools.py:163-174 | the clone-then-`Add` loop is `None` exactly for an empty stack; otherwise it is the accumulated sum |
| Tools.NatToDigits | tools.py:48 | the decimal spelling of a key is a non-empty run of digits |
| Tools.ParseIntRoundTrip | tools.py:48 | `int()` reads a decimal key back as itself |
| Tools.ParseIntRoundTripNegative | tools.py:48 | `int()` reads a minus-signed decimal key back as its negative |
| Tools.Fields | tools.py:42 | one field per piece of `split(delimiter)`, each that piece stripped, so no field starts or ends with a blank |
| Tools.LoadXsec | tools.py:32-53 | the loop gives the table from applying the lines' effects in order, or fails at the first line that raises |
| Tools.ApplyAppend | tools.py:38-50 | reading two pieces of a file is reading the first, then the second into its result |
| Tools.SkippedLineIsInert | tools.py:39-45 | a blank line, a comment line or a `Data` row can be removed without changing the table |
| Tools.DataRowSkipped | tools.py:44-45 | a row whose third field is exactly `Data` is skipped |
| Tools.ApplyKeys | tools.py:48 | reading never drops a key, and every new key comes from a row |
| Tools.ApplyKeepsKey | tools.py:48 | rows for other keys leave a key's value alone |
| Tools.ApplyKeysExact | tools.py:48 | the table's keys are exactly the keys of the rows |
| Tools.LastRowFor | tools.py:48 | the last row for a key is found at or after a given row for it |
| Tools.ApplyLastRowWins | tools.py:48 | a key's value is the one on its last row, overwriting earlier rows |
| Tools.XsecKeys | tools.py:38-48 | for the lines of a file, a key is read exactly when some line is a row for it |
| Tools.LastRowWins | tools.py:48 | for the lines of a file, the value read for a key is that of its last row |
| Tools.ApplyFailsIff | tools.py:42-48 | reading fails exactly when some effect raises |
| Tools.XsecFailsIff | tools.py:42-48 | `loadXsec` fails exactly when some line of the file raises |
| Tools.StackTotal | tools.py:163-174 | `get_stack_sum`: `None` exactly for an empty stack, else the bin-wise total |
| Tools.GetMaximum | tools.py:107-123 | `None` for a graph, an empty stack or no bins; otherwise the largest bin (of the stacked total for a stack) |
| Tools.GetMinimum | tools.py:126-142 | `None` for a graph, an empty stack or no bins; otherwise the smallest bin (of the stacked total for a stack) |
| Tools.GetMinimumPositive | tools.py:144-160 | `None` when no bin is positive; otherwise the smallest positive bin (of the stacked total for a stack) |
| Tools.StackMaximumIsLargestTotal | tools.py:111-116 | a stack's maximum is the total of some bin and bounds the total of every bin |
| RpTools.GraphMaximum | rootplotting/tools.py:32-39 | the point loop bounds every `y`, and is one of them or stays at minus the largest float |
| RpTools.GraphMinimum | rootplotting/tools.py:58-65 | the point loop is below every `y`, and is one of them or stays at the largest float |
| RpTools.GraphMinimumPositive | rootplotting/tools.py:84-92 | the loop skips points with `x <= 0`; it is below the `y` of every other point, and is one of them or the largest float |
| RpTools.GetStackSum | rootplotting/tools.py:105-122 | with `only_first`, a copy of the first histogram, raising for an empty stack; otherwise the bin-wise total, `None` for an empty stack |
| RpTools.GetMaximum | rootplotting/tools.py:26-49 | histogram: the largest bin, or `None` without bins; graph: the point loop; stack: the largest bin of its first histogram, raising when empty |
| RpTools.GetMinimum | rootplotting/tools.py:52-75 | the same cases as `GetMaximum`, with the smallest value |
| RpTools.GetMinimumPositive | rootplotting/tools.py:78-102 | histogram: smallest positive bin or `None`; graph: the loop over `x > 0`; empty stack: the largest float; otherwise the first histogram's smallest positive bin |
| RpTools.OverlayAndCanvasDisjoint | rootplotting/tools.py:125-132 | no type name is both an overlay and a canvas; a name ending in `overlay` is an overlay |
| RpTools.FindBin | rootplotting/tools.py:144-148 | bin 0 exactly below the axis, `N + 1` exactly at or above its upper end, otherwise the bin holding `x` |
| RpTools.SnapToAxis | rootplotting/tools.py:141-163 | the result is always a bin edge between the axis ends |
| RpTools.SnapIsLowestNearestEdge | rootplotting/tools.py:150-161 | no edge of the axis is nearer than the result, and a tie goes to the lower edge |
| Layout.PadScale | ap/pad.py:46-57 | for accepted coordinates, the scale times the pad's width and height is 1 |
| Layout.TwoPadLayout | rootplotting/canvas.py:54-56 | a ratio canvas has two pads; `TwoPadsTileCanvas` states where they lie |
| Layout.TwoPadsTileCanvas | rootplotting/canvas.py:54-56 | the pads meet at `fraction` and span the canvas; they are valid pads exactly for 0 < fraction < 1 |
| Layout.PyIndex | rootplotting/canvas.py:158 | `pads[idx]` succeeds exactly for `-len <= idx < len`, counting negative indices from the end |
| Layout.LastNonOverlayBelow | rootplotting/canvas.py:159-163 | the largest non-overlay index below `k`, with only overlays between, or -1 |
| Layout.SearchNonOverlay | rootplotting/canvas.py:159-163 | the decrementing search stops at the last non-overlay pad below the last one, or at -1 |
| Layout.Resolve | rootplotting/canvas.py:155-166 | an index not -1 or in range raises; a non-overlay target is kept; an overlay target is replaced by the search result, which must pass the same check |
| Layout.DeferAvoidsOverlays | rootplotting/canvas.py:158-164 | the replacement is never an overlay, unless every pad below the last is an overlay, and then it is -1 |
| Drawing.AddEntry | ap/pad.py:620-627 | a data entry goes to the front and any other entry to the back; the entries are a permutation of old ones plus the new one |
| Drawing.StackedIndex | ap/pad.py:657 | the stacked entry goes to index 1 exactly when the first entry is a data entry, else to index 0 |
| Drawing.AddStackedEntry | ap/pad.py:656-658 | the entry is inserted at that index, and everything else keeps its place |
| Drawing.InsertAt | ap/pad.py:658 | `insert(p, x)` puts `x` at `p`, keeps the prefix and shifts the suffix |
| Drawing.LeadingDataKept | ap/pad.py:655-658 | a leading data entry is never displaced, by a stacked entry or by a later ordinary one |
| Drawing.StackedEntriesReversed | ap/pad.py:655-658 | two stacked histograms are listed in reverse order, just after a leading data entry |
| Drawing.InsertTwice | ap/pad.py:658 | two inserts at one index leave the later element first |
| Drawing.RemoveInserted | ap/pad.py:624-627 | removing an inserted element gives back the list |
| Drawing.AddEntryKeepsOrder | ap/pad.py:624-627 | existing entries keep their relative order when a labelled histogram is added |
| Drawing.AddStackedEntryKeepsOrder | ap/pad.py:656-658 | existing entries keep their relative order when a stacked histogram is added |
| Drawing.LabelTail | ap/pad.py:841-849 | `P` in the token gives `P`; then `E2`/`E3` gives `F`, and otherwise any `E` gives `EL`; only the letters L, F, P, E are used |
| Drawing.NoErrorBand | ap/pad.py:845 | a token without an `E`, or without both a `2` and a `3`, names no `E2`/`E3` band |
| Drawing.NoEHist | ap/pad.py:831 | a token without an `H` does not contain `HIST` |
| Drawing.ResetStyle | ap/pad.py:792-806 | a blank option raises; a token with `P` keeps the markers; otherwise marker size, style and colour are zeroed |
| Drawing.ScaleHist | ap/pad.py:583-585 | a truthy scale multiplies every content and error; any other scale leaves the histogram alone |
| Drawing.Prepared | ap/pad.py:583-589 | scale, reset, style: raises exactly for a blank option, and keeps the kind and number of bins |
| Drawing.StyleOverridesReset | ap/pad.py:588-589 | marker keywords survive the reset because styling comes after it; the bins are untouched |
| Drawing.PreparedScalesBins | ap/pad.py:583-589 | the drawn histogram has the input's bins, times the scale when that is truthy |
| Drawing.ResetStyleIdempotent | ap/pad.py:792-806 | resetting twice with the same option equals resetting once |
| Drawing.RatioBinInverse | ap/pad.py:641-643 | where the denominator is positive, ratio times denominator gives back content and error; elsewhere the bin is (1, 9999) |
| Drawing.RatioHist | ap/pad.py:636-646 | the clone's bins are overwritten one by one with the bin-wise ratio; everything else in it is the numerator's |
| Drawing.PreparedRatioBins | ap/pad.py:636-646 | the drawn ratio is the bin-wise ratio, times the scale when that is truthy |
| Drawing.ScaledRatioOf | ap/pad.py:636-646 | a scaled copy of the bin-wise ratio satisfies `ScaledRatio` |
| Drawing.Span | ap/pad.py:344-378 | an axis of the legend box: given ends are kept; with neither end, the anchor places one end, and an unknown side abandons the legend |
| Drawing.DerivedSpanHasSize | ap/pad.py:357-361 | unless both ends are given, `xmin = xmax - width` or `xmax = xmin + width`, likewise in y with the height |
| Drawing.LegendHeightLinear | ap/pad.py:345 | the legend height grows by one row-height per entry, header and category |
| Drawing.LegendBox | ap/pad.py:338-378 | raises exactly for a zero pad height; the legend is abandoned exactly when an axis has neither end and an unrecognised side; otherwise the corners are the x and y spans |
| Drawing.LegendBoxHasSize | ap/pad.py:347-378 | given ends stay where they were put; unless both ends of an axis are given, the box is `width` wide and one row-height per row tall |
| Drawing.DefaultLegendBox | ap/pad.py:344-378 | with no coordinates and `R`/`T`, the box sits offset inside the right and top margins, `width` wide and one row-height per row tall |
| Drawing.TextLinePositions | ap/pad.py:292-312 | raises exactly for a zero height; the ATLAS line sits at the start; each text line is one step below the previous one, and the first is 1.3 steps further down after an ATLAS line |
| Drawing.LinesAtEvenlySpaced | ap/pad.py:309-312 | lines placed by `LinesAt` are one step apart |
| Drawing.TextLinesEvenlySpaced | ap/pad.py:309-312 | consecutive lines are one step apart, strictly downwards for a positive text size |
| Drawing.ToObj | ap/pad.py:717-724 | a primitive as the tools queries see it is well formed |
| Drawing.PrimitivesMaximum | ap/pad.py:722-724 | the `max` loop bounds every primitive's maximum, and is one of them or minus the largest float; `None` never raises it |
| Drawing.LinearRangeAboveAll | ap/pad.py:722-730 | the linear range reaches above every non-negative primitive maximum |
| Drawing.LinearRange | ap/pad.py:729-730 | the linear range starts at 0 |
| Drawing.LinearRangeCovers | ap/pad.py:729-730 | the top times `1 - padding` is the maximum, so a non-negative maximum stays in range |
| ApPad.PlotOption | ap/pad.py:809-821 | raises exactly for a 2D histogram, whose warning reads `name` of a plain integer; every other plot type gets a non-blank option |
| ApPad.LabelOption | ap/pad.py:824-852 | a blank option raises; on the first token, `L` starts with `L`, else `HIST` starts with `L` or `F` by fill colour, then the shared tail |
| ApPad.LabelOptionIgnoresSame | ap/pad.py:829 | ` SAME` and ` ][ SAME` never change the legend option |
| ApPad.GraphLabelOption | ap/pad.py:816 | a graph's default option gives the legend option `LP` |
| ApPad.PlotLabelOption | ap/pad.py:813 | a plot's default option gives `PEL` |
| ApPad.HistLabelOption | ap/pad.py:814 | a histogram's default option gives `L` unfilled, `F` filled |
| ApPad.LabelOfSuffixed | ap/pad.py:592-596 | the suffix `_plot1D` appends never changes the legend option |
| ApPad.ConcatEntriesHasAll | ap/pad.py:694 | every child's entry occurs in the concatenation |
| ApPad.Pad.constructor | ap/pad.py:41-69 | accepted coordinates; the scale; nothing drawn; padding 0.4; linear scale; no limits |
| ApPad.Pad.AllEntries | ap/pad.py:692-694 | the pad's own entries first, then every child's; nothing else, so there are as many as the pad and its children hold together |
| ApPad.ConcatEntriesOnlyFromPads | ap/pad.py:692-694 | the children's concatenation has their total length, and each of its entries belongs to some child |
| ApPad.Pad.Plot1D | ap/pad.py:576-633 | the drawn histogram is `Prepared`; if displayed it is recorded with the right suffix and its entry filed by `AddEntry`; a blank option changes nothing |
| ApPad.Pad.FileEntry | ap/pad.py:620-628 | the entry is added with the legend option of the unsuffixed option |
| ApPad.Pad.DrawStack | ap/pad.py:592-610 | drawing the stack records it with its suffix when displayed |
| ApPad.Pad.AddToStack | ap/pad.py:669-680 | true exactly when there was no stack; the histogram is always added at the end |
| ApPad.Pad.Plot1DStack | ap/pad.py:651-666 | the entry is inserted at `StackedIndex`; the stack grows; only the first stacked histogram draws the stack; a blank option with a label raises and changes nothing |
| ApPad.Pad.RatioPlot1D | ap/pad.py:636-647 | raises exactly for a blank option and then changes nothing; the result is the bin-wise ratio times the forwarded scale; when displayed it is recorded and its labelled entry filed by `AddEntry`, otherwise nothing changes |
| ApPad.Pad.SetPadding | ap/pad.py:177-187 | accepted exactly for 0 < padding < 1, and only then stored |
| ApPad.Pad.SetYlim | ap/pad.py:162-174 | exactly two limits are stored; anything else raises and stores nothing |
| ApPad.Pad.Legend | ap/pad.py:319-401 | no entries or an existing legend change nothing; otherwise the box for a pad `wh / scale` high, raising exactly for a zero height |
| ApPad.Pad.Text | ap/pad.py:282-312 | raises exactly for a zero height; x is the left margin plus the offset; the ATLAS line sits one text height below the top margin and offset, the first line 1.3 steps lower (or there without it), each next line one step lower |
| ApPad.Pad.GetStackSum | ap/pad.py:142-147 | `None` without stacked histograms, else the bin-wise total |
| ApPad.Pad.AxisRange | ap/pad.py:698-730 | nothing with nothing drawn; else the stored limits, or the log or linear range from the primitives' largest maximum |
| ApCanvas.DefaultSize | ap/canvas.py:48 | 600 wide; 600 high unless a two-pad ratio canvas, whose height is at least 521 |
| ApCanvas.RatioCanvasMainPadHeight | ap/canvas.py:48 | the upper pad of a ratio canvas is 521.79 pixels high, up to truncation to whole pixels |
| ApCanvas.TruncatedQuotient | ap/canvas.py:48 | `int(a / d)` shares of `d` stay within one share of `a` |
| ApCanvas.PadRects | ap/canvas.py:55-59 | one rectangle per pad |
| ApCanvas.PadRectsValid | ap/canvas.py:55-59 | every pad passes the pad constructor's coordinate check |
| ApCanvas.Canvas.constructor | ap/canvas.py:35-69 | 1 or 2 pads; fraction kept only for 2; ratio only for 2; default size; distinct fresh non-overlay pads at the layout's rectangles |
| ApCanvas.Canvas.Pad | ap/canvas.py:76-79 | succeeds exactly when there is one pad, and returns it |
| ApCanvas.Canvas.Defer | ap/canvas.py:93-107 | a bad index raises; a non-overlay target is kept; an overlay target is replaced by the largest non-overlay index below the last pad, or by the last pad when there is none |
| Ap.PlotOption | ap.py:865-877 | raises exactly for a 2D histogram, whose warning reads `name` of a plain integer; every other plot type gets a non-blank option |
| Ap.LabelOption | ap.py:880-905 | a blank option raises; `HIST` starts with `L` or `F` by fill colour, then the shared tail; there is no `L` branch |
| Ap.LabelOptionIgnoresSame | ap.py:885 | ` SAME` never changes the legend option |
| Ap.LabelOptionVersions | ap.py:880-905 | this version agrees with the `ap` package on every token without `L`; with `L`, only on an unfilled `HIST` |
| Ap.GraphLabelOption | ap.py:872 | a graph's default option `APL` gives `P`: the line is not shown |
| Ap.PlotLabelOption | ap.py:869 | a plot's default option gives `PEL` |
| Ap.HistLabelOption | ap.py:870 | a histogram's default option gives `L` unfilled, `F` filled |
| Ap.LabelOfSuffixed | ap.py:482-484 | the ` SAME` suffix never changes the legend option |
| Ap.Canvas.constructor | ap.py:145-176 | 1 or 2 pads; fraction kept only for 2; default size; the layout with the given fraction; nothing drawn; padding 0.4; no limits |
| Ap.Canvas.Lines | ap.py:186-225 | raises for a pad index Python cannot look up or a zero height; x is the left margin plus the offset; the ATLAS line sits one text height below the top margin and offset, the first line 1.3 steps lower (or there without it), each next line one step lower |
| Ap.Canvas.Legend | ap.py:228-317 | nothing without entries; otherwise the box on the main pad, raising exactly for a zero height |
| Ap.Canvas.Plot1D | ap.py:465-525 | a bad pad index or blank option raises and changes nothing; the drawn histogram is `Prepared`; ` SAME` exactly when the pad shows something; entry by `AddEntry` |
| Ap.Canvas.RecordPrimitive | ap.py:502 | the primitive is appended to its pad's list only |
| Ap.Canvas.FileEntry | ap.py:512-520 | the entry is added with the legend option of the unsuffixed option |
| Ap.Canvas.DrawStack | ap.py:469-502 | a bad pad index raises; otherwise the stack is recorded on the pad when displayed |
| Ap.Canvas.AddToStack | ap.py:565-576 | true exactly when there was no stack; the histogram is always added at the end |
| Ap.Canvas.Plot1DStack | ap.py:542-562 | the entry goes in at `StackedIndex`; the stack grows; only the first stacked histogram draws the stack, and only then can a bad index raise |
| Ap.Canvas.RatioPlot1D | ap.py:528-539 | raises exactly for one pad or a blank option; the result is the bin-wise ratio times the scale; when displayed it is recorded on pad 1 and its labelled entry filed by `AddEntry`, otherwise nothing changes |
| Ap.Canvas.SetYlim | ap.py:600-615 | a non-sequence is ignored; a bad index or length raises; otherwise only that pad's limits change |
| Ap.Canvas.SetPadding | ap.py:618-629 | accepted exactly for 0 < padding < 1, and only then stored |
| Ap.Canvas.GetStackSum | ap.py:579-584 | `None` without stacked histograms, else the bin-wise total |
| Ap.Canvas.AxisRange | ap.py:695-724 | the stored limits, or: raises when no primitive has a minimum, else the log or linear range from the largest maximum |
| RpCanvas.SumScaled | rootplotting/canvas.py:62 | dividing each fraction by `s` divides the sum by `s` |
| RpCanvas.Normalise | rootplotting/canvas.py:61-65 | integers are divided by their sum, raising for a zero sum, and then sum to 1; any other list must sum to 1 within 1e-6 and is kept |
| RpCanvas.StackedRect | rootplotting/canvas.py:67-73 | pad `k` is as tall as share `k` |
| RpCanvas.StackedPads | rootplotting/canvas.py:67-76 | the loop makes one pad per share, at its cumulative place |
| RpCanvas.StackedPadsTile | rootplotting/canvas.py:67-73 | the first pad starts at the top; each pad's lower edge is the next one's upper edge; the last ends the sum below the top |
| RpCanvas.NormalisedPadsCoverCanvas | rootplotting/canvas.py:61-73 | accepted fractions cover the canvas from 1 down to 0: exactly for integers, within 1e-6 otherwise |
| RpCanvas.PaddedShape | rootplotting/canvas.py:79-84 | the grid shape has at least two dimensions |
| RpCanvas.GridShape | rootplotting/canvas.py:79-84 | the insert loop puts ones in front until there are two dimensions |
| RpCanvas.PaddedShapeKeepsDims | rootplotting/canvas.py:83 | the given dimensions stay at the end, and a padded shape starts with 1 |
| RpCanvas.GridPads | rootplotting/canvas.py:86-95 | `nx * ny` pads, or none when that is not positive; pad `k` is the tile of `GridCell(k)` |
| RpCanvas.DivModUnique | rootplotting/canvas.py:91-92 | `//` and `%` by a positive divisor are fixed by a quotient and a remainder in range |
| RpCanvas.GridCellClosedForm | rootplotting/canvas.py:90-92 | pad `k` sits in column `k % nx`, row `ny - 1 - k / nx`: the grid is filled left to right, top to bottom |
| RpCanvas.FirstPadTopLeft | rootplotting/canvas.py:90-95 | the first pad created is the top-left cell |
| RpCanvas.GridCellsInGrid | rootplotting/canvas.py:90-95 | every pad lands in a cell of the grid |
| RpCanvas.GridCellsCoverGrid | rootplotting/canvas.py:90-95 | every cell of the grid gets a pad |
| RpCanvas.PadOfCell | rootplotting/canvas.py:90-95 | cell `(x, y)` gets pad `nx * (ny - 1 - y) + x` |
| RpCanvas.GridCellsDistinct | rootplotting/canvas.py:90-95 | no two pads share a cell |
| RpCanvas.DefaultSize | rootplotting/canvas.py:43 | the default canvas is 600 wide, and 745 high for a two-pad ratio canvas whatever the fraction, 500 high otherwise |
| RpCanvas.LabelXWithinMargins | rootplotting/canvas.py:315-316 | the label x maps the axis ends to the margins, and a midpoint on the axis to between them |
| RpCanvas.Canvas.constructor | rootplotting/canvas.py:29-117 | the size, fraction and ratio flag; no overlays; no lines yet; the pads of the count, list or grid branch, in creation order |
| RpCanvas.Canvas.Pad | rootplotting/canvas.py:138-140 | `pads()[idx]`: succeeds exactly for an index Python can look up |
| RpCanvas.Canvas.Defer | rootplotting/canvas.py:154-168 | a bad index raises; a non-overlay target is kept; an overlay target is replaced by the largest non-overlay index below the last pad, or by -1 (the last pad), which must pass the same index check |
| RpCanvas.Canvas.Region | rootplotting/canvas.py:290-316 | outside the x limits nothing changes; otherwise lines are drawn only at new x, both x are recorded, and the label is centred between the ends |

## Left out

- ROOT itself is not modelled: creating and drawing canvases, pads, legends and latex; `Modified`/`Update`; `SaveAs`; ownership; margin, offset and tick setters. These are calls into a library whose behaviour is not visible here. Pixel sizes, margins, text and font sizes, and axis edges are parameters.
- Floating point: coordinates and bin contents are `real`, with no IEEE rounding.
- The logarithmic y range uses `np.log` and `np.exp`, so it is kept symbolic (`LogRange`). The overlay axis range and `_update_overlay` are not modelled either.
- The numpy input paths are not modelled: `_plot1D_numpy`, `_ratio_plot1D_numpy`, `fill_hist`, `array2hist`, `tree2array`. Neither are the `plot`/`hist`/`stack`/`graph` dispatch through `_plot`, or `hist2d`.
- `loadData` and the file handling of `loadXsec` involve the file system. `LoadXsec` takes the lines of the file.
- Tools.ParseFloat reads `inf` and `nan` spellings as a failure, where Python accepts them.
- PyStr.SplitOn handles only a one-character delimiter.
- `warning`, `wait`, `show`, `save`, `xlabel`, `ylabel` are not modelled. They print, wait for input, or only call ROOT. The line-drawing helpers (`line`, `xline`, `yline`, `xlines`, `ylines`) are left out too, as is the log setter's call of `_update`.
- The line and fill style keywords of `_style` set ROOT attributes the model does not read; only fill colour and marker keywords are kept.
- Ap.Canvas.Plot1DStack: a `label=None` keyword for a stack is not modelled; a caption is either absent or a string.
- ApPad.Pad.Plot1DStack: a `label=None` keyword is not modelled either. The source files an entry with a `None` caption, and a later `strip()` on that caption raises; a caption here is either absent or a string.
- Histograms are values, so a histogram drawn twice is two copies; aliasing between them is not modelled.
- ApPad.Pad.StackAccepts: stacking histograms with different binnings is excluded by precondition, because ROOT's `Add` demands equal binning.
- ApPad.Pad.AddToStack requires `StackAccepts`, for that reason.
- ApPad.Pad.Plot1DStack requires `StackAccepts`, for that reason.
- Ap.Canvas.AddToStack requires `StackAccepts`, for that reason.
- Ap.Canvas.Plot1DStack requires `StackAccepts`, for that reason.
- Ap.Canvas.RatioPlot1D requires the denominator to have the numerator's number of bins. The source reads the denominator bin by bin whatever its binning, and ROOT's answer for a bin beyond the last (the overflow bin) is not modelled.
- ApPad.Pad.RatioPlot1D requires the same, for the same reason.
- Ap.Canvas.constructor requires `fraction != 1.0` for a two-pad canvas without a size, where the source raises `ZeroDivisionError` in the default height (ap.py:158).
- RpCanvas.Canvas.constructor requires `Accepts`. Besides the assertions, `Accepts` excludes two `ZeroDivisionError`s: an integer fraction list that sums to 0 (rootplotting/canvas.py:62) and a zero grid dimension (rootplotting/canvas.py:87).
- Drawing.Prepared: a scaled histogram stays scaled in the source when the reset then raises; the model returns only `Raised` there.
- The `ap` package's `tools` module is not part of this model. `is_overlay` of an `ap` pad is the `overlay` flag.
- `rootplotting/pad.py` is not part of this model. Therefore:
  - RpCanvas.Canvas.constructor never creates overlay pads;
  - the pad constructor's checks are not modelled;
  - `xline`'s return value is a parameter of RpCanvas.Canvas.Region;
  - the first primitive's x axis is its `edges` parameter;
  - the `AttributeError` when nothing has been drawn is not modelled;
  - the calls on the remaining pads in `region` are not modelled.
- The running margins `m1` and `m2` of the list layout are computed but never used, so they are not modelled.
- `padding` and `log` call `_update`. Of `_update`, only the main pad's y range is modelled (AxisRange). The ratio pad's limits and `_setup_ratio_pads` are not.
- ApPad.Pad.SetYlim: the source's list-unwrapping branch never fires, because `*args` is always a tuple. A wrong length raises a `NameError` from the assertion's message instead of an `AssertionError`. Both are modelled as raising.
