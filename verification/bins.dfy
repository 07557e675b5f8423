/** Bin-content arithmetic shared by both tools modules. A histogram is the
    sequence of its bin contents for bins 1..N (index 0 holds bin 1). */
module Bins {

  import opened PyBase

  /** `max(contents)`, or `None` where Python's `max` of an empty sequence
      raises the `ValueError` that the tools functions turn into `None`. */
  function MaxBins(s: seq<real>): (r: Option<real>)
    ensures r.None? <==> |s| == 0
    ensures r.Some? ==> r.value in s && forall i :: 0 <= i < |s| ==> s[i] <= r.value
  {
    if |s| == 0 then None
    else
      var rest := MaxBins(s[1..]);
      if rest.None? || s[0] >= rest.value then Some(s[0]) else rest
  }

  /** `min(contents)`, or `None` for no bins. */
  function MinBins(s: seq<real>): (r: Option<real>)
    ensures r.None? <==> |s| == 0
    ensures r.Some? ==> r.value in s && forall i :: 0 <= i < |s| ==> r.value <= s[i]
  {
    if |s| == 0 then None
    else
      var rest := MinBins(s[1..]);
      if rest.None? || s[0] <= rest.value then Some(s[0]) else rest
  }

  /** `[m for m in contents if m > 0]`. */
  function Positives(s: seq<real>): (r: seq<real>)
    ensures forall i :: 0 <= i < |r| ==> r[i] > 0.0 && r[i] in s
    ensures forall i :: 0 <= i < |s| && s[i] > 0.0 ==> s[i] in r
  {
    if |s| == 0 then []
    else if s[0] > 0.0 then [s[0]] + Positives(s[1..])
    else Positives(s[1..])
  }

  /** The smallest strictly positive bin content, or `None` when no bin is positive. */
  function MinPositiveBins(s: seq<real>): (r: Option<real>)
    ensures r.None? <==> forall i :: 0 <= i < |s| ==> s[i] <= 0.0
    ensures r.Some? ==> r.value > 0.0 && r.value in s
    ensures r.Some? ==> forall i :: 0 <= i < |s| && s[i] > 0.0 ==> r.value <= s[i]
  {
    var p := Positives(s);
    var r := MinBins(p);
    assert r.Some? ==> r.value > 0.0 by {
      if r.Some? { var j :| 0 <= j < |p| && p[j] == r.value; }
    }
    assert r.Some? ==> forall i :: 0 <= i < |s| && s[i] > 0.0 ==> r.value <= s[i] by {
      if r.Some? {
        forall i | 0 <= i < |s| && s[i] > 0.0 ensures r.value <= s[i] {
          var j :| 0 <= j < |p| && p[j] == s[i];
        }
      }
    }
    r
  }

  /** All histograms of a stack share one binning, as ROOT's `Add` demands. */
  predicate SameBinning(hs: seq<seq<real>>) {
    forall i :: 0 <= i < |hs| ==> |hs[i]| == |hs[0]|
  }

  /** What `a.Add(b)` leaves in `a`: the bin-wise sum. */
  function AddBins(a: seq<real>, b: seq<real>): (r: seq<real>)
    requires |a| == |b|
    ensures |r| == |a| && forall i :: 0 <= i < |a| ==> r[i] == a[i] + b[i]
  {
    seq(|a|, i requires 0 <= i < |a| => a[i] + b[i])
  }

  /** The clone of the first histogram with every later one added in turn. */
  function SumOf(hs: seq<seq<real>>): (r: seq<real>)
    requires |hs| > 0 && SameBinning(hs)
    ensures |r| == |hs[0]|
  {
    if |hs| == 1 then hs[0] else AddBins(SumOf(hs[..|hs| - 1]), hs[|hs| - 1])
  }

  /** Reference definition: the content of bin `b` summed over the stack. */
  function ColumnSum(hs: seq<seq<real>>, b: nat): real
    requires forall i :: 0 <= i < |hs| ==> b < |hs[i]|
  {
    if |hs| == 0 then 0.0 else ColumnSum(hs[..|hs| - 1], b) + hs[|hs| - 1][b]
  }

  /** The stack sum is the element-wise sum: each bin holds the total of that
      bin over all stacked histograms. */
  lemma {:induction false} SumOfAt(hs: seq<seq<real>>, b: nat)
    requires |hs| > 0 && SameBinning(hs) && b < |hs[0]|
    ensures SumOf(hs)[b] == ColumnSum(hs, b)
  {
    var init := hs[..|hs| - 1];
    if |hs| == 1 {
      assert ColumnSum(init, b) == 0.0;
    } else {
      assert SameBinning(init) && init[0] == hs[0];
      SumOfAt(init, b);
    }
  }

  /** The accumulation loop of `get_stack_sum`: the first histogram is cloned,
      every later one is added into the clone bin by bin. `None` for no
      histograms. */
  method StackSum(hs: seq<seq<real>>) returns (r: Option<seq<real>>)
    requires SameBinning(hs)
    ensures r.None? <==> |hs| == 0
    ensures r.Some? ==> r.value == SumOf(hs)
  {
    var sumHisto: array<real> := new real[0];
    var have := false;
    for k := 0 to |hs|
      invariant fresh(sumHisto)
      invariant have <==> k > 0
      invariant have ==> sumHisto.Length == |hs[0]| && sumHisto[..] == SumOf(hs[..k])
    {
      var h := hs[k];
      if !have {
        sumHisto := new real[|h|](i requires 0 <= i < |h| => h[i]);
        have := true;
        assert hs[..1] == [h];
      } else {
        ghost var before := sumHisto[..];
        for b := 0 to sumHisto.Length
          invariant forall j :: 0 <= j < b ==> sumHisto[j] == before[j] + h[j]
          invariant forall j :: b <= j < sumHisto.Length ==> sumHisto[j] == before[j]
        {
          sumHisto[b] := sumHisto[b] + h[b];
        }
        assert hs[..k + 1][..k] == hs[..k];
        assert sumHisto[..] == AddBins(before, h);
      }
    }
    if have {
      assert hs[..|hs|] == hs;
      r := Some(sumHisto[..]);
    } else {
      r := None;
    }
  }
}
