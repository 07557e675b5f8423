/** tools.py: the cross-section table reader and the bin-content queries used
    by the single-file and package `ap` plotting layers. */
module Tools {

  import opened PyBase
  import opened PyStr
  import opened Bins

  // ---------------------------------------------------------------------
  // Number parsing: Python's int() and float() on a table field.
  // ---------------------------------------------------------------------

  predicate IsDigit(c: char) { '0' <= c <= '9' }

  predicate AllDigits(s: string) { forall i :: 0 <= i < |s| ==> IsDigit(s[i]) }

  /** The value of a run of decimal digits, most significant first. */
  function DigitsValue(s: string): (n: nat)
    requires AllDigits(s)
  {
    if |s| == 0 then 0 else 10 * DigitsValue(s[..|s| - 1]) + (s[|s| - 1] as int - '0' as int)
  }

  /** `int(s)` for a base-10 string: surrounding whitespace, an optional sign
      and at least one digit; `None` where Python raises `ValueError`. */
  function ParseInt(s: string): (r: Option<int>)
  {
    ParseSigned(Strip(s))
  }

  /** An optional sign followed by at least one digit. */
  function ParseSigned(t: string): (r: Option<int>)
  {
    var i := if |t| > 0 && (t[0] == '+' || t[0] == '-') then 1 else 0;
    if |t| == i || !AllDigits(t[i..]) then None
    else if i == 1 && t[0] == '-' then Some(0 - DigitsValue(t[i..]) as int)
    else Some(DigitsValue(t[i..]))
  }

  /** The decimal digits of a natural number, as Python's `str(n)` writes them. */
  function NatToDigits(n: nat): (s: string)
    ensures |s| > 0 && AllDigits(s)
  {
    if n < 10 then [('0' as int + n) as char]
    else NatToDigits(n / 10) + [('0' as int + n % 10) as char]
  }

  lemma {:induction false} DigitsValueOfNat(n: nat)
    ensures DigitsValue(NatToDigits(n)) == n
  {
    if n >= 10 {
      DigitsValueOfNat(n / 10);
      var s := NatToDigits(n);
      assert s[..|s| - 1] == NatToDigits(n / 10);
    }
  }

  /** Round trip: a key written in decimal reads back as itself. */
  lemma ParseIntRoundTrip(n: nat)
    ensures ParseInt(NatToDigits(n)) == Some(n)
  {
    var s := NatToDigits(n);
    DigitsHaveNoSpace(s);
    StripNoSpace(s);
    ParseSignedDigits(s);
    DigitsValueOfNat(n);
  }

  lemma ParseSignedDigits(s: string)
    requires |s| > 0 && AllDigits(s)
    ensures ParseSigned(s) == Some(DigitsValue(s) as int)
    ensures ParseSigned("-" + s) == Some(0 - DigitsValue(s) as int)
  {
    assert s[0..] == s;
    assert ("-" + s)[1..] == s;
  }

  /** Round trip with a minus sign: a negative key reads back as itself. */
  lemma ParseIntRoundTripNegative(k: nat)
    ensures ParseInt("-" + NatToDigits(k)) == Some(-(k as int))
  {
    ParseIntNegativeDigits(NatToDigits(k));
    DigitsValueOfNat(k);
  }

  lemma ParseIntNegativeDigits(s: string)
    requires |s| > 0 && AllDigits(s)
    ensures ParseInt("-" + s) == Some(0 - DigitsValue(s) as int)
  {
    DigitsHaveNoSpace(s);
    NoSpaceSigned(s);
    StripNoSpace("-" + s);
    ParseSignedDigits(s);
  }

  lemma NoSpaceSigned(s: string)
    requires NoSpace(s)
    ensures NoSpace("-" + s)
  {
    assert forall i :: 1 <= i < |"-" + s| ==> ("-" + s)[i] == s[i - 1];
  }

  lemma DigitsHaveNoSpace(s: string)
    requires AllDigits(s)
    ensures NoSpace(s)
  {
  }

  /** A string without whitespace at either end is left alone by strip(). */
  lemma StripNoSpace(s: string)
    requires NoSpace(s)
    ensures Strip(s) == s
  {
    if |s| > 0 {
      assert TrimLeft(s) == s;
      assert TrimRight(s) == s;
    }
  }

  /** Index of the first non-digit at or after `i`. */
  function SpanDigits(s: string, i: nat): (j: nat)
    requires i <= |s|
    ensures i <= j <= |s| && AllDigits(s[i..j]) && (j == |s| || !IsDigit(s[j]))
    decreases |s| - i
  {
    if i < |s| && IsDigit(s[i]) then
      var j := SpanDigits(s, i + 1);
      assert s[i..j] == [s[i]] + s[i + 1..j];
      j
    else i
  }

  function Pow10(e: nat): (p: real)
    ensures p >= 1.0
  {
    if e == 0 then 1.0 else 10.0 * Pow10(e - 1)
  }

  /** `float(s)` for decimal notation: optional sign, digits with an optional
      fraction (at least one digit in all), optional exponent. `None` where
      Python raises `ValueError`; the spellings of infinity and NaN are
      outside the model and read as `None` too. */
  function ParseFloat(s: string): (r: Option<real>)
  {
    var t := Strip(s);
    var neg := |t| > 0 && t[0] == '-';
    var i := if |t| > 0 && (t[0] == '+' || t[0] == '-') then 1 else 0;
    var j := SpanDigits(t, i);
    var hasDot := j < |t| && t[j] == '.';
    var k := if hasDot then SpanDigits(t, j + 1) else j;
    var fracStart := if hasDot then j + 1 else j;
    if (j - i) + (k - fracStart) == 0 then None
    else
      var mantissa := DigitsValue(t[i..j]) as real + DigitsValue(t[fracStart..k]) as real / Pow10(k - fracStart);
      var signed := if neg then -mantissa else mantissa;
      if k == |t| then Some(signed)
      else if t[k] != 'e' && t[k] != 'E' then None
      else
        var eneg := k + 1 < |t| && t[k + 1] == '-';
        var ei := if k + 1 < |t| && (t[k + 1] == '+' || t[k + 1] == '-') then k + 2 else k + 1;
        var ej := SpanDigits(t, ei);
        if ej == ei || ej != |t| then None
        else
          var e := DigitsValue(t[ei..ej]);
          Some(if eneg then signed / Pow10(e) else signed * Pow10(e))
  }

  // ---------------------------------------------------------------------
  // loadXsec: the per-line logic over the lines of the file.
  // ---------------------------------------------------------------------

  /** What one line of the cross-section file does to the table. */
  datatype LineEffect = Skip | Row(key: int, value: real) | Fails

  /** The stripped fields of a stripped line. */
  function Fields(line: string, delimiter: char): (r: seq<string>)
    ensures |r| == |SplitOn(line, delimiter)| >= 1
    ensures forall i :: 0 <= i < |r| ==> r[i] == Strip(SplitOn(line, delimiter)[i])
    ensures forall i :: 0 <= i < |r| ==> r[i] == [] || (!IsSpace(r[i][0]) && !IsSpace(r[i][|r[i]| - 1]))
  {
    var parts := SplitOn(line, delimiter);
    seq(|parts|, i requires 0 <= i < |parts| => Strip(parts[i]))
  }

  /** One iteration of the loop in `loadXsec`. A line blank after stripping or
      starting with the comment prefix is skipped; so is a row whose third field
      is exactly `Data`; fewer fields than the row needs or a field that does
      not parse raises; any other row maps its integer key to the product of
      its second and fourth fields. */
  function LineEffectOf(l: string, delimiter: char, comment: string): LineEffect
  {
    var line := Strip(l);
    if line == "" || comment <= line then Skip
    else
      var fields := Fields(line, delimiter);
      if |fields| < 3 then Fails
      else if fields[2] == "Data" then Skip
      else if |fields| < 4 then Fails
      else
        var a := ParseFloat(fields[1]);
        var b := ParseFloat(fields[3]);
        var key := ParseInt(fields[0]);
        if a.None? || b.None? || key.None? then Fails
        else Row(key.value, a.value * b.value)
  }

  /** What each line of the file does, in order. */
  function Effects(lines: seq<string>, delimiter: char, comment: string): (r: seq<LineEffect>)
    ensures |r| == |lines| && forall i :: 0 <= i < |lines| ==> r[i] == LineEffectOf(lines[i], delimiter, comment)
  {
    seq(|lines|, i requires 0 <= i < |lines| => LineEffectOf(lines[i], delimiter, comment))
  }

  /** The table after applying `effects` to `acc`, or `None` once one raises. */
  function Apply(acc: map<int, real>, effects: seq<LineEffect>): Option<map<int, real>>
    decreases |effects|
  {
    if |effects| == 0 then Some(acc)
    else
      match effects[0]
      case Skip => Apply(acc, effects[1..])
      case Row(k, v) => Apply(acc[k := v], effects[1..])
      case Fails => None
  }

  /** `loadXsec` once the file has been read into its lines. */
  method LoadXsec(lines: seq<string>, delimiter: char, comment: string) returns (xsec: Option<map<int, real>>)
    ensures xsec == Apply(map[], Effects(lines, delimiter, comment))
  {
    ghost var effects := Effects(lines, delimiter, comment);
    var m: map<int, real> := map[];
    for i := 0 to |lines|
      invariant Apply(map[], effects) == Apply(m, effects[i..])
    {
      assert effects[i..][1..] == effects[i + 1..];
      var e := LineEffectOf(lines[i], delimiter, comment);
      match e
      case Skip =>
      case Row(k, v) => m := m[k := v];
      case Fails => return None;
    }
    assert effects[|lines|..] == [];
    xsec := Some(m);
  }

  /** Applying `a + b` is applying `a`, then applying `b` to the result. */
  lemma {:induction false} ApplyAppend(acc: map<int, real>, a: seq<LineEffect>, b: seq<LineEffect>)
    ensures Apply(acc, a + b) ==
      match Apply(acc, a)
      case None => None
      case Some(m) => Apply(m, b)
    decreases |a|
  {
    if |a| == 0 {
      assert a + b == b;
    } else {
      assert (a + b)[0] == a[0] && (a + b)[1..] == a[1..] + b;
      match a[0]
      case Skip => ApplyAppend(acc, a[1..], b);
      case Row(k, v) => ApplyAppend(acc[k := v], a[1..], b);
      case Fails =>
    }
  }

  lemma EffectsAppend(a: seq<string>, b: seq<string>, d: char, c: string)
    ensures Effects(a + b, d, c) == Effects(a, d, c) + Effects(b, d, c)
  {
  }

  lemma EffectsAround(a: seq<string>, l: string, b: seq<string>, d: char, c: string)
    ensures Effects(a + [l] + b, d, c) == Effects(a, d, c) + [LineEffectOf(l, d, c)] + Effects(b, d, c)
  {
    EffectsAppend(a + [l], b, d, c);
    EffectsAppend(a, [l], d, c);
  }

  lemma ApplySkipInert(acc: map<int, real>, ea: seq<LineEffect>, eb: seq<LineEffect>)
    ensures Apply(acc, ea + [Skip] + eb) == Apply(acc, ea + eb)
  {
    assert ea + [Skip] + eb == ea + ([Skip] + eb);
    ApplyAppend(acc, ea, [Skip] + eb);
    ApplyAppend(acc, ea, eb);
    assert ([Skip] + eb)[1..] == eb;
  }

  /** A blank line, a comment line or a `Data` row can be removed from the file
      without changing what is read. */
  lemma SkippedLineIsInert(a: seq<string>, l: string, b: seq<string>, d: char, c: string)
    requires LineEffectOf(l, d, c) == Skip
    ensures Apply(map[], Effects(a + [l] + b, d, c)) == Apply(map[], Effects(a + b, d, c))
  {
    EffectsAround(a, l, b, d, c);
    EffectsAppend(a, b, d, c);
    ApplySkipInert(map[], Effects(a, d, c), Effects(b, d, c));
  }

  /** A row whose third field is `Data` never reaches the table. */
  lemma DataRowSkipped(l: string, d: char, c: string)
    requires Strip(l) != "" && !(c <= Strip(l))
    requires |Fields(Strip(l), d)| >= 3 && Fields(Strip(l), d)[2] == "Data"
    ensures LineEffectOf(l, d, c) == Skip
  {
  }

  /** Reading never removes a key, and every key it adds comes from a row. */
  lemma {:induction false} ApplyKeys(acc: map<int, real>, effects: seq<LineEffect>, k: int)
    requires Apply(acc, effects).Some?
    ensures k in acc ==> k in Apply(acc, effects).value
    ensures k in Apply(acc, effects).value ==>
      k in acc || exists j :: 0 <= j < |effects| && effects[j].Row? && effects[j].key == k
    decreases |effects|
  {
    if |effects| > 0 {
      var rest := effects[1..];
      match effects[0]
      case Skip =>
        ApplyKeys(acc, rest, k);
        if k in Apply(acc, effects).value && k !in acc {
          var j :| 0 <= j < |rest| && rest[j].Row? && rest[j].key == k;
          assert effects[j + 1] == rest[j];
        }
      case Row(k0, v0) =>
        ApplyKeys(acc[k0 := v0], rest, k);
        if k in Apply(acc, effects).value && k !in acc && k != k0 {
          var j :| 0 <= j < |rest| && rest[j].Row? && rest[j].key == k;
          assert effects[j + 1] == rest[j];
        }
      case Fails =>
    }
  }

  /** Effects that hold no row for `k` leave the entry for `k` alone. */
  lemma {:induction false} ApplyKeepsKey(acc: map<int, real>, effects: seq<LineEffect>, k: int)
    requires Apply(acc, effects).Some? && k in acc
    requires forall j :: 0 <= j < |effects| ==> !(effects[j].Row? && effects[j].key == k)
    ensures k in Apply(acc, effects).value && Apply(acc, effects).value[k] == acc[k]
    decreases |effects|
  {
    if |effects| > 0 {
      var rest := effects[1..];
      assert forall j :: 0 <= j < |rest| ==> rest[j] == effects[j + 1];
      match effects[0]
      case Skip => ApplyKeepsKey(acc, rest, k);
      case Row(k0, v0) => ApplyKeepsKey(acc[k0 := v0], rest, k);
      case Fails =>
    }
  }

  /** The keys of the table are exactly the keys of the rows applied. */
  lemma ApplyKeysExact(effects: seq<LineEffect>, k: int)
    requires Apply(map[], effects).Some?
    ensures k in Apply(map[], effects).value <==>
      exists j :: 0 <= j < |effects| && effects[j].Row? && effects[j].key == k
  {
    ApplyKeys(map[], effects, k);
    if j :| 0 <= j < |effects| && effects[j].Row? && effects[j].key == k {
      ApplyLastRowWins(effects, LastRowFor(effects, k, j));
    }
  }

  /** The index of the last row for `k` at or after `j`. */
  function LastRowFor(effects: seq<LineEffect>, k: int, j: nat): (r: nat)
    requires j < |effects| && effects[j].Row? && effects[j].key == k
    ensures j <= r < |effects| && effects[r].Row? && effects[r].key == k
    ensures forall j' :: r < j' < |effects| ==> !(effects[j'].Row? && effects[j'].key == k)
    decreases |effects| - j
  {
    if exists j' :: j < j' < |effects| && effects[j'].Row? && effects[j'].key == k then
      var j' :| j < j' < |effects| && effects[j'].Row? && effects[j'].key == k;
      LastRowFor(effects, k, j')
    else j
  }

  /** The last row for a key wins: an earlier row with the same key is overwritten. */
  lemma ApplyLastRowWins(effects: seq<LineEffect>, j: nat)
    requires Apply(map[], effects).Some?
    requires j < |effects| && effects[j].Row?
    requires forall j' :: j < j' < |effects| ==> !(effects[j'].Row? && effects[j'].key == effects[j].key)
    ensures effects[j].key in Apply(map[], effects).value
    ensures Apply(map[], effects).value[effects[j].key] == effects[j].value
  {
    var e := effects[j];
    var pre, post := effects[..j], effects[j + 1..];
    assert effects == pre + ([e] + post);
    ApplyAppend(map[], pre, [e] + post);
    var m := Apply(map[], pre).value;
    assert ([e] + post)[1..] == post;
    assert forall j' :: 0 <= j' < |post| ==> post[j'] == effects[j + 1 + j'];
    ApplyKeepsKey(m[e.key := e.value], post, e.key);
  }

  /** For the lines of a file: the table's keys are the keys of its rows. */
  lemma XsecKeys(lines: seq<string>, d: char, c: string, k: int)
    requires Apply(map[], Effects(lines, d, c)).Some?
    ensures k in Apply(map[], Effects(lines, d, c)).value <==>
      exists j :: 0 <= j < |lines| && LineEffectOf(lines[j], d, c).Row? && LineEffectOf(lines[j], d, c).key == k
  {
    var effects := Effects(lines, d, c);
    ApplyKeysExact(effects, k);
  }

  /** For the lines of a file: the value read for a key is the one on its last row. */
  lemma LastRowWins(lines: seq<string>, d: char, c: string, j: nat)
    requires Apply(map[], Effects(lines, d, c)).Some?
    requires j < |lines| && LineEffectOf(lines[j], d, c).Row?
    requires forall j' :: j < j' < |lines| ==>
      !(LineEffectOf(lines[j'], d, c).Row? && LineEffectOf(lines[j'], d, c).key == LineEffectOf(lines[j], d, c).key)
    ensures var e := LineEffectOf(lines[j], d, c);
      e.key in Apply(map[], Effects(lines, d, c)).value && Apply(map[], Effects(lines, d, c)).value[e.key] == e.value
  {
    ApplyLastRowWins(Effects(lines, d, c), j);
  }

  /** The read fails exactly when some effect raises. */
  lemma {:induction false} ApplyFailsIff(acc: map<int, real>, effects: seq<LineEffect>)
    ensures Apply(acc, effects).None? <==> exists j :: 0 <= j < |effects| && effects[j].Fails?
    decreases |effects|
  {
    if |effects| > 0 {
      var rest := effects[1..];
      assert forall j :: 0 <= j < |rest| ==> rest[j] == effects[j + 1];
      match effects[0]
      case Skip =>
        ApplyFailsIff(acc, rest);
        if j :| 0 <= j < |effects| && effects[j].Fails? {
          assert rest[j - 1].Fails?;
        }
      case Row(k0, v0) =>
        ApplyFailsIff(acc[k0 := v0], rest);
        if j :| 0 <= j < |effects| && effects[j].Fails? {
          assert rest[j - 1].Fails?;
        }
      case Fails =>
    }
  }

  /** `loadXsec` returns a table exactly when no line of the file raises. */
  lemma XsecFailsIff(lines: seq<string>, d: char, c: string)
    ensures Apply(map[], Effects(lines, d, c)).None? <==>
      exists j :: 0 <= j < |lines| && LineEffectOf(lines[j], d, c).Fails?
  {
    ApplyFailsIff(map[], Effects(lines, d, c));
  }

  // ---------------------------------------------------------------------
  // get_maximum / get_minimum / get_minimum_positive / get_stack_sum
  // ---------------------------------------------------------------------

  /** The objects these queries receive. A graph has no `GetBinContent`, so the
      lookup raises inside the `try` and the catch-all returns `None`. */
  datatype Obj = Histogram(bins: seq<real>) | Graph(ys: seq<real>) | Stack(hists: seq<seq<real>>)

  predicate WellFormed(o: Obj) {
    o.Stack? ==> SameBinning(o.hists)
  }

  /** `get_stack_sum(stack)`: the element-wise sum, `None` for an empty stack. */
  function StackTotal(hists: seq<seq<real>>): (r: Option<seq<real>>)
    requires SameBinning(hists)
    ensures r.None? <==> |hists| == 0
    ensures r.Some? ==> |r.value| == |hists[0]| && forall b :: 0 <= b < |hists[0]| ==> r.value[b] == ColumnSum(hists, b)
  {
    if |hists| == 0 then None
    else
      forall b | 0 <= b < |hists[0]| ensures SumOf(hists)[b] == ColumnSum(hists, b) { SumOfAt(hists, b); }
      Some(SumOf(hists))
  }

  /** The contents `get_maximum` and friends look at: a histogram's own bins,
      the summed bins of a stack, nothing for a graph. */
  function Contents(o: Obj): Option<seq<real>>
    requires WellFormed(o)
  {
    match o
    case Histogram(bins) => Some(bins)
    case Graph(_) => None
    case Stack(hists) => StackTotal(hists)
  }

  /** `get_maximum`: the largest bin content, for a stack the largest bin of
      the stacked total; `None` for no bins, an empty stack or a graph. */
  function GetMaximum(o: Obj): (r: Option<real>)
    requires WellFormed(o)
    ensures r.None? <==> Contents(o).None? || |Contents(o).value| == 0
    ensures r.Some? ==> r.value in Contents(o).value
    ensures r.Some? ==> forall b :: 0 <= b < |Contents(o).value| ==> Contents(o).value[b] <= r.value
  {
    match Contents(o)
    case None => None
    case Some(s) => MaxBins(s)
  }

  /** `get_minimum`: the smallest bin content, for a stack of the stacked total. */
  function GetMinimum(o: Obj): (r: Option<real>)
    requires WellFormed(o)
    ensures r.None? <==> Contents(o).None? || |Contents(o).value| == 0
    ensures r.Some? ==> r.value in Contents(o).value
    ensures r.Some? ==> forall b :: 0 <= b < |Contents(o).value| ==> r.value <= Contents(o).value[b]
  {
    match Contents(o)
    case None => None
    case Some(s) => MinBins(s)
  }

  /** `get_minimum_positive`: the smallest strictly positive bin content;
      `None` when no bin is positive. */
  function GetMinimumPositive(o: Obj): (r: Option<real>)
    requires WellFormed(o)
    ensures r.None? <==> Contents(o).None? || forall b :: 0 <= b < |Contents(o).value| ==> Contents(o).value[b] <= 0.0
    ensures r.Some? ==> r.value > 0.0 && r.value in Contents(o).value
    ensures r.Some? ==> forall b :: 0 <= b < |Contents(o).value| && Contents(o).value[b] > 0.0 ==> r.value <= Contents(o).value[b]
  {
    match Contents(o)
    case None => None
    case Some(s) => MinPositiveBins(s)
  }

  /** For a stack, the maximum is attained by the total of some bin and bounds
      the total of every bin. */
  lemma StackMaximumIsLargestTotal(hists: seq<seq<real>>)
    requires SameBinning(hists) && |hists| > 0 && |hists[0]| > 0
    ensures GetMaximum(Stack(hists)).Some?
    ensures exists b :: 0 <= b < |hists[0]| && GetMaximum(Stack(hists)).value == ColumnSum(hists, b)
    ensures forall b :: 0 <= b < |hists[0]| ==> ColumnSum(hists, b) <= GetMaximum(Stack(hists)).value
  {
    var t := StackTotal(hists).value;
    var m := GetMaximum(Stack(hists)).value;
    var b :| 0 <= b < |t| && t[b] == m;
    assert ColumnSum(hists, b) == m;
  }
}
