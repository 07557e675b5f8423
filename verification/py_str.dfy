/** The few Python `str` operations the plotting code uses on draw options,
    labels and text-file lines: `strip()`, `split()`, `split(delimiter)`,
    `upper()`, `lower()`, `startswith`, `endswith` and `in`. Characters are
    ASCII; Python 2 byte strings in the default locale behave this way. */
module PyStr {

  import opened PyBase

  /** The characters `str.split()` and `str.strip()` treat as whitespace. */
  predicate IsSpace(c: char) {
    c == ' ' || c == '\t' || c == '\n' || c == '\r' || c == '\U{000B}' || c == '\U{000C}'
  }

  predicate AllSpace(s: string) {
    forall i :: 0 <= i < |s| ==> IsSpace(s[i])
  }

  predicate NoSpace(s: string) {
    forall i :: 0 <= i < |s| ==> !IsSpace(s[i])
  }

  /** `s.lstrip()`. */
  function TrimLeft(s: string): (r: string)
    ensures |r| <= |s|
    ensures r == [] || !IsSpace(r[0])
  {
    if |s| > 0 && IsSpace(s[0]) then TrimLeft(s[1..]) else s
  }

  /** `s.lstrip()` drops a run of blanks from the front and keeps the rest. */
  lemma {:induction false} TrimLeftSplits(s: string)
    ensures var r := TrimLeft(s); r == s[|s| - |r|..] && AllSpace(s[..|s| - |r|])
  {
    if |s| > 0 && IsSpace(s[0]) {
      TrimLeftSplits(s[1..]);
      var r := TrimLeft(s[1..]);
      assert s[|s| - |r|..] == s[1..][|s| - 1 - |r|..];
      assert s[..|s| - |r|] == [s[0]] + s[1..][..|s| - 1 - |r|];
    }
  }

  /** `s.rstrip()`. */
  function TrimRight(s: string): (r: string)
    ensures |r| <= |s| && r == s[..|r|]
    ensures AllSpace(s[|r|..])
    ensures r == [] || !IsSpace(r[|r| - 1])
  {
    if |s| > 0 && IsSpace(s[|s| - 1]) then
      var r := TrimRight(s[..|s| - 1]);
      assert s[|r|..] == s[..|s| - 1][|r|..] + [s[|s| - 1]];
      r
    else s
  }

  /** `s.strip()`. */
  function Strip(s: string): (r: string)
    ensures |r| <= |s|
    ensures r == [] <==> AllSpace(s)
    ensures r == [] || (!IsSpace(r[0]) && !IsSpace(r[|r| - 1]))
    ensures exists i, j :: 0 <= i <= j <= |s| && r == s[i..j] && AllSpace(s[..i]) && AllSpace(s[j..])
  {
    var t := TrimLeft(s);
    BlankIffTrimmedEmpty(s);
    TrimLeftSplits(s);
    var r := TrimRight(t);
    var i := |s| - |t|;
    assert r == s[i..i + |r|] && s[i + |r|..] == t[|r|..];
    r
  }

  lemma BlankIffTrimmedEmpty(s: string)
    ensures TrimLeft(s) == [] <==> AllSpace(s)
  {
    var t := TrimLeft(s);
    TrimLeftSplits(s);
    if t == [] {
      assert s[..|s|] == s;
    } else {
      assert s[|s| - |t|] == t[0];
    }
  }

  /** The longest prefix of `s` that holds no whitespace. */
  function TakeWord(s: string): (r: string)
    ensures r <= s && NoSpace(r)
    ensures |r| == |s| || IsSpace(s[|r|])
  {
    if |s| == 0 || IsSpace(s[0]) then [] else [s[0]] + TakeWord(s[1..])
  }

  /** `s.split()[0]`, or `None` where Python raises `IndexError` because `s`
      holds only whitespace. */
  function FirstToken(s: string): (r: Option<string>)
    ensures r.None? <==> AllSpace(s)
    ensures r.Some? ==> FirstWordAt(s, |s| - |TrimLeft(s)|, r.value)
  {
    BlankIffTrimmedEmpty(s);
    if TrimLeft(s) == [] then None
    else
      FirstWordPosition(s);
      Some(TakeWord(TrimLeft(s)))
  }

  /** `w` is the first word of `s` and starts at `k`: only blanks before it,
      no blank in it, and a blank or the end right after it. */
  predicate FirstWordAt(s: string, k: int, w: string) {
    && 0 <= k && |w| > 0 && NoSpace(w)
    && k + |w| <= |s| && s[k..k + |w|] == w
    && AllSpace(s[..k])
    && (k + |w| == |s| || IsSpace(s[k + |w|]))
  }

  lemma FirstWordPosition(s: string)
    requires TrimLeft(s) != []
    ensures FirstWordAt(s, |s| - |TrimLeft(s)|, TakeWord(TrimLeft(s)))
  {
    var t := TrimLeft(s);
    TrimLeftSplits(s);
    assert |TakeWord(t)| > 0;
    WordInSuffix(s, t, TakeWord(t));
  }

  lemma WordInSuffix(s: string, t: string, w: string)
    requires |t| <= |s| && t == s[|s| - |t|..] && AllSpace(s[..|s| - |t|])
    requires w <= t && |w| > 0 && NoSpace(w) && (|w| == |t| || IsSpace(t[|w|]))
    ensures FirstWordAt(s, |s| - |t|, w)
  {
    var k := |s| - |t|;
    assert s[k..k + |w|] == t[..|w|];
  }

  /** Whitespace that follows a non-blank string does not change its first token:
      this is why appending " SAME" to a draw option never alters the token. */
  lemma {:induction false} TrimLeftAppend(s: string, t: string)
    requires TrimLeft(s) != []
    ensures TrimLeft(s + t) == TrimLeft(s) + t
  {
    assert |s| > 0 && (s + t)[0] == s[0];
    if IsSpace(s[0]) {
      TrimLeftAppend(s[1..], t);
      assert (s + t)[1..] == s[1..] + t;
    }
  }

  lemma {:induction false} TakeWordAppend(s: string, t: string)
    requires t == [] || IsSpace(t[0])
    ensures TakeWord(s + t) == TakeWord(s)
  {
    if |s| == 0 {
      assert s + t == t;
    } else if !IsSpace(s[0]) {
      TakeWordAppend(s[1..], t);
      assert (s + t)[1..] == s[1..] + t;
    }
  }

  lemma FirstTokenAppend(s: string, t: string)
    requires !AllSpace(s)
    requires t == [] || IsSpace(t[0])
    ensures FirstToken(s + t) == FirstToken(s)
  {
    BlankIffTrimmedEmpty(s);
    TrimLeftAppend(s, t);
    TakeWordAppend(TrimLeft(s), t);
  }

  lemma {:induction false} TakeWordOfWord(s: string)
    requires NoSpace(s)
    ensures TakeWord(s) == s
  {
    if |s| > 0 {
      TakeWordOfWord(s[1..]);
    }
  }

  /** A single word is its own first token. */
  lemma FirstTokenOfWord(s: string)
    requires |s| > 0 && NoSpace(s)
    ensures FirstToken(s) == Some(s)
  {
    assert !IsSpace(s[0]);
    TakeWordOfWord(s);
  }

  function UpperChar(c: char): char {
    if 'a' <= c <= 'z' then (c as int - 32) as char else c
  }

  function LowerChar(c: char): char {
    if 'A' <= c <= 'Z' then (c as int + 32) as char else c
  }

  /** `s.upper()`. */
  function Upper(s: string): (r: string)
    ensures |r| == |s| && forall i :: 0 <= i < |s| ==> r[i] == UpperChar(s[i])
  {
    seq(|s|, i requires 0 <= i < |s| => UpperChar(s[i]))
  }

  /** `s.lower()`. */
  function Lower(s: string): (r: string)
    ensures |r| == |s| && forall i :: 0 <= i < |s| ==> r[i] == LowerChar(s[i])
  {
    seq(|s|, i requires 0 <= i < |s| => LowerChar(s[i]))
  }

  /** `sub in s`. */
  predicate Contains(s: string, sub: string)
    decreases |s|
  {
    sub <= s || (|s| > 0 && Contains(s[1..], sub))
  }

  lemma {:induction false} ContainsChar(s: string, c: char)
    ensures Contains(s, [c]) <==> c in s
  {
    if |s| > 0 {
      ContainsChar(s[1..], c);
      assert c in s <==> c == s[0] || c in s[1..];
    }
  }

  /** A string that holds a substring holds each of its characters. */
  lemma {:induction false} ContainsEach(s: string, sub: string, k: nat)
    requires k < |sub| && Contains(s, sub)
    ensures sub[k] in s
  {
    if sub <= s {
      assert s[k] == sub[k];
    } else {
      ContainsEach(s[1..], sub, k);
      assert sub[k] in s[1..];
    }
  }

  /** `s.endswith(suffix)`. */
  predicate EndsWith(s: string, suffix: string) {
    |suffix| <= |s| && s[|s| - |suffix|..] == suffix
  }

  lemma EndsWithAppend(p: string, suffix: string)
    ensures EndsWith(p + suffix, suffix)
  {
    assert (p + suffix)[|p|..] == suffix;
  }

  /** `s.split(d)` for a one-character delimiter: every occurrence of `d` cuts,
      so `n` delimiters give `n + 1` fields. */
  function SplitOn(s: string, d: char): (r: seq<string>)
    ensures |r| >= 1
    ensures forall i :: 0 <= i < |r| ==> d !in r[i]
  {
    if |s| == 0 then [""]
    else
      var rest := SplitOn(s[1..], d);
      if s[0] == d then [""] + rest else [[s[0]] + rest[0]] + rest[1..]
  }

  /** `d.join(parts)`. */
  function Join(parts: seq<string>, d: char): string
    requires |parts| >= 1
  {
    if |parts| == 1 then parts[0] else parts[0] + [d] + Join(parts[1..], d)
  }

  /** Splitting loses nothing: joining the fields again gives back the line. */
  lemma {:induction false} JoinSplitOn(s: string, d: char)
    ensures Join(SplitOn(s, d), d) == s
  {
    if |s| > 0 {
      var rest := SplitOn(s[1..], d);
      JoinSplitOn(s[1..], d);
      if s[0] == d {
        assert SplitOn(s, d)[1..] == rest;
        assert s == [d] + s[1..];
      } else {
        var r := SplitOn(s, d);
        assert r[0] == [s[0]] + rest[0];
        if |rest| == 1 {
          assert s == [s[0]] + s[1..];
        } else {
          assert r[1..] == rest[1..];
          assert Join(rest, d) == rest[0] + [d] + Join(rest[1..], d);
          assert s == [s[0]] + s[1..];
        }
      }
    }
  }
}
