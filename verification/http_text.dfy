/**
 * The string operations the HTTP client relies on, over ASCII text:
 * lower-casing, prefix tests, trimming, searching, splitting on a separator
 * and decimal formatting, each with the property the client depends on.
 */
module HttpText {

  function ToLowerChar(c: char): (l: char)
    ensures 'A' <= c <= 'Z' ==> l as int == c as int + 32
    ensures !('A' <= c <= 'Z') ==> l == c
  {
    if 'A' <= c <= 'Z' then (c as int + 32) as char else c
  }

  function ToLower(s: string): (r: string)
    ensures |r| == |s| && forall i :: 0 <= i < |s| ==> r[i] == ToLowerChar(s[i])
  {
    seq(|s|, i requires 0 <= i < |s| => ToLowerChar(s[i]))
  }

  predicate BeginsWith(s: string, prefix: string)
  {
    |prefix| <= |s| && s[..|prefix|] == prefix
  }

  /** A case-insensitive prefix test: the first case-insensitive match of `prefix` in `s` is at 0. */
  predicate BeginsWithNoCase(s: string, prefix: string)
  {
    BeginsWith(ToLower(s), ToLower(prefix))
  }

  /** Characters the trimming removes: the space and every control character below it. */
  predicate IsBlank(c: char)
  {
    c as int <= 32
  }

  function StripLeft(s: string): (r: string)
    ensures |r| <= |s| && r == s[|s| - |r|..]
    ensures |r| > 0 ==> !IsBlank(r[0])
    ensures forall i :: 0 <= i < |s| - |r| ==> IsBlank(s[i])
    ensures |s| == 0 || !IsBlank(s[0]) ==> r == s
    decreases |s|
  {
    if |s| > 0 && IsBlank(s[0]) then StripLeft(s[1..]) else s
  }

  function StripRight(s: string): (r: string)
    ensures |r| <= |s| && r == s[..|r|]
    ensures |r| > 0 ==> !IsBlank(r[|r| - 1])
    ensures forall i :: |r| <= i < |s| ==> IsBlank(s[i])
    ensures |s| == 0 || !IsBlank(s[|s| - 1]) ==> r == s
    decreases |s|
  {
    if |s| > 0 && IsBlank(s[|s| - 1]) then StripRight(s[..|s| - 1]) else s
  }

  /** Trimming both ends: what is left has no blank at either end. */
  function StripEdges(s: string): (r: string)
    ensures |r| <= |s|
    ensures |r| > 0 ==> !IsBlank(r[0]) && !IsBlank(r[|r| - 1])
    ensures (forall i :: 0 <= i < |s| ==> !IsBlank(s[i])) ==> r == s
  {
    StripRight(StripLeft(s))
  }

  /** Trimming a trimmed string changes nothing. */
  lemma {:induction false} StripEdgesIdempotent(s: string)
    ensures StripEdges(StripEdges(s)) == StripEdges(s)
  {
    var t := StripEdges(s);
    if |t| > 0 {
      assert !IsBlank(t[0]) && !IsBlank(t[|t| - 1]);
      assert StripLeft(t) == t;
      assert StripRight(t) == t;
    }
  }

  /**
   * Trimming removes only blanks: the result is the slice of the input that
   * starts where the left trim stopped, and everything around it is blank.
   */
  lemma {:induction false} StripEdgesSlice(s: string)
    ensures |StripEdges(s)| <= |StripLeft(s)| <= |s|
    ensures StripEdges(s) == s[|s| - |StripLeft(s)|..|s| - |StripLeft(s)| + |StripEdges(s)|]
    ensures forall i :: 0 <= i < |s| - |StripLeft(s)| ==> IsBlank(s[i])
    ensures forall i :: |s| - |StripLeft(s)| + |StripEdges(s)| <= i < |s| ==> IsBlank(s[i])
  {
    StripEdgesIsSlice(s, StripLeft(s), StripEdges(s));
    StripEdgesTailBlank(s, StripLeft(s), StripEdges(s));
  }

  lemma {:induction false} StripEdgesIsSlice(s: string, l: string, r: string)
    requires l == StripLeft(s) && r == StripRight(l)
    ensures |r| <= |l| <= |s|
    ensures r == s[|s| - |l|..|s| - |l| + |r|]
  {
    var off := |s| - |l|;
    assert l == s[off..];
    assert r == l[..|r|];
    assert s[off..][..|r|] == s[off..off + |r|];
  }

  lemma {:induction false} StripEdgesTailBlank(s: string, l: string, r: string)
    requires l == StripLeft(s) && r == StripRight(l)
    ensures forall i :: |s| - |l| + |r| <= i < |s| ==> IsBlank(s[i])
  {
    var off := |s| - |l|;
    assert l == s[off..];
    forall i | off + |r| <= i < |s|
      ensures IsBlank(s[i])
    {
      assert s[i] == l[i - off];
    }
  }

  /** The first index of `c` in `s`, or -1. */
  function FindChar(s: string, c: char): (i: int)
    ensures -1 <= i < |s|
    ensures i >= 0 ==> s[i] == c
    ensures forall j :: 0 <= j < |s| && (i == -1 || j < i) ==> s[j] != c
    decreases |s|
  {
    if |s| == 0 then -1
    else if s[0] == c then 0
    else
      var k := FindChar(s[1..], c);
      if k == -1 then -1 else k + 1
  }

  /** The pieces of `s` between occurrences of `sep`, as many as there are separators plus one. */
  function Split(s: string, sep: char): (pieces: seq<string>)
    ensures |pieces| > 0
    ensures forall k :: 0 <= k < |pieces| ==> sep !in pieces[k]
    decreases |s|
  {
    var i := FindChar(s, sep);
    if i == -1 then [s]
    else
      assert sep !in s[..i];
      [s[..i]] + Split(s[i + 1..], sep)
  }

  /** Joins pieces with a separator between each two. */
  function Join(pieces: seq<string>, sep: char): string
    requires |pieces| > 0
    decreases |pieces|
  {
    if |pieces| == 1 then pieces[0] else pieces[0] + [sep] + Join(pieces[1..], sep)
  }

  /** Splitting loses nothing: joining the pieces gives the text back. */
  lemma {:induction false} SplitJoin(s: string, sep: char)
    ensures Join(Split(s, sep), sep) == s
    decreases |s|
  {
    var i := FindChar(s, sep);
    if i != -1 {
      SplitJoin(s[i + 1..], sep);
      assert s == s[..i] + [sep] + s[i + 1..];
    }
  }

  /** The `k`-th piece of `s` split at `sep`, or the empty string when there are fewer pieces. */
  function Slice(s: string, sep: char, k: nat): (r: string)
    ensures k < |Split(s, sep)| ==> r == Split(s, sep)[k]
    ensures k >= |Split(s, sep)| ==> r == ""
  {
    var p := Split(s, sep);
    if k < |p| then p[k] else ""
  }

  // --------------------------------------------------------- decimals

  predicate IsDigit(c: char) { '0' <= c <= '9' }

  function DigitChar(d: nat): (c: char)
    requires d < 10
    ensures IsDigit(c) && c as int - '0' as int == d
  {
    ('0' as int + d) as char
  }

  /** The decimal digits of `n`, most significant first, without leading zeros. */
  function Digits(n: nat): (s: string)
    ensures |s| > 0 && forall i :: 0 <= i < |s| ==> IsDigit(s[i])
    ensures |s| > 1 ==> s[0] != '0'
    decreases n
  {
    if n < 10 then [DigitChar(n)] else Digits(n / 10) + [DigitChar(n % 10)]
  }

  /** The value of a string of decimal digits: the reference reading of what Itos writes. */
  function DigitsValue(s: string): nat
    requires forall i :: 0 <= i < |s| ==> IsDigit(s[i])
    decreases |s|
  {
    if |s| == 0 then 0
    else
      assert IsDigit(s[|s| - 1]);
      10 * DigitsValue(s[..|s| - 1]) + (s[|s| - 1] as int - '0' as int)
  }

  lemma {:induction false} DigitsRoundTrip(n: nat)
    ensures DigitsValue(Digits(n)) == n
    decreases n
  {
    if n >= 10 {
      DigitsRoundTrip(n / 10);
      var s := Digits(n);
      assert s[..|s| - 1] == Digits(n / 10);
    }
  }

  /** A decimal integer as text, with a leading '-' for a negative one. */
  function Itos(n: int): (s: string)
    ensures |s| > 0
    ensures n >= 0 ==> s == Digits(n)
    ensures n < 0 ==> s == "-" + Digits(-n)
  {
    if n >= 0 then Digits(n) else "-" + Digits(-n)
  }
}
