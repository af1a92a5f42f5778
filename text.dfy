/** The few string and byte-slice routines of Go's standard library that the core relies on. */
module Text {
  import opened Basics

  predicate IsAscii(s: string) {
    forall i :: 0 <= i < |s| ==> s[i] as int < 128
  }

  /** `[]byte(s)` for a string of ASCII characters (UTF-8 is the identity there). */
  function AsciiBytes(s: string): (b: seq<byte>)
    requires IsAscii(s)
    ensures |b| == |s| && forall i :: 0 <= i < |s| ==> b[i] == s[i] as int
  {
    seq(|s|, i requires 0 <= i < |s| => s[i] as int)
  }

  /** `string(b)`: one character per byte. Go keeps the raw bytes; the two agree on ASCII, and every
      byte above 127 is a character no decoder of this model accepts, as in Go. */
  function BytesToString(b: seq<byte>): (s: string)
    ensures |s| == |b| && forall i :: 0 <= i < |b| ==> s[i] as int == b[i]
  {
    seq(|b|, i requires 0 <= i < |b| => b[i] as char)
  }

  lemma AsciiRoundTrip(s: string)
    requires IsAscii(s)
    ensures BytesToString(AsciiBytes(s)) == s
  {
    var t := BytesToString(AsciiBytes(s));
    assert |t| == |s|;
    forall i | 0 <= i < |s| ensures t[i] == s[i] {
      assert t[i] as int == s[i] as int;
    }
  }

  // ---------------------------------------------------------------------------------------------
  // bytes.TrimSpace

  /** The ASCII white space of `bytes.TrimSpace`: '\t', '\n', '\v', '\f', '\r' and ' '. */
  predicate IsSpaceByte(b: byte) {
    b == 9 || b == 10 || b == 11 || b == 12 || b == 13 || b == 32
  }

  predicate AllSpace(w: seq<byte>) {
    forall i :: 0 <= i < |w| ==> IsSpaceByte(w[i])
  }

  /** No white space at either end (the empty slice qualifies). */
  predicate Trimmed(b: seq<byte>) {
    b == [] || (!IsSpaceByte(b[0]) && !IsSpaceByte(b[|b| - 1]))
  }

  /** The slice without its leading white space: a suffix of `b` behind an all-space prefix. */
  function TrimLeft(b: seq<byte>): (r: seq<byte>)
    ensures r == [] || !IsSpaceByte(r[0])
    ensures |r| <= |b| && r == b[|b| - |r|..] && AllSpace(b[..|b| - |r|])
  {
    if |b| > 0 && IsSpaceByte(b[0]) then
      var r := TrimLeft(b[1..]);
      assert b[..|b| - |r|] == [b[0]] + b[1..][..|b[1..]| - |r|];
      r
    else
      b
  }

  /** The slice without its trailing white space: a prefix of `b` before an all-space suffix. */
  function TrimRight(b: seq<byte>): (r: seq<byte>)
    ensures r == [] || !IsSpaceByte(r[|r| - 1])
    ensures |r| <= |b| && r == b[..|r|] && AllSpace(b[|r|..])
  {
    if |b| > 0 && IsSpaceByte(b[|b| - 1]) then
      var p := b[..|b| - 1];
      var r := TrimRight(p);
      assert b[|r|..] == p[|r|..] + [b[|b| - 1]];
      r
    else
      b
  }

  /** `bytes.TrimSpace`, for ASCII white space: the slice without its leading and trailing white space. */
  function TrimSpace(b: seq<byte>): (r: seq<byte>)
    ensures Trimmed(r)
  {
    TrimRight(TrimLeft(b))
  }

  lemma {:induction false} TrimLeftSpaces(w: seq<byte>, y: seq<byte>)
    requires AllSpace(w)
    ensures TrimLeft(w + y) == TrimLeft(y)
    decreases |w|
  {
    if w != [] {
      assert (w + y)[0] == w[0] && (w + y)[1..] == w[1..] + y;
      TrimLeftSpaces(w[1..], y);
    } else {
      assert w + y == y;
    }
  }

  lemma {:induction false} TrimRightSpaces(y: seq<byte>, w: seq<byte>)
    requires AllSpace(w)
    ensures TrimRight(y + w) == TrimRight(y)
    decreases |w|
  {
    if w != [] {
      var p := w[..|w| - 1];
      assert (y + w)[|y + w| - 1] == w[|w| - 1] && (y + w)[..|y + w| - 1] == y + p;
      TrimRightSpaces(y, p);
    } else {
      assert y + w == y;
    }
  }

  /** Trimming removes exactly the white space around a trimmed slice, whatever that white space is. */
  lemma TrimSpaceOfPadded(w1: seq<byte>, x: seq<byte>, w2: seq<byte>)
    requires AllSpace(w1) && AllSpace(w2) && Trimmed(x)
    ensures TrimSpace(w1 + x + w2) == x
  {
    assert w1 + x + w2 == w1 + (x + w2);
    TrimLeftSpaces(w1, x + w2);
    if x == [] {
      assert x + w2 == w2 + [];
      TrimLeftSpaces(w2, []);
      assert TrimLeft(x + w2) == [];
    } else {
      assert (x + w2)[0] == x[0];
      assert TrimLeft(x + w2) == x + w2;
      TrimRightSpaces(x, w2);
      assert TrimRight(x) == x;
    }
  }

  /** A slice with no white space at either end is left as it is. */
  lemma TrimSpaceOfTrimmed(x: seq<byte>)
    requires Trimmed(x)
    ensures TrimSpace(x) == x
  {
    TrimSpaceOfPadded([], x, []);
    assert [] + x + [] == x;
  }

  // ---------------------------------------------------------------------------------------------
  // strings.Split(s, " ")[1]

  /** The index of the first `c` in `s`, or -1. */
  function IndexOf(s: string, c: char): (r: int)
    ensures -1 <= r < |s|
    ensures r >= 0 ==> s[r] == c && forall i :: 0 <= i < r ==> s[i] != c
    ensures r < 0 ==> forall i :: 0 <= i < |s| ==> s[i] != c
    decreases |s|
  {
    if |s| == 0 then -1
    else if s[0] == c then 0
    else
      var r := IndexOf(s[1..], c);
      if r < 0 then -1 else r + 1
  }

  /** The index of the last `c` in `s`, or -1. */
  function LastIndexOf(s: string, c: char): (r: int)
    ensures -1 <= r < |s|
    ensures r >= 0 ==> s[r] == c && forall i :: r < i < |s| ==> s[i] != c
    ensures r < 0 ==> forall i :: 0 <= i < |s| ==> s[i] != c
    decreases |s|
  {
    if |s| == 0 then -1
    else if s[|s| - 1] == c then |s| - 1
    else LastIndexOf(s[..|s| - 1], c)
  }

  /** `strings.Split(s, " ")[1]`: the second space-separated field, or None where Go's index
      expression panics because `s` holds no space. */
  function SecondField(s: string): (r: Option<string>)
    ensures r.None? <==> forall i :: 0 <= i < |s| ==> s[i] != ' '
    ensures r.Some? ==> forall i :: 0 <= i < |r.value| ==> r.value[i] != ' '
  {
    var i := IndexOf(s, ' ');
    if i < 0 then None
    else
      var rest := s[i + 1..];
      var j := IndexOf(rest, ' ');
      Some(if j < 0 then rest else rest[..j])
  }

  /** A "Scheme value" header yields its value when the scheme and the value hold no space. */
  lemma SecondFieldOfHeader(scheme: string, v: string)
    requires forall i :: 0 <= i < |scheme| ==> scheme[i] != ' '
    requires forall i :: 0 <= i < |v| ==> v[i] != ' '
    ensures SecondField(scheme + " " + v) == Some(v)
  {
    var s := scheme + " " + v;
    assert s[|scheme|] == ' ';
    assert IndexOf(s, ' ') == |scheme|;
    assert s[|scheme| + 1..] == v;
  }
}
