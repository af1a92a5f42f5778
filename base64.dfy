/** The standard base64 encoding of RFC 4648 section 4, as Go's `base64.StdEncoding` encodes and
    decodes it: padding is written and required, carriage returns and line feeds in the input are
    skipped, and the unused low bits of a padded final group are not checked (Go's non-strict mode). */
module Base64 {
  import opened Basics
  import Text

  /** The character for a 6-bit value. */
  function Symbol(v: int): (c: char)
    requires 0 <= v < 64
    ensures Value(c) == v
  {
    if v < 26 then ('A' as int + v) as char
    else if v < 52 then ('a' as int + v - 26) as char
    else if v < 62 then ('0' as int + v - 52) as char
    else if v == 62 then '+'
    else '/'
  }

  /** The 6-bit value of an alphabet character, or -1 for any other character. */
  function Value(c: char): (v: int)
    ensures -1 <= v < 64
  {
    if 'A' <= c <= 'Z' then c as int - 'A' as int
    else if 'a' <= c <= 'z' then c as int - 'a' as int + 26
    else if '0' <= c <= '9' then c as int - '0' as int + 52
    else if c == '+' then 62
    else if c == '/' then 63
    else -1
  }

  predicate IsSymbol(c: char) {
    Value(c) >= 0
  }

  /** A character that `Encode` may write: an alphabet symbol or the pad '='. */
  predicate IsOutputChar(c: char) {
    IsSymbol(c) || c == '='
  }

  /** The four symbols of a full group of three bytes. */
  function Group(x: byte, y: byte, z: byte): (g: string)
    ensures |g| == 4 && IsSymbol(g[0]) && IsSymbol(g[1]) && IsSymbol(g[2]) && IsSymbol(g[3])
  {
    [Symbol(x / 4), Symbol(x % 4 * 16 + y / 16), Symbol(y % 16 * 4 + z / 64), Symbol(z % 64)]
  }

  function Encode(b: seq<byte>): (s: string)
    ensures |s| == 4 * ((|b| + 2) / 3)
    ensures |b| > 0 ==> |s| >= 4
    ensures forall i :: 0 <= i < |s| ==> IsOutputChar(s[i])
    decreases |b|
  {
    if |b| == 0 then []
    else if |b| == 1 then
      [Symbol(b[0] / 4), Symbol(b[0] % 4 * 16), '=', '=']
    else if |b| == 2 then
      [Symbol(b[0] / 4), Symbol(b[0] % 4 * 16 + b[1] / 16), Symbol(b[1] % 16 * 4), '=']
    else
      Group(b[0], b[1], b[2]) + Encode(b[3..])
  }

  /** The input with every '\r' and '\n' removed: Go's decoder skips them wherever they stand. */
  function StripNewlines(s: string): (t: string)
    ensures |t| <= |s|
    ensures (forall i :: 0 <= i < |s| ==> s[i] != '\r' && s[i] != '\n') ==> t == s
  {
    if |s| == 0 then []
    else if s[0] == '\r' || s[0] == '\n' then StripNewlines(s[1..])
    else [s[0]] + StripNewlines(s[1..])
  }

  /** The three bytes of a full group, from the values of its four symbols. */
  function Triple(a: int, b: int, c: int, d: int): seq<byte>
    requires 0 <= a < 64 && 0 <= b < 64 && 0 <= c < 64 && 0 <= d < 64
  {
    [a * 4 + b / 16, b % 16 * 16 + c / 4, c % 4 * 64 + d]
  }

  /** The last group, which may end in "==" (one byte) or "=" (two bytes). */
  function DecodeLast(a: char, b: char, c: char, d: char): Option<seq<byte>> {
    if !IsSymbol(a) || !IsSymbol(b) then None
    else if c == '=' && d == '=' then Some([Value(a) * 4 + Value(b) / 16])
    else if !IsSymbol(c) then None
    else if d == '=' then Some([Value(a) * 4 + Value(b) / 16, Value(b) % 16 * 16 + Value(c) / 4])
    else if !IsSymbol(d) then None
    else Some(Triple(Value(a), Value(b), Value(c), Value(d)))
  }

  /** Groups of four characters; only the last may carry padding. */
  function DecodeGroups(t: string): (r: Option<seq<byte>>)
    ensures r.Some? ==> |t| % 4 == 0 && 4 * |r.value| <= 3 * |t| < 4 * |r.value| + 12
    decreases |t|
  {
    if |t| == 0 then Some([])
    else if |t| < 4 then None
    else if |t| == 4 then DecodeLast(t[0], t[1], t[2], t[3])
    else if IsSymbol(t[0]) && IsSymbol(t[1]) && IsSymbol(t[2]) && IsSymbol(t[3]) then
      match DecodeGroups(t[4..])
      case None => None
      case Some(rest) => Some(Triple(Value(t[0]), Value(t[1]), Value(t[2]), Value(t[3])) + rest)
    else None
  }

  /** `base64.StdEncoding.DecodeString`: None where Go returns an error. */
  function Decode(s: string): (r: Option<seq<byte>>)
    ensures r.Some? ==> |StripNewlines(s)| % 4 == 0 && 4 * |r.value| <= 3 * |s|
    ensures r.Some? ==> 3 * |StripNewlines(s)| < 4 * |r.value| + 12
  {
    DecodeGroups(StripNewlines(s))
  }

  /** One full group: the symbols `Encode` writes for three bytes decode to those bytes. */
  lemma TripleOfGroup(x: byte, y: byte, z: byte)
    ensures Triple(x / 4, x % 4 * 16 + y / 16, y % 16 * 4 + z / 64, z % 64) == [x, y, z]
  {
    var u := x % 4 * 16 + y / 16;
    var v := y % 16 * 4 + z / 64;
    assert u / 16 == x % 4 && u % 16 == y / 16;
    assert v / 4 == y % 16 && v % 4 == z / 64;
    assert x / 4 * 4 + x % 4 == x;
    assert y / 16 * 16 + y % 16 == y;
    assert z / 64 * 64 + z % 64 == z;
  }

  /** A full group followed by more groups decodes to its three bytes, then the rest. */
  lemma DecodeGroupsCons(g: string, t: string, rest: seq<byte>)
    requires |g| == 4 && IsSymbol(g[0]) && IsSymbol(g[1]) && IsSymbol(g[2]) && IsSymbol(g[3])
    requires |t| > 0 && DecodeGroups(t) == Some(rest)
    ensures DecodeGroups(g + t) == Some(Triple(Value(g[0]), Value(g[1]), Value(g[2]), Value(g[3])) + rest)
  {
    var e := g + t;
    assert e[..4] == g && e[4..] == t;
  }

  /** A final group for one byte decodes back to it. */
  lemma DecodeOne(x: byte)
    ensures DecodeLast(Symbol(x / 4), Symbol(x % 4 * 16), '=', '=') == Some([x])
  {
    assert Value(Symbol(x / 4)) == x / 4;
    assert Value(Symbol(x % 4 * 16)) == x % 4 * 16;
    assert (x % 4 * 16) / 16 == x % 4;
    assert x / 4 * 4 + x % 4 == x;
  }

  /** A final group for two bytes decodes back to them. */
  lemma DecodeTwo(x: byte, y: byte)
    ensures DecodeLast(Symbol(x / 4), Symbol(x % 4 * 16 + y / 16), Symbol(y % 16 * 4), '=') == Some([x, y])
  {
    var u := x % 4 * 16 + y / 16;
    assert Value(Symbol(x / 4)) == x / 4;
    assert Value(Symbol(u)) == u;
    assert Value(Symbol(y % 16 * 4)) == y % 16 * 4;
    assert u / 16 == x % 4 && u % 16 == y / 16;
    assert (y % 16 * 4) / 4 == y % 16;
    assert x / 4 * 4 + x % 4 == x;
    assert y / 16 * 16 + y % 16 == y;
  }

  /** The values of the four symbols of a group. */
  lemma GroupValues(x: byte, y: byte, z: byte)
    ensures var g := Group(x, y, z);
            Value(g[0]) == x / 4 && Value(g[1]) == x % 4 * 16 + y / 16
            && Value(g[2]) == y % 16 * 4 + z / 64 && Value(g[3]) == z % 64
  {
  }

  /** The symbols of a group decode to its three bytes. */
  lemma GroupDecodes(x: byte, y: byte, z: byte)
    ensures var g := Group(x, y, z); Triple(Value(g[0]), Value(g[1]), Value(g[2]), Value(g[3])) == [x, y, z]
  {
    var g := Group(x, y, z);
    GroupValues(x, y, z);
    var a, b, c, d := Value(g[0]), Value(g[1]), Value(g[2]), Value(g[3]);
    assert a == x / 4 && b == x % 4 * 16 + y / 16 && c == y % 16 * 4 + z / 64 && d == z % 64;
    TripleOfGroup(x, y, z);
  }

  /** A full group in front of an encoding that decodes back still decodes back. */
  lemma DecodeFullGroup(b: seq<byte>)
    requires |b| > 3 && DecodeGroups(Encode(b[3..])) == Some(b[3..])
    ensures DecodeGroups(Encode(b)) == Some(b)
  {
    var g := Group(b[0], b[1], b[2]);
    var t := Encode(b[3..]);
    assert |t| >= 4;
    assert Encode(b) == g + t;
    GroupDecodes(b[0], b[1], b[2]);
    DecodeGroupsCons(g, t, b[3..]);
    SplitAtThree(b);
  }

  lemma SplitAtThree(b: seq<byte>)
    requires |b| >= 3
    ensures b == [b[0], b[1], b[2]] + b[3..]
  {
  }

  /** The final group of one, two or three bytes decodes back. */
  lemma DecodeTail(b: seq<byte>)
    requires 1 <= |b| <= 3
    ensures DecodeGroups(Encode(b)) == Some(b)
  {
    if |b| == 1 {
      DecodeOneGroup(b);
    } else if |b| == 2 {
      DecodeTwoGroup(b);
    } else {
      DecodeThreeGroup(b);
    }
  }

  lemma DecodeOneGroup(b: seq<byte>)
    requires |b| == 1
    ensures DecodeGroups(Encode(b)) == Some(b)
  {
    DecodeOne(b[0]);
    var e := Encode(b);
    assert e == [Symbol(b[0] / 4), Symbol(b[0] % 4 * 16), '=', '='];
    assert DecodeGroups(e) == DecodeLast(e[0], e[1], e[2], e[3]);
    assert [b[0]] == b;
  }

  lemma DecodeTwoGroup(b: seq<byte>)
    requires |b| == 2
    ensures DecodeGroups(Encode(b)) == Some(b)
  {
    DecodeTwo(b[0], b[1]);
    var e := Encode(b);
    assert e == [Symbol(b[0] / 4), Symbol(b[0] % 4 * 16 + b[1] / 16), Symbol(b[1] % 16 * 4), '='];
    assert DecodeGroups(e) == DecodeLast(e[0], e[1], e[2], e[3]);
    assert [b[0], b[1]] == b;
  }

  lemma DecodeThreeGroup(b: seq<byte>)
    requires |b| == 3
    ensures DecodeGroups(Encode(b)) == Some(b)
  {
    var g := Group(b[0], b[1], b[2]);
    assert Encode(b[3..]) == [];
    assert Encode(b) == g + [] == g;
    GroupDecodes(b[0], b[1], b[2]);
    assert DecodeGroups(g) == DecodeLast(g[0], g[1], g[2], g[3]);
    assert [b[0], b[1], b[2]] == b;
  }

  lemma {:induction false} DecodeGroupsOfEncode(b: seq<byte>)
    ensures DecodeGroups(Encode(b)) == Some(b)
    decreases |b|
  {
    if |b| > 3 {
      DecodeGroupsOfEncode(b[3..]);
      DecodeFullGroup(b);
    } else if |b| > 0 {
      DecodeTail(b);
    }
  }

  /** Decoding what was encoded gives back the bytes, for every length. */
  lemma DecodeEncode(b: seq<byte>)
    ensures Decode(Encode(b)) == Some(b)
  {
    var e := Encode(b);
    assert forall i :: 0 <= i < |e| ==> e[i] != '\r' && e[i] != '\n' by {
      forall i | 0 <= i < |e| ensures e[i] != '\r' && e[i] != '\n' {
        assert IsOutputChar(e[i]);
      }
    }
    DecodeGroupsOfEncode(b);
  }

  /** Encoded text is ASCII and holds no white space: it survives `[]byte(...)`, trimming and
      splitting on spaces unchanged. */
  lemma EncodeIsPlainAscii(b: seq<byte>)
    ensures Text.IsAscii(Encode(b))
    ensures forall i :: 0 <= i < |Encode(b)| ==> Encode(b)[i] != ' '
    ensures Text.Trimmed(Text.AsciiBytes(Encode(b)))
  {
    var e := Encode(b);
    forall i | 0 <= i < |e| ensures e[i] as int < 128 && e[i] != ' ' {
      OutputCharIsPlain(e[i]);
    }
    if |e| > 0 {
      var bs := Text.AsciiBytes(e);
      OutputCharIsPlain(e[0]);
      OutputCharIsPlain(e[|e| - 1]);
      assert bs[0] == e[0] as int && bs[|bs| - 1] == e[|e| - 1] as int;
    }
  }

  lemma OutputCharIsPlain(c: char)
    requires IsOutputChar(c)
    ensures c as int < 128 && c != ' ' && !Text.IsSpaceByte(c as int)
  {
  }
}
