/** Integer rendering as the core uses it: `fmt.Sprintf("%d", n)` and `fmt.Sprint(n)` on the server,
    `strconv.FormatInt(n, 10)` on the client. They are separate library routines. Two formulations
    stand for them here, one recursing on the leading digits and one accumulating the digits least
    significant first; they are not the libraries' algorithms, and they are proved to agree. */
module Decimal {
  import opened Basics
  import Text

  predicate IsDigit(c: char) {
    '0' <= c <= '9'
  }

  /** The character of the decimal digit `d`. */
  function DigitChar(d: int): (c: char)
    requires 0 <= d < 10
    ensures c as int < 128
    ensures IsDigit(c) && c as int - '0' as int == d
  {
    ('0' as int + d) as char
  }

  /** The decimal digits of `n`, most significant first, without leading zeros. */
  function Digits(n: nat): (s: string)
    ensures |s| >= 1 && (forall i :: 0 <= i < |s| ==> IsDigit(s[i]))
    ensures s[0] == '0' ==> n == 0
  {
    if n < 10 then [DigitChar(n)] else Digits(n / 10) + [DigitChar(n % 10)]
  }

  /** `fmt.Sprintf("%d", n)` and `fmt.Sprint(n)` for an integer: a minus sign for a negative value,
      then the digits of its magnitude. */
  function Sprint(n: int): (s: string)
    ensures Text.IsAscii(s) && |s| >= 1
    ensures (s[0] == '-') == (n < 0)
  {
    if n < 0 then "-" + Digits(-n) else Digits(n)
  }

  /** strconv's formatBits in base 10: the digits of `u`, produced least significant first, each
      placed in front of those already written (`acc`). */
  function FormatBits(u: nat, acc: string): string
    decreases u
  {
    if u < 10 then [DigitChar(u)] + acc
    else FormatBits(u / 10, [DigitChar(u % 10)] + acc)
  }

  /** `strconv.FormatInt(i, 10)`, the only base the core uses. */
  function FormatInt10(i: Int64): (s: string)
    ensures Parse(s) == Some(i as int)
  {
    var m: nat := if i < 0 then -(i as int) else i as int;
    FormatBitsDecimal(m, []);
    assert Digits(m) + [] == Digits(m);
    ParseSprint(i as int);
    if i < 0 then "-" + FormatBits(m, []) else FormatBits(m, [])
  }

  /** The reference reading of a digit string, the inverse of `Digits`. */
  function ParseDigits(s: string): (r: Option<nat>)
    ensures r.Some? ==> |s| >= 1 && forall i :: 0 <= i < |s| ==> IsDigit(s[i])
    decreases |s|
  {
    if |s| == 0 || !IsDigit(s[|s| - 1]) then None
    else
      var d := s[|s| - 1] as int - '0' as int;
      if |s| == 1 then Some(d)
      else match ParseDigits(s[..|s| - 1])
        case None => None
        case Some(v) => Some(10 * v + d)
  }

  /** The reference reading of an optionally signed decimal string. */
  function Parse(s: string): Option<int> {
    if |s| > 0 && s[0] == '-' then
      match ParseDigits(s[1..])
      case None => None
      case Some(v) => Some(-(v as int))
    else
      match ParseDigits(s)
      case None => None
      case Some(v) => Some(v)
  }

  lemma {:induction false} ParseDigitsOfDigits(n: nat)
    ensures ParseDigits(Digits(n)) == Some(n)
    decreases n
  {
    if n >= 10 {
      var s := Digits(n);
      assert s[..|s| - 1] == Digits(n / 10);
      ParseDigitsOfDigits(n / 10);
    }
  }

  /** Reading back what `Sprint` wrote gives the number: rendering loses nothing. */
  lemma ParseSprint(n: int)
    ensures Parse(Sprint(n)) == Some(n)
  {
    var s := Sprint(n);
    if n < 0 {
      assert s == "-" + Digits(-n);
      assert s[1..] == Digits(-n);
      ParseDigitsOfDigits(-n);
    } else {
      assert s == Digits(n);
      ParseDigitsOfDigits(n);
    }
  }

  /** Distinct numbers render as distinct strings. */
  lemma SprintInjective(a: int, b: int)
    requires Sprint(a) == Sprint(b)
    ensures a == b
  {
    ParseSprint(a);
    ParseSprint(b);
  }

  lemma {:induction false} FormatBitsDecimal(u: nat, acc: string)
    ensures FormatBits(u, acc) == Digits(u) + acc
    decreases u
  {
    if u >= 10 {
      FormatBitsDecimal(u / 10, [DigitChar(u % 10)] + acc);
      assert Digits(u / 10) + ([DigitChar(u % 10)] + acc) == Digits(u) + acc;
    }
  }

  /** `strconv.FormatInt(i, 10)` and `fmt.Sprintf("%d", i)` write the same characters. */
  lemma FormatIntIsSprint(i: Int64)
    ensures FormatInt10(i) == Sprint(i)
  {
    var m: nat := if i < 0 then -(i as int) else i as int;
    FormatBitsDecimal(m, []);
    assert Digits(m) + [] == Digits(m);
  }
}
