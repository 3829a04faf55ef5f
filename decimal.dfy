/**
 * Decimal text for integers, as Python's `str(int)` and f-string `{n}` write it,
 * and a reader that takes a decimal numeral back off the front of a string.
 * The date fields of the WHOIS creation date and the VirusTotal summary use these.
 */
module Decimal {

  import opened Optional

  predicate IsDigit(c: char) {
    '0' <= c <= '9'
  }

  predicate AllDigits(s: string) {
    forall i :: 0 <= i < |s| ==> IsDigit(s[i])
  }

  function DigitChar(d: nat): (c: char)
    requires d < 10
    ensures IsDigit(c) && DigitValue(c) == d
  {
    ('0' as int + d) as char
  }

  function DigitValue(c: char): nat
    requires IsDigit(c)
  {
    c as int - '0' as int
  }

  /** The value of a string of decimal digits, most significant first (leading zeros allowed). */
  function DigitsValue(s: string): nat
    requires AllDigits(s)
  {
    if s == [] then 0 else DigitsValue(s[..|s| - 1]) * 10 + DigitValue(s[|s| - 1])
  }

  /** `str(n)` for a non-negative `n`: no leading zeros, "0" for zero. */
  function NatToString(n: nat): string
  {
    if n < 10 then [DigitChar(n)] else NatToString(n / 10) + [DigitChar(n % 10)]
  }

  /** `str(i)` for any Python int: a minus sign in front of negative numbers. */
  function IntToString(i: int): string
  {
    if i < 0 then "-" + NatToString(-i) else NatToString(i)
  }

  lemma {:induction false} NatToStringDigits(n: nat)
    ensures |NatToString(n)| >= 1 && AllDigits(NatToString(n))
    ensures DigitsValue(NatToString(n)) == n
  {
    if n >= 10 {
      NatToStringDigits(n / 10);
      var s := NatToString(n);
      assert s[..|s| - 1] == NatToString(n / 10);
    }
  }

  /** Length of the run of digits at the front of `s`. */
  function DigitRun(s: string): (k: nat)
    ensures k <= |s| && AllDigits(s[..k])
    ensures k < |s| ==> !IsDigit(s[k])
  {
    if s == [] || !IsDigit(s[0]) then 0
    else
      var k := 1 + DigitRun(s[1..]);
      assert s[..k] == [s[0]] + s[1..][..k - 1];
      k
  }

  /** Reads a non-negative numeral off the front of `s`: its value and the rest of the string. */
  function ReadNat(s: string): Option<(nat, string)>
  {
    var k := DigitRun(s);
    if k == 0 then None else Some((DigitsValue(s[..k]), s[k..]))
  }

  /** Reads an optionally negative numeral off the front of `s`: a minus sign, then digits. */
  function ReadInt(s: string): Option<(int, string)>
  {
    if |s| > 0 && s[0] == '-' then
      match ReadNat(s[1..])
      case None => None
      case Some((n, rest)) => Some((-(n as int), rest))
    else
      match ReadNat(s)
      case None => None
      case Some((n, rest)) => Some((n as int, rest))
  }

  lemma {:induction false} DigitRunOfNumeral(t: string, rest: string)
    requires AllDigits(t)
    requires rest == [] || !IsDigit(rest[0])
    ensures DigitRun(t + rest) == |t|
  {
    if t != [] {
      assert (t + rest)[1..] == t[1..] + rest;
      DigitRunOfNumeral(t[1..], rest);
    }
  }

  lemma ReadNatOfNumeral(t: string, rest: string)
    requires |t| >= 1 && AllDigits(t)
    requires rest == [] || !IsDigit(rest[0])
    ensures ReadNat(t + rest) == Some((DigitsValue(t), rest))
  {
    DigitRunOfNumeral(t, rest);
    assert (t + rest)[..|t|] == t && (t + rest)[|t|..] == rest;
  }

  /** Reading back what `IntToString` wrote, when a non-digit follows, gives the number and the rest. */
  lemma ReadIntToString(i: int, rest: string)
    requires rest == [] || !IsDigit(rest[0])
    ensures ReadInt(IntToString(i) + rest) == Some((i, rest))
  {
    var n: nat := if i < 0 then -i else i;
    var t := NatToString(n);
    NatToStringDigits(n);
    ReadNatOfNumeral(t, rest);
    if i < 0 {
      assert IntToString(i) + rest == "-" + (t + rest);
      assert ("-" + (t + rest))[1..] == t + rest;
    } else {
      assert (t + rest)[0] == t[0];
    }
  }

  /** No numeral written by `IntToString` starts with anything but a digit or a minus sign. */
  lemma IntToStringStart(i: int)
    ensures |IntToString(i)| >= 1
    ensures IsDigit(IntToString(i)[0]) || IntToString(i)[0] == '-'
  {
    NatToStringDigits(if i < 0 then -i else i);
  }
}
