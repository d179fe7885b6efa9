/** Decimal numbers and literal prefixes: what rendering and parsing share. */
module Text {

  predicate IsDigit(c: char) { '0' <= c <= '9' }

  function DigitOf(n: nat): char
    requires n < 10
  {
    '0' + n as char
  }

  function ValueOf(c: char): nat
    requires IsDigit(c)
  {
    (c - '0') as nat
  }

  function ToDecimal(n: nat): (s: string)
    ensures s != "" && forall i :: 0 <= i < |s| ==> IsDigit(s[i])
  {
    if n < 10 then [DigitOf(n)] else ToDecimal(n / 10) + [DigitOf(n % 10)]
  }

  /** A number read off the front of a text, and the text after it. */
  function ReadNat(t: string, acc: nat := 0): (r: (nat, string))
    ensures |r.1| <= |t|
    decreases |t|
  {
    if t != "" && IsDigit(t[0]) then ReadNat(t[1..], acc * 10 + ValueOf(t[0])) else (acc, t)
  }

  lemma {:induction false} ReadContinues(n: nat, rest: string)
    ensures ReadNat(ToDecimal(n) + rest) == ReadNat(rest, n)
    decreases n
  {
    if n < 10 {
      assert ([DigitOf(n)] + rest)[1..] == rest;
    } else {
      var d := [DigitOf(n % 10)];
      assert ToDecimal(n) + rest == ToDecimal(n / 10) + (d + rest);
      ReadContinues(n / 10, d + rest);
      assert (d + rest)[1..] == rest;
    }
  }

  // Reading back what was written, up to the first character that is no digit.
  lemma DecimalRoundTrip(n: nat, rest: string)
    requires rest == "" || !IsDigit(rest[0])
    ensures ReadNat(ToDecimal(n) + rest) == (n, rest)
  {
    ReadContinues(n, rest);
  }

  predicate StartsWith(t: string, lit: string) { |lit| <= |t| && t[..|lit|] == lit }

  lemma Prefixed(lit: string, rest: string)
    ensures StartsWith(lit + rest, lit) && (lit + rest)[|lit|..] == rest
  {
  }
}
