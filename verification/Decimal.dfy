/** Decimal notation of integers: `str` and, on plain ASCII digits with an optional sign, `int`. */
module Decimal {
  import opened Basics

  function Digit(d: nat): char
    requires d < 10
  {
    '0' + d as char
  }

  predicate IsDigit(c: char) {
    '0' <= c <= '9'
  }

  function PrintNat(n: nat): (s: string)
    ensures s != [] && forall i :: 0 <= i < |s| ==> IsDigit(s[i])
  {
    if n < 10 then [Digit(n)] else PrintNat(n / 10) + [Digit(n % 10)]
  }

  function Print(n: int): string {
    if n < 0 then "-" + PrintNat(-n) else PrintNat(n)
  }

  /** The value of a string of digits; anything else, and the empty string, has none. */
  function ParseNat(s: string): Option<nat> {
    var n := |s| - 1;
    if n < 0 || !IsDigit(s[n]) then None
    else if n == 0 then Some((s[0] - '0') as nat)
    else
      match ParseNat(s[..n])
      case None => None
      case Some(v) => Some(10 * v + (s[n] - '0') as nat)
  }

  function Parse(s: string): Option<int> {
    if s == [] then None
    else if s[0] == '-' then Signed(-1, ParseNat(s[1..]))
    else if s[0] == '+' then Signed(1, ParseNat(s[1..]))
    else Signed(1, ParseNat(s))
  }

  function Signed(sign: int, v: Option<nat>): Option<int> {
    if v.None? then None else Some(sign * v.value)
  }

  lemma {:induction false} ParsePrintNat(n: nat)
    ensures ParseNat(PrintNat(n)) == Some(n)
  {
    if n >= 10 {
      ParsePrintNat(n / 10);
      var s := PrintNat(n / 10);
      assert (s + [Digit(n % 10)])[..|s|] == s;
    }
  }

  lemma ParseNegative(n: int)
    requires n < 0
    ensures Parse(Print(n)) == Some(n)
  {
    ParsePrintNat(-n);
    assert Print(n)[1..] == PrintNat(-n);
  }

  lemma ParsePrint(n: int)
    ensures Parse(Print(n)) == Some(n)
  {
    if n < 0 {
      ParseNegative(n);
    } else {
      ParsePrintNat(n);
      assert IsDigit(PrintNat(n)[0]);
    }
  }
}
