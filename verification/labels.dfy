/** Decimal text of natural numbers: Python's `str(num)` for the
    non-negative counters that become axis labels. */
module Labels {

  predicate IsDigit(c: char)
  {
    '0' <= c <= '9'
  }

  predicate AllDigits(s: string)
  {
    forall i :: 0 <= i < |s| ==> IsDigit(s[i])
  }

  function DigitChar(d: int): (c: char)
    requires 0 <= d < 10
    ensures IsDigit(c)
  {
    (48 + d) as char
  }

  function DigitValue(c: char): (d: int)
    requires IsDigit(c)
    ensures 0 <= d < 10
  {
    c as int - 48
  }

  /** `str(n)`: the shortest decimal numeral of n. */
  function NatToString(n: nat): (r: string)
    ensures |r| >= 1 && AllDigits(r)
    ensures |r| > 1 ==> r[0] != '0'
    decreases n
  {
    if n < 10 then [DigitChar(n)]
    else NatToString(n / 10) + [DigitChar(n % 10)]
  }

  /** `int(s)` for a string of decimal digits. */
  function ParseNat(s: string): nat
    requires AllDigits(s)
  {
    if |s| == 0 then 0
    else ParseNat(s[..|s| - 1]) * 10 + DigitValue(s[|s| - 1])
  }

  /** Reading a numeral back gives the number it was made from. */
  lemma {:induction false} ParseNatToString(n: nat)
    ensures ParseNat(NatToString(n)) == n
    decreases n
  {
    var r := NatToString(n);
    if n >= 10 {
      ParseNatToString(n / 10);
      assert r[..|r| - 1] == NatToString(n / 10);
    }
  }

  /** Different numbers have different numerals. */
  lemma {:induction false} NatToStringInjective(a: nat, b: nat)
    requires NatToString(a) == NatToString(b)
    ensures a == b
  {
    ParseNatToString(a);
    ParseNatToString(b);
  }

  /** A label made of a fixed prefix, a number and a fixed suffix names
      its number: two such labels are equal only for equal numbers. */
  lemma {:induction false} LabelInjective(prefix: string, a: nat, b: nat, suffix: string)
    requires prefix + NatToString(a) + suffix == prefix + NatToString(b) + suffix
    ensures a == b
  {
    var la, lb := prefix + NatToString(a) + suffix, prefix + NatToString(b) + suffix;
    assert |NatToString(a)| == |NatToString(b)|;
    assert NatToString(a) == la[|prefix|..|prefix| + |NatToString(a)|];
    assert NatToString(b) == lb[|prefix|..|prefix| + |NatToString(b)|];
    NatToStringInjective(a, b);
  }
}
