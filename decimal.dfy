/**
 * The two text conversions the command line relies on for integer options:
 * `std::to_string(int)` renders the default value, and `std::stoi` (base 10, through
 * `strtol`) reads the option text back.
 */
module Decimal {
  import opened Basics

  const IntMin := -0x8000_0000
  const IntMax := 0x7fff_ffff

  /** A value of C `int`. */
  predicate IsInt32(n: int)
  {
    IntMin <= n <= IntMax
  }

  predicate IsDigit(c: char)
  {
    '0' <= c <= '9'
  }

  function DigitChar(d: nat): (c: char)
    requires d < 10
    ensures IsDigit(c)
  {
    (48 + d) as char
  }

  function DigitValue(c: char): (d: nat)
    requires IsDigit(c)
    ensures d < 10 && DigitChar(d) == c
  {
    c as int - 48
  }

  /** Decimal digits of `n`, most significant first, without leading zeros. */
  function NatToString(n: nat): (s: string)
    ensures |s| > 0 && forall i :: 0 <= i < |s| ==> IsDigit(s[i])
  {
    if n < 10 then [DigitChar(n)] else NatToString(n / 10) + [DigitChar(n % 10)]
  }

  /** `std::to_string(int)`: a minus sign exactly for negative values, then digits. */
  function IntToString(n: int): (s: string)
    ensures |s| > 0 && (s[0] == '-' <==> n < 0)
    ensures forall i :: (if n < 0 then 1 else 0) <= i < |s| ==> IsDigit(s[i])
    ensures n < 0 ==> |s| >= 2
  {
    if n < 0 then "-" + NatToString(-n) else NatToString(n)
  }

  /** The value of a string of digits. */
  function DigitsValue(s: string): nat
    requires forall i :: 0 <= i < |s| ==> IsDigit(s[i])
  {
    if s == [] then 0 else 10 * DigitsValue(s[..|s| - 1]) + DigitValue(s[|s| - 1])
  }

  /** Number of leading characters satisfying `IsSpace`. */
  function LeadingSpaces(s: string): (n: nat)
    ensures n <= |s| && (n < |s| ==> !IsSpace(s[n]))
  {
    if s != [] && IsSpace(s[0]) then 1 + LeadingSpaces(s[1..]) else 0
  }

  /** Number of leading decimal digits. */
  function LeadingDigits(s: string): (n: nat)
    ensures n <= |s| && forall i :: 0 <= i < n ==> IsDigit(s[i])
    ensures n < |s| ==> !IsDigit(s[n])
  {
    if s != [] && IsDigit(s[0]) then 1 + LeadingDigits(s[1..]) else 0
  }

  /** The value of the longest leading run of digits, if there is one. */
  function Magnitude(d: string): (r: Option<nat>)
  {
    var k := LeadingDigits(d);
    if k == 0 then None else Some(DigitsValue(d[..k]))
  }

  /** An optional sign followed by digits. */
  function Signed(t: string): Option<int>
  {
    if t != [] && t[0] == '-' then
      match Magnitude(t[1..])
      case None => None
      case Some(m) => Some(-(m as int))
    else if t != [] && t[0] == '+' then
      match Magnitude(t[1..])
      case None => None
      case Some(m) => Some(m)
    else
      match Magnitude(t)
      case None => None
      case Some(m) => Some(m)
  }

  /** `std::stoi(s)`: skip white space, read an optional sign and the longest run of digits,
    * ignore the rest. `None` stands for the exception it throws: `invalid_argument` without
    * a digit, `out_of_range` for a value that is not an `int`. */
  function Stoi(s: string): (r: Option<int>)
    ensures r.Some? ==> IsInt32(r.value)
  {
    match Signed(s[LeadingSpaces(s)..])
    case None => None
    case Some(n) => if IsInt32(n) then Some(n) else None
  }

  lemma {:induction false} DigitsValueOfNat(n: nat)
    ensures DigitsValue(NatToString(n)) == n
    decreases n
  {
    var s := NatToString(n);
    if n >= 10 {
      DigitsValueOfNat(n / 10);
      assert s[..|s| - 1] == NatToString(n / 10);
    }
  }

  lemma LeadingDigitsAll(s: string)
    requires forall i :: 0 <= i < |s| ==> IsDigit(s[i])
    ensures LeadingDigits(s) == |s|
  {
  }

  lemma MagnitudeOfDigits(d: string)
    requires |d| > 0 && forall i :: 0 <= i < |d| ==> IsDigit(d[i])
    ensures Magnitude(d) == Some(DigitsValue(d))
  {
    LeadingDigitsAll(d);
    assert d[..|d|] == d;
  }

  lemma StoiOfDigits(d: string)
    requires |d| > 0 && forall i :: 0 <= i < |d| ==> IsDigit(d[i])
    requires IsInt32(DigitsValue(d))
    ensures Stoi(d) == Some(DigitsValue(d))
  {
    assert LeadingSpaces(d) == 0 && d[0..] == d;
    MagnitudeOfDigits(d);
    assert Signed(d) == Some(DigitsValue(d));
  }

  lemma StoiOfNegativeDigits(d: string, v: nat)
    requires Magnitude(d) == Some(v) && IsInt32(-(v as int))
    ensures Stoi("-" + d) == Some(-(v as int))
  {
    var s := "-" + d;
    assert s[0] == '-' && s[1..] == d;
    assert LeadingSpaces(s) == 0 && s[0..] == s;
  }

  /** Reading back what `std::to_string` wrote gives the same `int`. */
  lemma StoiOfIntToString(n: int)
    requires IsInt32(n)
    ensures Stoi(IntToString(n)) == Some(n)
  {
    if n < 0 {
      var m: nat := -n;
      var digits := NatToString(m);
      assert IntToString(n) == "-" + digits;
      DigitsValueOfNat(m);
      MagnitudeOfDigits(digits);
      StoiOfNegativeDigits(digits, m);
    } else {
      var digits := NatToString(n);
      assert IntToString(n) == digits;
      DigitsValueOfNat(n);
      StoiOfDigits(digits);
    }
  }
}
