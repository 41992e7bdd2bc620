/**
 * The Swift standard library's decimal conversions used by the `Int` and `UInt`
 * property values: `"\(n)"` to serialise and the failable `Int(_:)` / `UInt(_:)`
 * initialisers to parse. Both integer types are 64 bits wide.
 */
module Decimal {
  import opened Wrappers

  type Int64 = x: int | -0x8000_0000_0000_0000 <= x <= 0x7FFF_FFFF_FFFF_FFFF
  type UInt64 = x: int | 0 <= x <= 0xFFFF_FFFF_FFFF_FFFF

  predicate IsDigit(c: char)
  {
    '0' <= c <= '9'
  }

  predicate AllDigits(s: string)
  {
    forall i :: 0 <= i < |s| ==> IsDigit(s[i])
  }

  /** The value of a string of decimal digits, most significant first. */
  function DigitsValue(s: string): nat
    requires AllDigits(s)
  {
    if s == [] then 0 else DigitsValue(s[..|s| - 1]) * 10 + (s[|s| - 1] as int - '0' as int)
  }

  function Digit(d: nat): (c: char)
    requires d < 10
    ensures IsDigit(c) && c as int - '0' as int == d
  {
    ('0' as int + d) as char
  }

  /** The decimal digits of `n`, most significant first, with no leading zero. */
  function NatDigits(n: nat): (s: string)
    ensures |s| >= 1 && AllDigits(s)
    ensures s[0] == '0' ==> n == 0
  {
    if n < 10 then [Digit(n)] else NatDigits(n / 10) + [Digit(n % 10)]
  }

  /**
   * Swift's string interpolation `"\(n)"` of an integer: its canonical decimal form,
   * with a minus sign exactly for a negative number, never a plus sign, and no leading zero.
   */
  function Describe(n: int): (r: string)
    ensures |r| >= 1 && r[0] != '+'
    ensures r[0] == '-' <==> n < 0
    ensures r[0] == '0' ==> r == "0"
    ensures r[0] == '-' ==> |r| >= 2 && r[1] != '0'
  {
    if n < 0 then "-" + NatDigits(-n) else NatDigits(n)
  }

  predicate IsSign(c: char)
  {
    c == '+' || c == '-'
  }

  /** What `Int(_:)` and `UInt(_:)` accept: an optional sign, then one digit or more. */
  predicate IsDecimalLiteral(s: string)
  {
    if |s| > 0 && IsSign(s[0]) then |s| > 1 && AllDigits(s[1..]) else |s| > 0 && AllDigits(s)
  }

  /** The mathematical value of a decimal literal, before any range check. */
  function LiteralValue(s: string): int
    requires IsDecimalLiteral(s)
  {
    if IsSign(s[0]) then (if s[0] == '-' then -(DigitsValue(s[1..]) as int) else DigitsValue(s[1..]))
    else DigitsValue(s)
  }

  /** `Int(s)`: a decimal literal whose value fits in a 64-bit signed integer. */
  function ParseInt(s: string): (r: Option<Int64>)
    ensures r.Some? ==> IsDecimalLiteral(s) && r.value == LiteralValue(s)
    ensures IsDecimalLiteral(s) && -0x8000_0000_0000_0000 <= LiteralValue(s) <= 0x7FFF_FFFF_FFFF_FFFF ==>
              r == Some(LiteralValue(s))
  {
    if IsDecimalLiteral(s) && -0x8000_0000_0000_0000 <= LiteralValue(s) <= 0x7FFF_FFFF_FFFF_FFFF
    then Some(LiteralValue(s)) else None
  }

  /**
   * `UInt(s)`: a decimal literal whose value fits in a 64-bit unsigned integer
   * (so a negative sign is accepted only in front of zero).
   */
  function ParseUInt(s: string): (r: Option<UInt64>)
    ensures r.Some? ==> IsDecimalLiteral(s) && r.value == LiteralValue(s)
    ensures IsDecimalLiteral(s) && 0 <= LiteralValue(s) <= 0xFFFF_FFFF_FFFF_FFFF ==> r == Some(LiteralValue(s))
  {
    if IsDecimalLiteral(s) && 0 <= LiteralValue(s) <= 0xFFFF_FFFF_FFFF_FFFF
    then Some(LiteralValue(s)) else None
  }

  lemma {:induction false} DigitsOfNat(n: nat)
    ensures DigitsValue(NatDigits(n)) == n
  {
    var s := NatDigits(n);
    if n >= 10 {
      DigitsOfNat(n / 10);
      assert s[..|s| - 1] == NatDigits(n / 10);
    }
  }

  /** The digits of a natural number are a literal of that value. */
  lemma NatDigitsIsLiteral(n: nat)
    ensures IsDecimalLiteral(NatDigits(n)) && LiteralValue(NatDigits(n)) == n
  {
    var digits := NatDigits(n);
    DigitsOfNat(n);
    assert IsDigit(digits[0]) && !IsSign(digits[0]);
  }

  /** A minus sign before the digits of a natural number is a literal of its negation. */
  lemma NegatedDigitsIsLiteral(n: nat)
    ensures IsDecimalLiteral("-" + NatDigits(n)) && LiteralValue("-" + NatDigits(n)) == -(n as int)
  {
    var digits := NatDigits(n);
    DigitsOfNat(n);
    assert ("-" + digits)[0] == '-' && ("-" + digits)[1..] == digits;
  }

  /** The serialised form of every integer is a literal of that integer. */
  lemma DescribeIsLiteral(n: int)
    ensures IsDecimalLiteral(Describe(n)) && LiteralValue(Describe(n)) == n
  {
    if n < 0 {
      NegatedDigitsIsLiteral(-n);
    } else {
      NatDigitsIsLiteral(n);
    }
  }

  /** Parsing the serialised form of an `Int` gives it back. */
  lemma IntRoundTrip(n: Int64)
    ensures ParseInt(Describe(n)) == Some(n)
  {
    DescribeIsLiteral(n);
  }

  /** Parsing the serialised form of a `UInt` gives it back. */
  lemma UIntRoundTrip(n: UInt64)
    ensures ParseUInt(Describe(n)) == Some(n)
  {
    DescribeIsLiteral(n);
  }

  /** Text that is not a decimal literal parses to nil. */
  lemma NonNumericRejected()
    ensures ParseInt("abc") == None && ParseInt("12a") == None && ParseInt("-") == None && ParseInt("") == None
    ensures ParseUInt("-1") == None && ParseUInt("-0") == Some(0)
  {
    assert !IsDigit("12a"[2]);
    assert "-0"[1..] == "0";
    assert "-1"[1..] == "1";
    assert DigitsValue("1") == DigitsValue("1"[..0]) * 10 + 1;
  }

  /** A plus sign and leading zeros are accepted, as `Int(_:)` and `UInt(_:)` accept them. */
  lemma SignAndLeadingZerosAccepted()
    ensures ParseInt("+7") == Some(7) && ParseInt("007") == Some(7) && ParseInt("-007") == Some(-7)
    ensures ParseUInt("+7") == Some(7) && ParseUInt("007") == Some(7)
  {
    assert "+7"[1..] == "7";
    assert "-007"[1..] == "007";
    assert "007"[..2] == "00" && "00"[..1] == "0" && "0"[..0] == "";
    assert DigitsValue("7") == DigitsValue("7"[..0]) * 10 + 7;
  }
}
