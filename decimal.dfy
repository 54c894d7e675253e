/**
 * Decimal text for integers, as the .NET runtime produces and reads it:
 * `Int32.ToString()` / `Int64.ToString()` (used when an account index is
 * glued back onto the "account" prefix and when the token timestamp is
 * rendered) and `Convert.ToInt32(string)` (used to read the account index
 * out of a configuration key). The invariant culture is assumed: the signs
 * are '-' and '+', the digits are '0'..'9'.
 */
module Decimal {
  import opened Wrappers

  const INT32_MIN: int := -0x8000_0000
  const INT32_MAX: int := 0x7FFF_FFFF

  predicate IsInt32(i: int) { INT32_MIN <= i <= INT32_MAX }

  predicate IsDigit(c: char) { '0' <= c <= '9' }

  predicate AllDigits(s: string) { forall i :: 0 <= i < |s| ==> IsDigit(s[i]) }

  /** The characters NumberStyles.AllowLeadingWhite / AllowTrailingWhite skip. */
  predicate IsWhite(c: char) {
    c == ' ' || c == '\t' || c == '\n' || c == '\r' || c == '\U{B}' || c == '\U{C}'
  }

  /** Why `Convert.ToInt32` threw. */
  datatype ParseError = FormatError | OverflowError

  function DigitChar(d: nat): (c: char)
    requires d < 10
    ensures IsDigit(c)
  {
    "0123456789"[d]
  }

  function DigitValue(c: char): (d: nat)
    requires IsDigit(c)
    ensures d < 10 && DigitChar(d) == c
  {
    (c as int - '0' as int) as nat
  }

  /** The value of a string of decimal digits, most significant first; leading zeros are allowed. */
  function DigitsValue(s: string): nat
    requires AllDigits(s)
  {
    if s == [] then 0 else DigitsValue(s[..|s| - 1]) * 10 + DigitValue(s[|s| - 1])
  }

  /** `n.ToString()` for a non-negative number: the shortest decimal rendering. */
  function NatToString(n: nat): (s: string)
    ensures s != [] && AllDigits(s)
    ensures |s| > 1 ==> s[0] != '0'
  {
    if n < 10 then [DigitChar(n)] else NatToString(n / 10) + [DigitChar(n % 10)]
  }

  /** `i.ToString()` for a signed number: a '-' in front of the magnitude when negative. */
  function IntToString(i: int): (s: string)
    ensures s != []
    ensures i < 0 <==> s[0] == '-'
  {
    if i < 0 then "-" + NatToString(-i) else NatToString(i)
  }

  /** The string without its leading white space. */
  function TrimStart(s: string): (t: string)
    ensures |t| <= |s| && t == s[|s| - |t|..]
    ensures forall i :: 0 <= i < |s| - |t| ==> IsWhite(s[i])
    ensures t == [] || !IsWhite(t[0])
  {
    if s != [] && IsWhite(s[0]) then TrimStart(s[1..]) else s
  }

  /** The string without its trailing white space. */
  function TrimEnd(s: string): (t: string)
    ensures |t| <= |s| && t == s[..|t|]
    ensures forall i :: |t| <= i < |s| ==> IsWhite(s[i])
    ensures t == [] || !IsWhite(t[|t| - 1])
  {
    if s != [] && IsWhite(s[|s| - 1]) then TrimEnd(s[..|s| - 1]) else s
  }

  /**
   * `Convert.ToInt32(s)` for a non-null string: optional white space, an
   * optional sign, one or more digits, optional white space. A string of any
   * other shape throws FormatException; a well-formed number outside the
   * 32-bit range throws OverflowException (the shape is checked first).
   */
  function ParseInt32(s: string): (r: Result<int, ParseError>)
    ensures r.Success? ==> IsInt32(r.value)
    ensures TrimEnd(TrimStart(s)) == [] ==> r == Failure(FormatError)
  {
    ParseSigned(TrimEnd(TrimStart(s)))
  }

  /** The sign and digits left once the white space is gone. */
  function ParseSigned(t: string): (r: Result<int, ParseError>)
    ensures r.Success? ==> IsInt32(r.value)
    ensures t == [] ==> r == Failure(FormatError)
    ensures t != [] && t[0] == '-' ==> r == ParseMagnitude(t[1..], true)
    ensures t != [] && t[0] == '+' ==> r == ParseMagnitude(t[1..], false)
    ensures t != [] && t[0] != '-' && t[0] != '+' ==> r == ParseMagnitude(t, false)
  {
    if t == [] then Failure(FormatError)
    else if t[0] == '-' then ParseMagnitude(t[1..], true)
    else if t[0] == '+' then ParseMagnitude(t[1..], false)
    else ParseMagnitude(t, false)
  }

  /** The digits after the sign, negated when a '-' preceded them. */
  function ParseMagnitude(digits: string, negative: bool): (r: Result<int, ParseError>)
    ensures r.Success? ==> IsInt32(r.value)
    ensures r.Success? <==> digits != [] && AllDigits(digits) && IsInt32(SignedValue(digits, negative))
    ensures r.Success? ==> r.value == SignedValue(digits, negative)
    ensures r.Failure? ==> (r.error == OverflowError <==> digits != [] && AllDigits(digits))
  {
    if digits == [] || !AllDigits(digits) then Failure(FormatError)
    else
      var v := SignedValue(digits, negative);
      if IsInt32(v) then Success(v) else Failure(OverflowError)
  }

  function SignedValue(digits: string, negative: bool): int
    requires AllDigits(digits)
  {
    if negative then -(DigitsValue(digits) as int) else DigitsValue(digits)
  }

  /** Reading back the digits of `NatToString(n)` gives `n`. */
  lemma {:induction false} DigitsValueOfNatToString(n: nat)
    ensures DigitsValue(NatToString(n)) == n
  {
    var s := NatToString(n);
    if n >= 10 {
      DigitsValueOfNatToString(n / 10);
      assert s[..|s| - 1] == NatToString(n / 10);
    }
  }

  /** Two numbers with the same rendering are equal: the rendering loses nothing. */
  lemma NatToStringInjective(m: nat, n: nat)
    requires NatToString(m) == NatToString(n)
    ensures m == n
  {
    DigitsValueOfNatToString(m);
    DigitsValueOfNatToString(n);
  }

  /** `Convert.ToInt32(i.ToString()) == i` for every 32-bit `i`. */
  lemma ParseInt32OfIntToString(i: int)
    requires IsInt32(i)
    ensures ParseInt32(IntToString(i)) == Success(i)
  {
    if i < 0 {
      var digits := NatToString(-i);
      DigitsValueOfNatToString(-i);
      ParseInt32OfNegative(digits);
    } else {
      DigitsValueOfNatToString(i);
      ParseInt32OfDigits(NatToString(i));
    }
  }

  /** A '-' followed by digits parses to the negated value. */
  lemma ParseInt32OfNegative(digits: string)
    requires digits != [] && AllDigits(digits) && INT32_MIN <= -(DigitsValue(digits) as int)
    ensures ParseInt32("-" + digits) == Success(-(DigitsValue(digits) as int))
  {
    var s := "-" + digits;
    assert s[0] == '-' && s[1..] == digits;
    assert IsDigit(s[|s| - 1]) by { assert s[|s| - 1] == digits[|digits| - 1]; }
    assert TrimStart(s) == s;
    assert TrimEnd(s) == s;
    assert ParseSigned(s) == ParseMagnitude(digits, true);
  }

  /**
   * A plain run of digits parses to its value even with leading zeros, so
   * distinct strings such as "01" and "1" denote the same index.
   */
  lemma ParseInt32OfDigits(s: string)
    requires s != [] && AllDigits(s) && DigitsValue(s) <= INT32_MAX
    ensures ParseInt32(s) == Success(DigitsValue(s))
  {
    assert IsDigit(s[0]);
    assert TrimStart(s) == s;
    assert IsDigit(s[|s| - 1]);
    assert TrimEnd(s) == s;
    assert ParseSigned(s) == ParseMagnitude(s, false);
    assert SignedValue(s, false) == DigitsValue(s);
  }

  /**
   * Once trimmed, a sign ("", "+" or "-") followed by a non-empty run of
   * digits is read as those digits, negated after a '-': the value when it
   * fits 32 bits, an overflow error when it does not.
   */
  lemma ParseInt32OfSignedDigits(s: string, sign: string, digits: string)
    requires sign == "" || sign == "+" || sign == "-"
    requires digits != [] && AllDigits(digits)
    requires TrimEnd(TrimStart(s)) == sign + digits
    ensures ParseInt32(s) == ParseMagnitude(digits, sign == "-")
    ensures ParseInt32(s).Success? <==> IsInt32(SignedValue(digits, sign == "-"))
    ensures ParseInt32(s).Failure? ==> ParseInt32(s) == Failure(OverflowError)
  {
    var t := sign + digits;
    assert ParseInt32(s) == ParseSigned(t);
    assert IsDigit(digits[0]);
    if sign == "" {
      assert t == digits;
      assert ParseSigned(t) == ParseMagnitude(digits, false);
    } else if sign == "+" {
      assert t[0] == '+' && t[1..] == digits;
      assert ParseSigned(t) == ParseMagnitude(digits, false);
    } else {
      assert t[0] == '-' && t[1..] == digits;
      assert ParseSigned(t) == ParseMagnitude(digits, true);
    }
  }

  /**
   * Every string that is not a format error has, once trimmed, the shape of
   * an optional sign followed by a non-empty run of digits; any other shape
   * is a format error.
   */
  lemma ParseInt32Shape(s: string)
    ensures ParseInt32(s) != Failure(FormatError) ==>
              exists digits :: digits != [] && AllDigits(digits)
                               && (TrimEnd(TrimStart(s)) == digits || TrimEnd(TrimStart(s)) == "+" + digits
                                   || TrimEnd(TrimStart(s)) == "-" + digits)
  {
    var t := TrimEnd(TrimStart(s));
    if ParseInt32(s) != Failure(FormatError) {
      if t[0] == '-' || t[0] == '+' {
        var digits := t[1..];
        assert t == [t[0]] + digits;
        assert digits != [] && AllDigits(digits);
      } else {
        assert t != [] && AllDigits(t);
      }
    }
  }
}
