/**
 Decimal integers as text: the `f"{n}"` formatting used for the default
 aspect ratio, and Python's `int(text)` used by the interactive editors.
 */
module Numerals {
  import opened Results
  import opened Text

  predicate IsDigit(c: char) { '0' <= c <= '9' }

  predicate AllDigits(s: string) {
    forall i :: 0 <= i < |s| ==> IsDigit(s[i])
  }

  function DigitChar(d: nat): (c: char)
    requires d < 10
    ensures IsDigit(c) && c as int - '0' as int == d
  {
    ('0' as int + d) as char
  }

  /** Value of a non-empty run of decimal digits, most significant first. */
  function DigitsValue(s: string): nat
    requires AllDigits(s)
  {
    if s == [] then 0 else DigitsValue(s[..|s| - 1]) * 10 + (s[|s| - 1] as int - '0' as int)
  }

  /** The decimal form of a natural number, as Python's `str(n)` writes it. */
  function NatToString(n: nat): (s: string)
    ensures |s| > 0 && AllDigits(s)
    ensures s[0] == '0' ==> n == 0
  {
    if n < 10 then [DigitChar(n)] else NatToString(n / 10) + [DigitChar(n % 10)]
  }

  /** The decimal form of an integer, with a leading `-` when negative. */
  function IntToString(n: int): (s: string)
    ensures |s| > 0 && !IsSpace(s[0]) && !IsSpace(s[|s| - 1])
    ensures n < 0 <==> s[0] == '-'
    ensures IsDigit(s[0]) || s[0] == '-'
    ensures forall k :: 0 < k < |s| ==> IsDigit(s[k])
  {
    if n < 0 then "-" + NatToString(-n) else NatToString(n)
  }

  /**
   The ASCII information separators U+001C..U+001F. `str.strip()` and
   `str.split()` treat them as blanks, but `int()` does not skip them: it
   skips only the ASCII blanks space and `\t`..`\r` and the non-ASCII
   Unicode blanks.
   */
  predicate IsInfoSeparator(c: char) {
    '\U{1C}' <= c <= '\U{1F}'
  }

  predicate NoInfoSeparator(s: string) {
    forall k :: 0 <= k < |s| ==> !IsInfoSeparator(s[k])
  }

  /**
   Python's `int(text)`: surrounding blanks are ignored, then an optional
   sign and at least one decimal digit; anything else is `None` (Python
   raises `ValueError`). An information separator anywhere in the text is
   refused: at either end `int()` does not skip it, and inside it is not a
   digit.
   */
  function ParseInt(text: string): (r: Option<int>)
    ensures r.Some? <==> NoInfoSeparator(text) && IsIntLiteral(Strip(text))
  {
    if !NoInfoSeparator(text) then None
    else ParseLiteral(Strip(text))
  }

  /** The value of a literal with no surrounding blanks. */
  function ParseLiteral(t: string): (r: Option<int>)
    ensures r.Some? <==> IsIntLiteral(t)
  {
    if |t| > 1 && (t[0] == '-' || t[0] == '+') && AllDigits(t[1..]) then
      var magnitude: int := DigitsValue(t[1..]);
      Some(if t[0] == '-' then -magnitude else magnitude)
    else if |t| > 0 && AllDigits(t) then
      Some(DigitsValue(t))
    else
      None
  }

  /** An information separator anywhere makes `int()` fail, whatever surrounds it. */
  lemma InfoSeparatorRefused(p: string, c: char, q: string)
    requires IsInfoSeparator(c)
    ensures ParseInt(p + [c] + q) == None
  {
    assert (p + [c] + q)[|p|] == c;
  }

  /** An optionally signed, non-empty run of decimal digits. */
  predicate IsIntLiteral(t: string) {
    (|t| > 1 && (t[0] == '-' || t[0] == '+') && AllDigits(t[1..]))
    || (|t| > 0 && AllDigits(t))
  }

  /** Reading back the digits of `NatToString(n)` gives `n`. */
  lemma {:induction false} DigitsValueOfNatToString(n: nat)
    ensures DigitsValue(NatToString(n)) == n
  {
    var s := NatToString(n);
    if n >= 10 {
      DigitsValueOfNatToString(n / 10);
      assert s[..|s| - 1] == NatToString(n / 10);
    }
  }

  /** `int(str(n)) == n`: parsing is the inverse of formatting. */
  lemma ParseIntOfIntToString(n: int)
    ensures ParseInt(IntToString(n)) == Some(n)
  {
    var s := IntToString(n);
    assert NoInfoSeparator(s);
    StripNoBlankEnds(s);
    if n < 0 {
      assert s[1..] == NatToString(-n);
      DigitsValueOfNatToString(-n);
    } else {
      DigitsValueOfNatToString(n);
    }
  }

  predicate AllZeros(s: string) {
    forall k :: 0 <= k < |s| ==> s[k] == '0'
  }

  /** A run of zeros reads as 0. */
  lemma {:induction false} ZerosValue(zeros: string)
    requires AllZeros(zeros)
    ensures AllDigits(zeros) && DigitsValue(zeros) == 0
    decreases |zeros|
  {
    if zeros != [] {
      ZerosValue(zeros[..|zeros| - 1]);
    }
  }

  /** Leading zeros do not change the value of a digit run. */
  lemma {:induction false} LeadingZerosValue(zeros: string, digits: string)
    requires AllZeros(zeros) && AllDigits(digits)
    ensures AllDigits(zeros + digits) && DigitsValue(zeros + digits) == DigitsValue(digits)
    decreases |digits|
  {
    var s := zeros + digits;
    if digits == [] {
      assert s == zeros;
      ZerosValue(zeros);
    } else {
      assert s[..|s| - 1] == zeros + digits[..|digits| - 1];
      assert s[|s| - 1] == digits[|digits| - 1];
      LeadingZerosValue(zeros, digits[..|digits| - 1]);
    }
  }

  /** Blanks `int()` skips: no information separator among them. */
  predicate IntPadding(s: string) {
    AllBlank(s) && NoInfoSeparator(s)
  }

  lemma NoInfoSeparatorAppend(a: string, b: string)
    ensures NoInfoSeparator(a + b) <==> NoInfoSeparator(a) && NoInfoSeparator(b)
  {
    if NoInfoSeparator(a + b) {
      forall k | 0 <= k < |a| ensures !IsInfoSeparator(a[k]) {
        assert a[k] == (a + b)[k];
      }
      forall k | 0 <= k < |b| ensures !IsInfoSeparator(b[k]) {
        assert b[k] == (a + b)[|a| + k];
      }
    }
  }

  /** Blanks `int()` skips around a literal with no blank ends leave its value unchanged. */
  lemma ParseIntPaddedLiteral(p: string, t: string, q: string)
    requires IntPadding(p) && IntPadding(q)
    requires t != [] && !IsSpace(t[0]) && !IsSpace(t[|t| - 1])
    ensures ParseInt(p + t + q) == ParseInt(t)
  {
    StripPadded(p, t, q);
    StripNoBlankEnds(t);
    NoInfoSeparatorAppend(p, t);
    NoInfoSeparatorAppend(p + t, q);
  }

  /** A digit run holds no information separator. */
  lemma DigitsNoInfoSeparator(digits: string)
    requires AllDigits(digits)
    ensures NoInfoSeparator(digits)
  {
    assert forall k :: 0 <= k < |digits| ==> IsDigit(digits[k]);
  }

  /** A literal with no blank ends and no information separator is read as `ParseLiteral` reads it. */
  lemma ParseIntOfBareLiteral(t: string)
    requires t != [] && !IsSpace(t[0]) && !IsSpace(t[|t| - 1]) && NoInfoSeparator(t)
    ensures ParseInt(t) == ParseLiteral(t)
  {
    StripNoBlankEnds(t);
  }

  /** `int()` of a digit run is its value. */
  lemma ParseDigits(digits: string)
    requires AllDigits(digits) && digits != []
    ensures ParseInt(digits) == Some(DigitsValue(digits) as int)
  {
    DigitsNoInfoSeparator(digits);
    assert IsDigit(digits[0]) && IsDigit(digits[|digits| - 1]);
    ParseIntOfBareLiteral(digits);
  }

  /** `int()` of a sign and a digit run is the run's value, negated after `-`. */
  lemma ParseSignThenDigits(c: char, digits: string)
    requires AllDigits(digits) && digits != []
    requires c == '-' || c == '+'
    ensures ParseInt([c] + digits) == Some(if c == '-' then -(DigitsValue(digits) as int) else DigitsValue(digits) as int)
  {
    var t := [c] + digits;
    assert t[0] == c && t[|t| - 1] == digits[|digits| - 1];
    assert IsDigit(digits[|digits| - 1]);
    DigitsNoInfoSeparator(digits);
    NoInfoSeparatorAppend([c], digits);
    ParseIntOfBareLiteral(t);
    assert t[1..] == digits;
  }

  /** `int()` of an optionally signed digit run is its value, negated after `-`. */
  lemma ParseSignedDigits(sign: string, digits: string)
    requires AllDigits(digits) && digits != []
    requires sign == "" || sign == "+" || sign == "-"
    ensures ParseInt(sign + digits)
      == Some(if sign == "-" then -(DigitsValue(digits) as int) else DigitsValue(digits) as int)
  {
    if sign == "" {
      assert sign + digits == digits;
      ParseDigits(digits);
    } else {
      assert sign == [sign[0]];
      ParseSignThenDigits(sign[0], digits);
    }
  }

  /**
   The values `int()` gives for what a user types: blanks it skips, an
   optional `+` or `-` and leading zeros around the decimal form of `n`
   read back as `n` or `-n` (so `" 7 "`, `"+7"` and `"007"` all read as 7).
   */
  lemma ParseIntPadded(p: string, sign: string, zeros: string, n: nat, q: string)
    requires IntPadding(p) && IntPadding(q) && AllZeros(zeros)
    requires sign == "" || sign == "+" || sign == "-"
    ensures ParseInt(p + sign + zeros + NatToString(n) + q) == Some(if sign == "-" then -(n as int) else n as int)
  {
    SignedLiteralValue(sign, zeros, n);
    SignedLiteralEnds(sign, zeros + NatToString(n));
    RegroupMiddle(p, sign, zeros, NatToString(n), q);
    ParseIntPaddedLiteral(p, sign + (zeros + NatToString(n)), q);
  }

  /** The literal part of `ParseIntPadded`: sign, zeros and digits read back as `n` or `-n`. */
  lemma SignedLiteralValue(sign: string, zeros: string, n: nat)
    requires AllZeros(zeros)
    requires sign == "" || sign == "+" || sign == "-"
    ensures AllDigits(zeros + NatToString(n))
    ensures ParseInt(sign + (zeros + NatToString(n))) == Some(if sign == "-" then -(n as int) else n as int)
  {
    var digits := zeros + NatToString(n);
    LeadingZerosValue(zeros, NatToString(n));
    DigitsValueOfNatToString(n);
    ParseSignedDigits(sign, digits);
  }

  /** An optionally signed digit run has no blank at either end. */
  lemma SignedLiteralEnds(sign: string, digits: string)
    requires AllDigits(digits) && digits != []
    requires sign == "" || sign == "+" || sign == "-"
    ensures var t := sign + digits;
      t != [] && !IsSpace(t[0]) && !IsSpace(t[|t| - 1])
  {
    var t := sign + digits;
    assert t[|t| - 1] == digits[|digits| - 1] && IsDigit(digits[|digits| - 1]);
    if sign == "" {
      assert t[0] == digits[0] && IsDigit(digits[0]);
    } else {
      assert t[0] == sign[0];
    }
  }

  lemma RegroupMiddle<T>(p: seq<T>, a: seq<T>, b: seq<T>, c: seq<T>, q: seq<T>)
    ensures p + a + b + c + q == p + (a + (b + c)) + q
  {
  }
}
