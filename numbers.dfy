/**
 * Decimal digit strings: `Number.prototype.toString` on a non-negative integer,
 * `String.prototype.padStart(width, '0')`, and `Number(text)` restricted to
 * integer text.
 */
module Numbers {
  import opened Common
  import opened Text

  predicate IsDigit(c: char) {
    '0' <= c <= '9'
  }

  predicate AllDigits(s: string) {
    forall i :: 0 <= i < |s| ==> IsDigit(s[i])
  }

  function DigitChar(d: nat): (c: char)
    requires d < 10
    ensures IsDigit(c) && c as int - '0' as int == d
  {
    (d + '0' as int) as char
  }

  /** The value of a string of decimal digits, most significant first; "" reads as 0. */
  function DigitsValue(s: string): nat
    requires AllDigits(s)
  {
    if s == [] then 0 else 10 * DigitsValue(s[..|s| - 1]) + (s[|s| - 1] as int - '0' as int)
  }

  /** `n.toString()` for a non-negative integer `n`. */
  function NatToString(n: nat): (s: string)
    ensures 1 <= |s| && AllDigits(s)
    ensures s[0] == '0' <==> n == 0
    ensures |s| == 1 <==> n < 10
    ensures |s| <= 2 <==> n < 100
  {
    if n < 10 then [DigitChar(n)] else NatToString(n / 10) + [DigitChar(n % 10)]
  }

  /** Reading back what `NatToString` writes gives the number again. */
  lemma {:induction false} NatToStringRoundTrip(n: nat)
    ensures DigitsValue(NatToString(n)) == n
  {
    if n >= 10 {
      var s := NatToString(n);
      assert s[..|s| - 1] == NatToString(n / 10);
      NatToStringRoundTrip(n / 10);
    }
  }

  function Zeros(k: nat): (z: string)
    ensures |z| == k && AllDigits(z)
  {
    seq(k, _ => '0')
  }

  /** `s.padStart(2, '0')`. */
  function PadStart2(s: string): (r: string)
    ensures |r| == if |s| < 2 then 2 else |s|
    ensures r[|r| - |s|..] == s
  {
    if |s| < 2 then Zeros(2 - |s|) + s else s
  }

  lemma {:induction false} ZerosValue(k: nat)
    ensures DigitsValue(Zeros(k)) == 0
  {
    if k > 0 {
      assert Zeros(k)[..k - 1] == Zeros(k - 1);
      ZerosValue(k - 1);
    }
  }

  /** Leading zeros do not change the value of a digit string. */
  lemma {:induction false} LeadingZerosValue(k: nat, s: string)
    requires AllDigits(s)
    ensures AllDigits(Zeros(k) + s) && DigitsValue(Zeros(k) + s) == DigitsValue(s)
  {
    if s == [] {
      assert Zeros(k) + s == Zeros(k);
      ZerosValue(k);
    } else {
      var z := Zeros(k) + s;
      assert z[..|z| - 1] == Zeros(k) + s[..|s| - 1];
      LeadingZerosValue(k, s[..|s| - 1]);
    }
  }

  /** Padding a digit string to width two keeps it a digit string of the same value. */
  lemma PadStart2Value(s: string)
    requires AllDigits(s)
    ensures AllDigits(PadStart2(s)) && DigitsValue(PadStart2(s)) == DigitsValue(s)
  {
    if |s| < 2 {
      LeadingZerosValue(2 - |s|, s);
    }
  }

  /**
   * `Number(text)` for text that holds an integer: surrounding white space is
   * ignored, empty text is 0, an optional sign may precede the digits. Any other
   * text is None (JavaScript's NaN).
   */
  function NumberValue(text: string): Option<int> {
    IntegerText(Trim(text))
  }

  /** The integer that trimmed text `t` spells, if it spells one. */
  function IntegerText(t: string): Option<int> {
    if t == "" then Some(0)
    else if t[0] == '-' && |t| > 1 && AllDigits(t[1..]) then Some(-(DigitsValue(t[1..]) as int))
    else if t[0] == '+' && |t| > 1 && AllDigits(t[1..]) then Some(DigitsValue(t[1..]) as int)
    else if AllDigits(t) then Some(DigitsValue(t) as int)
    else None
  }

  /** `Number(text) || 0`: NaN (and 0) become 0. */
  function NumberOrZero(text: string): int {
    NumberValue(text).GetOr(0)
  }

  /** Digits carry no white space to trim. */
  lemma TrimDigits(s: string)
    requires s != [] && AllDigits(s)
    ensures Trim(s) == s
  {
    assert IsDigit(s[0]) && IsDigit(s[|s| - 1]);
    TrimNoOp(s);
  }

  /** Nor do digits after a minus sign. */
  lemma TrimNegativeDigits(s: string)
    requires s != [] && AllDigits(s)
    ensures Trim("-" + s) == "-" + s
  {
    var t := "-" + s;
    assert t[0] == '-' && t[|t| - 1] == s[|s| - 1];
    TrimNoOp(t);
  }

  lemma IntegerTextOfNegativeDigits(s: string)
    requires s != [] && AllDigits(s)
    ensures IntegerText("-" + s) == Some(-(DigitsValue(s) as int))
  {
    assert ("-" + s)[1..] == s;
  }

  /** A non-empty digit string is read as its digits' value. */
  lemma NumberValueOfDigits(s: string)
    requires s != [] && AllDigits(s)
    ensures NumberValue(s) == Some(DigitsValue(s) as int)
  {
    TrimDigits(s);
  }

  /** A minus sign followed by a non-empty digit string is read as the negated value. */
  lemma NumberValueOfNegativeDigits(s: string)
    requires s != [] && AllDigits(s)
    ensures NumberValue("-" + s) == Some(-(DigitsValue(s) as int))
  {
    TrimNegativeDigits(s);
    IntegerTextOfNegativeDigits(s);
  }

  /** `Number` reads back what `toString` writes. */
  lemma NumberValueRoundTrip(n: nat)
    ensures NumberValue(NatToString(n)) == Some(n)
  {
    NumberValueOfDigits(NatToString(n));
    NatToStringRoundTrip(n);
  }

  /** `Number` reads back a minus sign followed by what `toString` writes. */
  lemma NegativeNumberValueRoundTrip(n: nat)
    ensures NumberValue("-" + NatToString(n)) == Some(-(n as int))
  {
    NumberValueOfNegativeDigits(NatToString(n));
    NatToStringRoundTrip(n);
  }

  /** Text that is neither empty, a sign followed by digits, nor digits is NaN. */
  lemma NumberValueNaN(text: string)
    requires Trim(text) != "" && !AllDigits(Trim(text))
    requires Trim(text)[0] != '-' && Trim(text)[0] != '+'
    ensures NumberValue(text) == None
  {
  }
}
