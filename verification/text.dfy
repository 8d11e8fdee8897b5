/** Characters and the decimal rendering of integers, as JavaScript's
    `Number.prototype.toString` and `String.prototype.padStart` produce them. */
module Text {

  predicate IsLower(c: char) { 'a' <= c <= 'z' }

  predicate IsUpper(c: char) { 'A' <= c <= 'Z' }

  predicate IsDigit(c: char) { '0' <= c <= '9' }

  predicate AllDigits(s: string) {
    forall i :: 0 <= i < |s| ==> IsDigit(s[i])
  }

  /** A non-empty digit string in its shortest form: a `0` leads only the
      number zero itself. */
  predicate NoLeadingZero(s: string) {
    1 <= |s| && (|s| == 1 || s[0] != '0')
  }

  /** The character of one decimal digit. */
  function DigitChar(d: nat): (c: char)
    requires d < 10
    ensures IsDigit(c) && c as int - '0' as int == d
  {
    ('0' as int + d) as char
  }

  /** The number a string of decimal digits denotes; leading zeros add nothing.
      This is the reference against which the renderings below are checked. */
  function DigitsValue(s: string): nat
    requires AllDigits(s)
  {
    if |s| == 0 then 0
    else 10 * DigitsValue(s[..|s| - 1]) + (s[|s| - 1] as int - '0' as int)
  }

  /** `n.toString()` for a non-negative integer: its shortest decimal digits. */
  function NatToString(n: nat): (s: string)
    ensures AllDigits(s) && DigitsValue(s) == n
    ensures 1 <= |s| && (|s| > 1 ==> s[0] != '0')
    ensures |s| == 1 <==> n < 10
    ensures 10 <= n < 100 ==> |s| == 2
  {
    if n < 10 then [DigitChar(n)]
    else
      var prefix := NatToString(n / 10);
      var s := prefix + [DigitChar(n % 10)];
      assert s[..|s| - 1] == prefix;
      s
  }

  /** `x.toString()` for any integer: a minus sign before the digits of a
      negative number. */
  function IntToString(x: int): (s: string)
    ensures x >= 0 ==> AllDigits(s) && DigitsValue(s) == x
    ensures x < 0 ==> |s| >= 2 && s[0] == '-' && AllDigits(s[1..]) && DigitsValue(s[1..]) == -x
    // canonical: no leading zero on the digits, whatever the sign
    ensures x >= 0 ==> NoLeadingZero(s)
    ensures x < 0 ==> NoLeadingZero(s[1..])
  {
    if x < 0 then "-" + NatToString(-x) else NatToString(x)
  }

  /** `s.padStart(width, fill)` with a one-character fill: fill characters
      are added on the left until the string is `width` long; a string that
      is already long enough is returned unchanged. */
  function PadStart(s: string, width: nat, fill: char): (r: string)
    ensures |r| == if |s| >= width then |s| else width
    ensures r[|r| - |s|..] == s
    ensures forall i :: 0 <= i < |r| - |s| ==> r[i] == fill
  {
    if |s| >= width then s else seq(width - |s|, _ => fill) + s
  }

  /** Prepending zeros never changes the number a digit string denotes. */
  lemma {:induction false} LeadingZeros(zeros: string, s: string)
    requires forall i :: 0 <= i < |zeros| ==> zeros[i] == '0'
    requires AllDigits(s)
    ensures AllDigits(zeros + s) && DigitsValue(zeros + s) == DigitsValue(s)
    decreases |s|
  {
    var t := zeros + s;
    assert AllDigits(t) by {
      forall i | 0 <= i < |t| ensures IsDigit(t[i]) {
        if i < |zeros| { assert t[i] == zeros[i]; } else { assert t[i] == s[i - |zeros|]; }
      }
    }
    if |s| == 0 {
      ZerosValue(zeros);
      assert t == zeros;
    } else {
      var init := s[..|s| - 1];
      LeadingZeros(zeros, init);
      assert t[..|t| - 1] == zeros + init;
    }
  }

  /** A string of zeros denotes zero. */
  lemma {:induction false} ZerosValue(zeros: string)
    requires forall i :: 0 <= i < |zeros| ==> zeros[i] == '0'
    ensures AllDigits(zeros) && DigitsValue(zeros) == 0
  {
    if |zeros| > 0 {
      ZerosValue(zeros[..|zeros| - 1]);
    }
  }
}
