/**
 * Decimal digit strings: the zero-padded fields of a timestamp and the
 * text that Python's `str()` produces for an integer.
 */
module Decimal {
  import opened Wrappers

  predicate IsDigit(c: char) {
    '0' <= c <= '9'
  }

  predicate AllDigits(s: string) {
    forall i :: 0 <= i < |s| ==> IsDigit(s[i])
  }

  function Pow10(n: nat): (r: nat)
    ensures r >= 1
  {
    if n == 0 then 1 else 10 * Pow10(n - 1)
  }

  function DigitValue(c: char): (d: nat)
    requires IsDigit(c)
    ensures d < 10
  {
    c as int - '0' as int
  }

  function DigitChar(d: nat): (c: char)
    requires d < 10
    ensures IsDigit(c) && DigitValue(c) == d
  {
    ('0' as int + d) as char
  }

  lemma DigitCharOfValue(c: char)
    requires IsDigit(c)
    ensures DigitChar(DigitValue(c)) == c
  {
  }

  /** The number a string of decimal digits denotes, most significant digit first. */
  function ValueOf(s: string): (n: nat)
    requires AllDigits(s)
    ensures n < Pow10(|s|)
  {
    if |s| == 0 then 0
    else
      var init := s[..|s| - 1];
      assert AllDigits(init);
      var v := ValueOf(init);
      assert v <= Pow10(|s| - 1) - 1;
      v * 10 + DigitValue(s[|s| - 1])
  }

  /** `n` written in exactly `width` digits, zero-padded on the left (`%0<width>d`). */
  function PadDecimal(n: nat, width: nat): (s: string)
    requires n < Pow10(width)
    ensures |s| == width && AllDigits(s)
  {
    if width == 0 then ""
    else
      var init := PadDecimal(n / 10, width - 1);
      var s := init + [DigitChar(n % 10)];
      assert s[..|s| - 1] == init;
      s
  }

  /** Splitting off the last decimal digit undoes appending it. */
  lemma LastDigit(v: nat, d: nat)
    requires d < 10
    ensures (v * 10 + d) / 10 == v && (v * 10 + d) % 10 == d
  {
  }

  /** Reading a padded number gives the number back. */
  lemma {:induction false} ValueOfPad(n: nat, width: nat)
    requires n < Pow10(width)
    ensures ValueOf(PadDecimal(n, width)) == n
  {
    if width > 0 {
      var s := PadDecimal(n, width);
      var init := PadDecimal(n / 10, width - 1);
      assert s[..|s| - 1] == init;
      ValueOfPad(n / 10, width - 1);
      assert s[|s| - 1] == DigitChar(n % 10);
      assert n == (n / 10) * 10 + n % 10;
      assert ValueOf(s) == (n / 10) * 10 + n % 10;
    }
  }

  /** Every digit string is the padded form of its own value: padding and reading are inverse. */
  lemma {:induction false} PadValueOf(s: string)
    requires AllDigits(s)
    ensures PadDecimal(ValueOf(s), |s|) == s
  {
    if |s| > 0 {
      var init := s[..|s| - 1];
      var last := s[|s| - 1];
      assert AllDigits(init);
      PadValueOf(init);
      var v := ValueOf(s);
      LastDigit(ValueOf(init), DigitValue(last));
      assert v / 10 == ValueOf(init) && v % 10 == DigitValue(last);
      DigitCharOfValue(last);
      assert s == init + [last];
    }
  }

  /** A digit string in canonical form: nonempty and without a leading zero unless it is "0". */
  predicate Canonical(s: string) {
    |s| >= 1 && AllDigits(s) && (|s| == 1 || s[0] != '0')
  }

  /** Python's `str(n)` for `n >= 0`. */
  function NatToString(n: nat): (s: string)
    ensures Canonical(s) && ValueOf(s) == n
  {
    if n < 10 then [DigitChar(n)]
    else
      var init := NatToString(n / 10);
      var s := init + [DigitChar(n % 10)];
      assert s[..|s| - 1] == init;
      s
  }

  /** Python's `str(i)` for any integer: a minus sign, then the digits of the magnitude. */
  function IntToString(i: int): (s: string)
    ensures |s| >= 1
    ensures i >= 0 ==> Canonical(s) && ValueOf(s) == i
    ensures i < 0 ==> s[0] == '-' && Canonical(s[1..]) && ValueOf(s[1..]) == -i
  {
    if i < 0 then "-" + NatToString(-i) else NatToString(i)
  }

  /** The inverse of `IntToString`: reads an optional minus sign and canonical digits. */
  function ParseInt(s: string): (r: Option<int>)
    ensures r.Some? ==> |s| >= 1 && (r.value < 0 <==> s[0] == '-')
  {
    if |s| >= 1 && s[0] == '-' then
      if Canonical(s[1..]) && ValueOf(s[1..]) > 0 then Some(0 - ValueOf(s[1..]) as int) else None
    else if Canonical(s) then Some(ValueOf(s))
    else None
  }

  lemma IntToStringRoundTrip(i: int)
    ensures ParseInt(IntToString(i)) == Some(i)
  {
    var s := IntToString(i);
    if i < 0 {
      assert s[0] == '-';
    } else {
      assert s[0] != '-';
    }
  }

  /** Distinct integers print differently, so `str(id)` never merges two ids. */
  lemma IntToStringInjective(a: int, b: int)
    ensures IntToString(a) == IntToString(b) <==> a == b
  {
    IntToStringRoundTrip(a);
    IntToStringRoundTrip(b);
  }
}
