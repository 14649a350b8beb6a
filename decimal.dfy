/**
 * Decimal digit strings: the rendering of integers by Rust's `{}` / `{:02}`
 * and Python's `%Y` / `%m` / `%d`, and the reading of digit fields by the
 * date parsers. Only ASCII digits are handled.
 */
module Decimal {
  import opened Wrappers

  predicate IsDigit(c: char) {
    '0' <= c <= '9'
  }

  predicate AllDigits(s: string) {
    forall i :: 0 <= i < |s| ==> IsDigit(s[i])
  }

  function DigitValue(c: char): (n: nat)
    requires IsDigit(c)
    ensures n < 10
  {
    c as int - '0' as int
  }

  function DigitChar(n: nat): (c: char)
    requires n < 10
    ensures IsDigit(c) && DigitValue(c) == n
  {
    ('0' as int + n) as char
  }

  function Pow10(k: nat): (p: nat)
    ensures p >= 1
  {
    if k == 0 then 1 else 10 * Pow10(k - 1)
  }

  /** The number a digit string denotes, most significant digit first. */
  function Value(s: string): nat
    requires AllDigits(s)
  {
    if s == [] then 0 else Value(s[..|s| - 1]) * 10 + DigitValue(s[|s| - 1])
  }

  /** `n` rendered in exactly `width` digits, zero-padded on the left (`{:02}` for width 2). */
  function Fixed(n: nat, width: nat): (s: string)
    ensures |s| == width && AllDigits(s)
  {
    if width == 0 then [] else Fixed(n / 10, width - 1) + [DigitChar(n % 10)]
  }

  /** `n` in decimal with no leading zeros (Rust's `{}` on an unsigned value). */
  function Natural(n: nat): (s: string)
    ensures 0 < |s| && AllDigits(s)
  {
    if n < 10 then [DigitChar(n)] else Natural(n / 10) + [DigitChar(n % 10)]
  }

  /** `i` in decimal with a leading `-` when negative (Rust's `{}` on a signed value). */
  function Signed(i: int): (s: string)
    ensures 0 < |s|
  {
    if i < 0 then "-" + Natural(-i) else Natural(i)
  }

  /** Reads an optionally signed decimal integer; the inverse of `Signed`. */
  function ParseSigned(s: string): Option<int> {
    if |s| > 1 && s[0] == '-' && AllDigits(s[1..]) then Some(-(Value(s[1..]) as int))
    else if 0 < |s| && AllDigits(s) then Some(Value(s))
    else None
  }

  lemma {:induction false} ValueOfSnoc(s: string, c: char)
    requires AllDigits(s) && IsDigit(c)
    ensures AllDigits(s + [c]) && Value(s + [c]) == Value(s) * 10 + DigitValue(c)
  {
    assert (s + [c])[..|s + [c]| - 1] == s;
  }

  lemma {:induction false} FixedRoundTrip(n: nat, width: nat)
    requires n < Pow10(width)
    ensures Value(Fixed(n, width)) == n
  {
    if width > 0 {
      FixedRoundTrip(n / 10, width - 1);
      ValueOfSnoc(Fixed(n / 10, width - 1), DigitChar(n % 10));
    }
  }

  lemma {:induction false} NaturalRoundTrip(n: nat)
    ensures Value(Natural(n)) == n
  {
    if n < 10 {
      ValueOfSnoc([], DigitChar(n));
      assert [] + [DigitChar(n)] == [DigitChar(n)];
    } else {
      NaturalRoundTrip(n / 10);
      ValueOfSnoc(Natural(n / 10), DigitChar(n % 10));
    }
  }

  lemma {:induction false} SignedRoundTrip(i: int)
    ensures ParseSigned(Signed(i)) == Some(i)
  {
    if i < 0 {
      NaturalRoundTrip(-i);
      assert Signed(i)[1..] == Natural(-i);
    } else {
      NaturalRoundTrip(i);
    }
  }

  lemma {:induction false} ValueOfZeros(k: nat)
    ensures AllDigits(seq(k, _ => '0')) && Value(seq(k, _ => '0')) == 0
  {
    if k > 0 {
      var z := seq(k, _ => '0');
      assert z[..k - 1] == seq(k - 1, _ => '0');
      ValueOfZeros(k - 1);
    }
  }

  /** Padding with `k` zeros on the right multiplies the value by 10^k. */
  lemma {:induction false} ValueOfPadded(s: string, k: nat)
    requires AllDigits(s)
    ensures AllDigits(s + seq(k, _ => '0')) && Value(s + seq(k, _ => '0')) == Value(s) * Pow10(k)
  {
    if k == 0 {
      assert s + seq(k, _ => '0') == s;
    } else {
      var shorter := s + seq(k - 1, _ => '0');
      ValueOfPadded(s, k - 1);
      assert s + seq(k, _ => '0') == shorter + ['0'];
      ValueOfSnoc(shorter, '0');
      assert Value(s) * Pow10(k) == Value(s) * Pow10(k - 1) * 10;
    }
  }
}
