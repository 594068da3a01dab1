/**
 * Decimal rendering of non-negative integers as Python's `str(n)` and the
 * zero-padded format `f"{n:0Wd}"` produce it, with the parse that inverts both.
 * The pipeline uses the padded form for transaction ids (`TXN`, width 8) and
 * clickstream event ids (`EVT`, width 10), and `str(n)` for browse product ids.
 */
module Decimal {

  predicate IsDigit(c: char) {
    '0' <= c <= '9'
  }

  predicate AllDigits(s: string) {
    forall i :: 0 <= i < |s| ==> IsDigit(s[i])
  }

  function DigitChar(d: nat): (c: char)
    requires d < 10
    ensures IsDigit(c)
  {
    ('0' as int + d) as char
  }

  function DigitValue(c: char): (d: nat)
    requires IsDigit(c)
    ensures d < 10
  {
    c as int - '0' as int
  }

  /** `str(n)`: at least one digit, and no leading zero unless `n` is zero. */
  function Digits(n: nat): (r: string)
    ensures |r| >= 1 && AllDigits(r)
    ensures |r| > 1 ==> r[0] != '0'
  {
    if n < 10 then [DigitChar(n)] else Digits(n / 10) + [DigitChar(n % 10)]
  }

  function Zeros(k: nat): (r: string)
    ensures |r| == k && AllDigits(r)
  {
    seq(k, _ => '0')
  }

  /** `f"{n:0{width}d}"`: `str(n)` left-padded with zeros up to `width`
      characters; a number wider than `width` is kept whole. */
  function ZeroPad(n: nat, width: nat): string {
    var d := Digits(n);
    (if |d| < width then Zeros(width - |d|) else []) + d
  }

  /** `int(s)` for a string of decimal digits; the empty string reads as 0. */
  function Parse(s: string): nat
    requires AllDigits(s)
  {
    if s == [] then 0 else Parse(s[..|s| - 1]) * 10 + DigitValue(s[|s| - 1])
  }

  function Pow10(k: nat): (p: nat)
    ensures p >= 1
  {
    if k == 0 then 1 else 10 * Pow10(k - 1)
  }

  lemma {:induction false} ParseDigits(n: nat)
    ensures Parse(Digits(n)) == n
  {
    if n >= 10 {
      var d := Digits(n / 10);
      var s := d + [DigitChar(n % 10)];
      assert s[..|s| - 1] == d;
      ParseDigits(n / 10);
    }
  }

  lemma {:induction false} ParseLeadingZeros(k: nat, s: string)
    requires AllDigits(s)
    ensures AllDigits(Zeros(k) + s) && Parse(Zeros(k) + s) == Parse(s)
    decreases |s|, k
  {
    var t := Zeros(k) + s;
    assert AllDigits(t) by {
      forall i | 0 <= i < |t| ensures IsDigit(t[i]) {
        if i < k { assert t[i] == Zeros(k)[i]; } else { assert t[i] == s[i - k]; }
      }
    }
    if s == [] {
      if k > 0 {
        assert t[..|t| - 1] == Zeros(k - 1) + [];
        ParseLeadingZeros(k - 1, []);
      }
    } else {
      assert t[..|t| - 1] == Zeros(k) + s[..|s| - 1];
      ParseLeadingZeros(k, s[..|s| - 1]);
    }
  }

  /** The padded form consists of digits and reads back as the number it came
      from: formatting with `ZeroPad` loses nothing. */
  lemma ZeroPadRoundTrip(n: nat, width: nat)
    ensures AllDigits(ZeroPad(n, width)) && Parse(ZeroPad(n, width)) == n
  {
    var d := Digits(n);
    ParseDigits(n);
    if |d| < width {
      ParseLeadingZeros(width - |d|, d);
    } else {
      assert ZeroPad(n, width) == d;
    }
  }

  /** Minimum-width padding, not truncation: the result is `width` long or the
      length of `str(n)`, whichever is larger, and ends with `str(n)` in full. */
  lemma ZeroPadShape(n: nat, width: nat)
    ensures var r := ZeroPad(n, width);
      |r| == (if |Digits(n)| < width then width else |Digits(n)|)
      && |r| >= width
      && r[|r| - |Digits(n)|..] == Digits(n)
  {
  }

  /** Different numbers never share a padded form, whatever the widths. */
  lemma ZeroPadInjective(n: nat, m: nat, w1: nat, w2: nat)
    requires ZeroPad(n, w1) == ZeroPad(m, w2)
    ensures n == m
  {
    ZeroPadRoundTrip(n, w1);
    ZeroPadRoundTrip(m, w2);
  }

  /** A number below `10^k` (k >= 1) has at most `k` digits. */
  lemma {:induction false} DigitsBound(n: nat, k: nat)
    requires k >= 1 && n < Pow10(k)
    ensures |Digits(n)| <= k
  {
    if n >= 10 {
      assert k >= 2;
      assert n / 10 < Pow10(k - 1);
      DigitsBound(n / 10, k - 1);
    }
  }

  /** Below `10^width` the padded form is exactly `width` characters long. */
  lemma ZeroPadFixedWidth(n: nat, width: nat)
    requires width >= 1 && n < Pow10(width)
    ensures |ZeroPad(n, width)| == width
  {
    DigitsBound(n, width);
  }
}
