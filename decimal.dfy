/** Zero-padded decimal formatting of natural numbers, as Python's format
    specification `{:05d}` and strftime's `%m`/`%d` produce it, together with the
    parser that inverts it. */
module Decimal {

  predicate IsDigit(c: char) {
    '0' <= c <= '9'
  }

  predicate AllDigits(s: string) {
    forall k :: 0 <= k < |s| ==> IsDigit(s[k])
  }

  function DigitChar(d: nat): (c: char)
    requires d < 10
    ensures IsDigit(c)
  {
    (d + '0' as int) as char
  }

  function DigitValue(c: char): nat
    requires IsDigit(c)
  {
    c as int - '0' as int
  }

  /** The shortest decimal representation of n, as `str(n)` gives it. */
  function Digits(n: nat): (s: string)
    ensures 1 <= |s| && AllDigits(s)
    decreases n
  {
    if n < 10 then [DigitChar(n)] else Digits(n / 10) + [DigitChar(n % 10)]
  }

  function Zeros(k: nat): (s: string)
    ensures |s| == k && AllDigits(s)
  {
    seq(k, _ => '0')
  }

  /** `s` left-padded with '0' to at least `width` characters. */
  function ZeroPad(s: string, width: nat): string {
    if |s| >= width then s else Zeros(width - |s|) + s
  }

  /** A non-negative n zero-padded to `width` digits, as `"{:05d}"` does for width 5. */
  function FormatNat(n: nat, width: nat): (s: string)
    ensures AllDigits(s)
  {
    ZeroPad(Digits(n), width)
  }

  /** The value of a string of decimal digits (empty string: 0). */
  function ParseDigits(s: string): nat
    requires AllDigits(s)
    decreases |s|
  {
    if s == [] then 0 else ParseDigits(s[..|s| - 1]) * 10 + DigitValue(s[|s| - 1])
  }

  function Pow10(k: nat): (p: nat)
    ensures p >= 1
  {
    if k == 0 then 1 else 10 * Pow10(k - 1)
  }

  lemma {:induction false} ParseDigitsOfDigits(n: nat)
    ensures ParseDigits(Digits(n)) == n
    decreases n
  {
    if n >= 10 {
      var s := Digits(n / 10);
      var t := s + [DigitChar(n % 10)];
      assert Digits(n) == t;
      assert t[..|t| - 1] == s;
      ParseDigitsOfDigits(n / 10);
    }
  }

  /** Leading zeros do not change the value of a digit string. */
  lemma {:induction false} ParseLeadingZeros(k: nat, s: string)
    requires AllDigits(s)
    ensures ParseDigits(Zeros(k) + s) == ParseDigits(s)
    decreases |s|, k
  {
    var t := Zeros(k) + s;
    if s == [] {
      assert t == Zeros(k);
      if k > 0 {
        assert t[..|t| - 1] == Zeros(k - 1) + [];
        ParseLeadingZeros(k - 1, []);
      }
    } else {
      var s' := s[..|s| - 1];
      assert t[..|t| - 1] == Zeros(k) + s';
      assert t[|t| - 1] == s[|s| - 1];
      ParseLeadingZeros(k, s');
    }
  }

  /** A number below 10^k has at most k digits. */
  lemma {:induction false} DigitsLength(n: nat, k: nat)
    requires 1 <= k && n < Pow10(k)
    ensures |Digits(n)| <= k
    decreases k
  {
    if n >= 10 {
      assert k >= 2;
      assert n / 10 < Pow10(k - 1);
      DigitsLength(n / 10, k - 1);
    }
  }

  /** Formatting is inverted by parsing, and pads to exactly `width` characters
      when the number fits in that width. */
  lemma {:induction false} FormatNatRoundTrip(n: nat, width: nat)
    ensures ParseDigits(FormatNat(n, width)) == n
    ensures |FormatNat(n, width)| >= width
    ensures 1 <= width && n < Pow10(width) ==> |FormatNat(n, width)| == width
  {
    var s := Digits(n);
    ParseDigitsOfDigits(n);
    if |s| < width {
      ParseLeadingZeros(width - |s|, s);
    }
    if 1 <= width && n < Pow10(width) {
      DigitsLength(n, width);
    }
  }

  /** Distinct numbers never format to the same string. */
  lemma FormatNatInjective(a: nat, b: nat, width: nat)
    requires FormatNat(a, width) == FormatNat(b, width)
    ensures a == b
  {
    FormatNatRoundTrip(a, width);
    FormatNatRoundTrip(b, width);
  }
}
