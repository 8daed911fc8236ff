/** The strings the harvester builds from a date: the directory name
    `date.strftime("%Y-%m-%d")` and the search window bounds `<date>T00:00:00Z`,
    which are RFC 3339 date-times (section 5.6 of RFC 3339) at midnight UTC. */
module Timestamps {
  import opened Wrappers
  import opened Decimal
  import opened Calendar

  /** `date.strftime("%Y-%m-%d")`. */
  function FormatDate(d: Date): string
    requires IsValid(d)
  {
    FormatNat(d.year, 4) + "-" + FormatNat(d.month, 2) + "-" + FormatNat(d.day, 2)
  }

  /** Reads a `YYYY-MM-DD` string back into its (year, month, day) triple. */
  function ParseDate(s: string): Option<Date> {
    if |s| == 10 && s[4] == '-' && s[7] == '-'
       && AllDigits(s[..4]) && AllDigits(s[5..7]) && AllDigits(s[8..])
    then Some(Date(ParseDigits(s[..4]), ParseDigits(s[5..7]), ParseDigits(s[8..])))
    else None
  }

  /** The time-of-day and offset that `main` appends to both window bounds. */
  const MidnightUtc := "T00:00:00Z"

  /** A window bound: `str_day + "T00:00:00Z"`. */
  function MidnightOf(d: Date): string
    requires IsValid(d)
  {
    FormatDate(d) + MidnightUtc
  }

  predicate DigitsIn(s: string, lo: nat, hi: nat)
    requires lo <= hi <= |s|
  {
    AllDigits(s[lo..hi])
  }

  /** The `full-date "T" full-time` form of section 5.6 of RFC 3339 with the
      "Z" offset and no fractional seconds, including the restriction of
      section 5.7 that the day of the month exists in that month and year. */
  predicate IsRfc3339UtcDateTime(s: string) {
    |s| == 20
    && s[4] == '-' && s[7] == '-' && s[10] == 'T' && s[13] == ':' && s[16] == ':' && s[19] == 'Z'
    && DigitsIn(s, 0, 4) && DigitsIn(s, 5, 7) && DigitsIn(s, 8, 10)
    && DigitsIn(s, 11, 13) && DigitsIn(s, 14, 16) && DigitsIn(s, 17, 19)
    && 1 <= ParseDigits(s[5..7]) <= 12
    && 1 <= ParseDigits(s[8..10]) <= DaysInMonth(ParseDigits(s[..4]), ParseDigits(s[5..7]))
    && ParseDigits(s[11..13]) <= 23
    && ParseDigits(s[14..16]) <= 59
    && ParseDigits(s[17..19]) <= 60
  }

  lemma FiveDigitBounds()
    ensures Pow10(2) == 100 && Pow10(4) == 10000
  {
    assert Pow10(1) == 10;
    assert Pow10(3) == 1000;
  }

  /** Formatting a valid date gives a 10-character string that parses back to
      the same date; in particular distinct dates name distinct directories. */
  lemma FormatDateRoundTrip(d: Date)
    requires IsValid(d)
    ensures |FormatDate(d)| == 10
    ensures ParseDate(FormatDate(d)) == Some(d)
  {
    FiveDigitBounds();
    FormatNatRoundTrip(d.year, 4);
    FormatNatRoundTrip(d.month, 2);
    FormatNatRoundTrip(d.day, 2);
    var y, m, dd := FormatNat(d.year, 4), FormatNat(d.month, 2), FormatNat(d.day, 2);
    DateFields(y, m, dd);
  }

  /** The fields of a `YYYY-MM-DD` string sit at fixed offsets. */
  lemma DateFields(y: string, m: string, dd: string)
    requires |y| == 4 && |m| == 2 && |dd| == 2
    ensures var s := y + "-" + m + "-" + dd;
      |s| == 10 && s[..4] == y && s[4] == '-' && s[5..7] == m && s[7] == '-' && s[8..] == dd
  {
    var s := y + "-" + m + "-" + dd;
    assert s == y + ("-" + m + "-" + dd);
    assert s[..4] == y;
    var t := s[4..];
    assert t == "-" + m + ("-" + dd);
    assert s[5..7] == t[1..3] == m;
    assert s[8..] == t[4..] == dd;
  }

  lemma FormatDateInjective(a: Date, b: Date)
    requires IsValid(a) && IsValid(b) && FormatDate(a) == FormatDate(b)
    ensures a == b
  {
    FormatDateRoundTrip(a);
    FormatDateRoundTrip(b);
  }

  /** Each window bound is an RFC 3339 date-time at midnight UTC whose date part
      reads back as the date it was built from. */
  lemma MidnightIsRfc3339(d: Date)
    requires IsValid(d)
    ensures IsRfc3339UtcDateTime(MidnightOf(d))
    ensures ParseDate(MidnightOf(d)[..10]) == Some(d)
  {
    FormatDateRoundTrip(d);
    var f := FormatDate(d);
    var s := MidnightOf(d);
    assert s[..10] == f;
    assert s[..4] == f[..4];
    assert s[5..7] == f[5..7];
    assert s[8..10] == f[8..];
    assert s[10..] == MidnightUtc;
    MidnightFields(s);
  }

  /** The time part of "T00:00:00Z" at offset 10 is three zero fields. */
  lemma MidnightFields(s: string)
    requires |s| == 20 && s[10..] == MidnightUtc
    ensures s[10] == 'T' && s[13] == ':' && s[16] == ':' && s[19] == 'Z'
    ensures s[11..13] == "00" && s[14..16] == "00" && s[17..19] == "00"
    ensures ParseDigits("00") == 0 && AllDigits("00")
  {
    var t := s[10..];
    assert s[11..13] == t[1..3];
    assert s[14..16] == t[4..6];
    assert s[17..19] == t[7..9];
    assert ParseDigits("0") == 0;
    assert "00"[..1] == "0";
  }
}
