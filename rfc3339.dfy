/**
 * The date-time strings the aggregation is configured with, read as chrono's
 * `DateTime::parse_from_rfc3339` reads them (section 5.6 of RFC 3339), for the
 * UTC form `YYYY-MM-DDThh:mm:ss[.fraction]Z`.
 */
module Rfc3339 {
  import opened Wrappers
  import opened Decimal
  import opened Calendar

  /** A UTC date and time of day with nanosecond precision. */
  datatype DateTime = DateTime(date: Date, hour: int, minute: int, second: int, nanos: int)

  const NanosPerSecond: int := 1_000_000_000
  const NanosPerDay: int := 86_400 * NanosPerSecond

  predicate ValidDateTime(t: DateTime) {
    ValidDate(t.date) && 0 <= t.hour < 24 && 0 <= t.minute < 60 && 0 <= t.second < 60
    && 0 <= t.nanos < NanosPerSecond
  }

  /** Nanoseconds since 0000-01-01T00:00:00Z (negative before it). */
  function Instant(t: DateTime): int
    requires ValidDateTime(t)
  {
    ((DayNumber(t.date) * 24 + t.hour) * 60 + t.minute) * 60 * NanosPerSecond
    + t.second * NanosPerSecond + t.nanos
  }

  lemma ValueBound(s: string)
    requires AllDigits(s)
    ensures Value(s) < Pow10(|s|)
  {
  }

  /**
   * The nanoseconds a fraction's digits denote: the first nine digits count,
   * scaled as if padded with zeros to nine, and later digits are skipped.
   */
  function FractionNanos(ds: string): (n: nat)
    requires AllDigits(ds)
    ensures n < NanosPerSecond
    ensures |ds| <= 9 ==> n == Value(ds) * Pow10(9 - |ds|)
    ensures 9 <= |ds| ==> n == Value(ds[..9])
  {
    var k := if |ds| < 9 then |ds| else 9;
    var padded := ds[..k] + seq(9 - k, _ => '0');
    ValueOfPadded(ds[..k], 9 - k);
    assert |ds| <= 9 ==> ds[..k] == ds;
    ValueBound(padded);
    assert Pow10(9) == NanosPerSecond;
    Value(padded)
  }

  /** True when `s[lo..hi]` consists of decimal digits only. */
  predicate DigitsAt(s: string, lo: nat, hi: nat)
    requires lo <= hi <= |s|
  {
    AllDigits(s[lo..hi])
  }

  /** The shape `DDDD-DD-DDTDD:DD:DD` followed by `.D…Z` or `Z` and nothing else. */
  predicate WellShaped(s: string) {
    20 <= |s|
    && DigitsAt(s, 0, 4) && s[4] == '-' && DigitsAt(s, 5, 7) && s[7] == '-' && DigitsAt(s, 8, 10)
    && s[10] == 'T'
    && DigitsAt(s, 11, 13) && s[13] == ':' && DigitsAt(s, 14, 16) && s[16] == ':' && DigitsAt(s, 17, 19)
    && s[|s| - 1] == 'Z'
    && (|s| == 20 || (22 <= |s| && s[19] == '.' && DigitsAt(s, 20, |s| - 1)))
  }

  /** The nanoseconds of a well-shaped string: zero when it has no fraction. */
  function Nanos(s: string): (n: nat)
    requires WellShaped(s)
    ensures n < NanosPerSecond
  {
    if |s| == 20 then 0 else FractionNanos(s[20..|s| - 1])
  }

  /**
   * `DateTime::parse_from_rfc3339(s)` for a UTC string: `None` is the error
   * the callers `unwrap` into a panic (wrong shape, or a field out of range).
   */
  function Parse(s: string): (r: Option<DateTime>)
    ensures r.Some? ==> ValidDateTime(r.value)
  {
    if !WellShaped(s) then None
    else
      var t := DateTime(Date(Value(s[0..4]), Value(s[5..7]), Value(s[8..10])),
                        Value(s[11..13]), Value(s[14..16]), Value(s[17..19]),
                        Nanos(s));
      if ValidDateTime(t) then Some(t) else None
  }

  /** The canonical `YYYY-MM-DD` text of a date of a four-digit year. */
  function FormatDate(d: Date): (s: string)
    requires ValidDate(d) && 0 <= d.year < 10000
    ensures |s| == 10
  {
    Fixed(d.year, 4) + "-" + Fixed(d.month, 2) + "-" + Fixed(d.day, 2)
  }

  /** The canonical `hh:mm:ss` text of a time of day. */
  function FormatTime(t: DateTime): (s: string)
    requires ValidDateTime(t)
    ensures |s| == 8
  {
    Fixed(t.hour, 2) + ":" + Fixed(t.minute, 2) + ":" + Fixed(t.second, 2)
  }

  /** The canonical text of a whole-second date-time of a four-digit year. */
  function Format(t: DateTime): (s: string)
    requires ValidDateTime(t) && 0 <= t.date.year < 10000
    ensures |s| == 20
  {
    FormatDate(t.date) + "T" + FormatTime(t) + "Z"
  }

  lemma FormatDateFields(d: Date)
    requires ValidDate(d) && 0 <= d.year < 10000
    ensures var s := FormatDate(d);
      s[0..4] == Fixed(d.year, 4) && s[4] == '-' && s[5..7] == Fixed(d.month, 2)
      && s[7] == '-' && s[8..10] == Fixed(d.day, 2)
  {
  }

  lemma FormatTimeFields(t: DateTime)
    requires ValidDateTime(t)
    ensures var s := FormatTime(t);
      s[0..2] == Fixed(t.hour, 2) && s[2] == ':' && s[3..5] == Fixed(t.minute, 2)
      && s[5] == ':' && s[6..8] == Fixed(t.second, 2)
  {
  }

  lemma FormatFields(t: DateTime)
    requires ValidDateTime(t) && 0 <= t.date.year < 10000
    ensures var s := Format(t);
      s[0..4] == Fixed(t.date.year, 4) && s[4] == '-' && s[5..7] == Fixed(t.date.month, 2)
      && s[7] == '-' && s[8..10] == Fixed(t.date.day, 2) && s[10] == 'T'
      && s[11..13] == Fixed(t.hour, 2) && s[13] == ':' && s[14..16] == Fixed(t.minute, 2)
      && s[16] == ':' && s[17..19] == Fixed(t.second, 2) && s[19] == 'Z'
  {
    var s, a, b := Format(t), FormatDate(t.date), FormatTime(t);
    FormatDateFields(t.date);
    FormatTimeFields(t);
    assert s[0..10] == a;
    assert s[11..19] == b;
    assert s[0..4] == a[0..4] && s[5..7] == a[5..7] && s[8..10] == a[8..10];
    assert s[11..13] == b[0..2] && s[14..16] == b[3..5] && s[17..19] == b[6..8];
  }

  /** Parsing the canonical text of a whole-second date-time gives it back. */
  lemma FormatRoundTrip(t: DateTime)
    requires ValidDateTime(t) && 0 <= t.date.year < 10000 && t.nanos == 0
    ensures Parse(Format(t)) == Some(t)
  {
    var s := Format(t);
    FormatFields(t);
    assert WellShaped(s);
    assert Pow10(4) == 10000 && Pow10(2) == 100;
    FixedRoundTrip(t.date.year, 4);
    FixedRoundTrip(t.date.month, 2);
    FixedRoundTrip(t.date.day, 2);
    FixedRoundTrip(t.hour, 2);
    FixedRoundTrip(t.minute, 2);
    FixedRoundTrip(t.second, 2);
    assert Value(s[0..4]) == t.date.year && Value(s[5..7]) == t.date.month && Value(s[8..10]) == t.date.day;
    assert Value(s[11..13]) == t.hour && Value(s[14..16]) == t.minute && Value(s[17..19]) == t.second;
    assert Nanos(s) == 0;
  }

  lemma SamePrefixSameParse(s: string, s': string)
    requires WellShaped(s) && WellShaped(s') && s[..19] == s'[..19] && Nanos(s) == Nanos(s')
    ensures Parse(s) == Parse(s')
  {
    assert s[0..4] == s'[0..4] && s[5..7] == s'[5..7] && s[8..10] == s'[8..10];
    assert s[11..13] == s'[11..13] && s[14..16] == s'[14..16] && s[17..19] == s'[17..19];
  }

  /** A fraction made of zeros only denotes no nanoseconds: `…:ss.000Z` reads as `…:ssZ`. */
  lemma ZeroFraction(t: DateTime, k: nat)
    requires ValidDateTime(t) && 0 <= t.date.year < 10000 && t.nanos == 0 && 0 < k
    ensures Parse(Format(t)[..19] + "." + seq(k, _ => '0') + "Z") == Some(t)
  {
    FormatRoundTrip(t);
    var f, z := Format(t), seq(k, _ => '0');
    var s := f[..19] + "." + z + "Z";
    assert s[..19] == f[..19];
    assert s[20..|s| - 1] == z;
    ValueOfZeros(k);
    assert WellShaped(s) by {
      assert s[0..4] == f[0..4] && s[5..7] == f[5..7] && s[8..10] == f[8..10];
      assert s[11..13] == f[11..13] && s[14..16] == f[14..16] && s[17..19] == f[17..19];
    }
    var n := if k < 9 then k else 9;
    assert z[..n] + seq(9 - n, _ => '0') == seq(9, _ => '0');
    ValueOfZeros(9);
    assert Nanos(s) == 0;
    SamePrefixSameParse(s, f);
  }
}
