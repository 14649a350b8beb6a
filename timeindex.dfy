/**
 * The date handling of the aggregation program: `timewindow`, which lists
 * the daily files around a centre date, and the `timesteps` loop, which
 * expresses each configured date as whole days since 1993-01-01.
 */
module TimeIndex {
  import opened Wrappers
  import opened Decimal
  import opened Calendar
  import opened Rfc3339

  /** How many dates `timewindow` lists for a radius: `radius..=radius` is empty when the radius is negative. */
  function WindowLength(radius: int): nat {
    if radius < 0 then 0 else 2 * radius + 1
  }

  /**
   * The value of `timewindow(center, radius)`: the compact tokens of the days
   * `center - radius` up to `center + radius`, in order, or `None` when the
   * centre does not parse (the `unwrap` panics).
   */
  function Window(center: string, radius: int): Option<seq<string>> {
    match Parse(center)
    case None => None
    case Some(t) => Some(Tokens(t.date, radius))
  }

  /** The compact tokens of the days `c - radius ..= c + radius`. */
  function Tokens(c: Date, radius: int): seq<string>
    requires ValidDate(c)
  {
    seq(WindowLength(radius), k requires 0 <= k < WindowLength(radius) => FormatCompact(AddDays(c, k - radius)))
  }

  /** `timewindow`: parses the centre, then pushes one token per offset `-radius ..= radius`. */
  method TimeWindow(center: string, radius: int) returns (dates: Option<seq<string>>)
    ensures dates.None? <==> Parse(center).None?
    ensures dates == Window(center, radius)
  {
    var parsed := Parse(center);
    if parsed.None? {
      return None;
    }
    var acc := PushTokens(parsed.value.date, radius);
    return Some(acc);
  }

  /** The push loop of `timewindow`, from the parsed centre date on. */
  method PushTokens(c: Date, radius: int) returns (acc: seq<string>)
    requires ValidDate(c)
    ensures acc == Tokens(c, radius)
  {
    acc := [];
    var i := -radius;
    while i < radius + 1
      invariant radius < 0 ==> i == -radius && acc == []
      invariant 0 <= radius ==> -radius <= i <= radius + 1 && |acc| == i + radius
      invariant forall k :: 0 <= k < |acc| ==> acc[k] == FormatCompact(AddDays(c, k - radius))
    {
      acc := acc + [FormatCompact(AddDays(c, i))];
      i := i + 1;
    }
  }

  /** Token `k` of a window denotes the day numbered `c + k - radius`. */
  lemma TokensDenoteDays(c: Date, radius: int, k: int)
    requires ValidDate(c) && 0 <= k < WindowLength(radius)
    ensures var w := Tokens(c, radius);
      |w| == WindowLength(radius)
      && ParseCompact(w[k]).Some? && ValidDate(ParseCompact(w[k]).value)
      && DayNumber(ParseCompact(w[k]).value) == DayNumber(c) + k - radius
  {
    CompactRoundTrip(AddDays(c, k - radius));
    AddDaysNumber(c, k - radius);
  }

  /** A window of radius `r >= 0` holds `2r + 1` tokens and the centre's own token sits at position `r`. */
  lemma TokensCentre(c: Date, radius: int)
    requires ValidDate(c) && 0 <= radius
    ensures var w := Tokens(c, radius); |w| == 2 * radius + 1 && w[radius] == FormatCompact(c)
  {
    assert Tokens(c, radius)[radius] == FormatCompact(AddDays(c, radius - radius));
  }

  /** Each token of a window names the day after the token before it. */
  lemma TokensConsecutive(c: Date, radius: int, k: int)
    requires ValidDate(c) && 0 <= k && k + 1 < WindowLength(radius)
    ensures var w := Tokens(c, radius);
      ParseCompact(w[k]).Some? && ValidDate(ParseCompact(w[k]).value)
      && ParseCompact(w[k + 1]) == Some(NextDay(ParseCompact(w[k]).value))
  {
    var w, a := Tokens(c, radius), AddDays(c, k - radius);
    AddDaysSucc(c, k - radius);
    var b := NextDay(a);
    assert w[k] == FormatCompact(a) && w[k + 1] == FormatCompact(b);
    CompactRoundTrip(a);
    CompactRoundTrip(b);
  }

  /** No two tokens of a window are equal: no daily file is read twice for one period. */
  lemma TokensDistinct(c: Date, radius: int, j: int, k: int)
    requires ValidDate(c) && 0 <= j < k < WindowLength(radius)
    ensures Tokens(c, radius)[j] != Tokens(c, radius)[k]
  {
    TokensDenoteDays(c, radius, j);
    TokensDenoteDays(c, radius, k);
  }

  /** `Duration::num_days` on a span of `d` nanoseconds: whole days, truncated toward zero. */
  function WholeDays(d: int): (n: int)
    ensures 0 <= d ==> 0 <= n
    ensures d <= 0 ==> n <= 0
  {
    if d >= 0 then d / NanosPerDay else -((-d) / NanosPerDay)
  }

  lemma WholeDaysBounds(d: int)
    ensures var n := WholeDays(d);
      (0 <= d ==> 0 <= n && n * NanosPerDay <= d < (n + 1) * NanosPerDay)
      && (d < 0 ==> n <= 0 && (n - 1) * NanosPerDay < d <= n * NanosPerDay)
  {
  }

  /**
   * `t.signed_duration_since(epoch).num_days()`: the signed whole number of days
   * between the two instants, truncated toward zero.
   */
  function DaysSince(epoch: DateTime, t: DateTime): (n: int)
    requires ValidDateTime(epoch) && ValidDateTime(t)
    ensures var d := Instant(t) - Instant(epoch); (0 <= d ==> 0 <= n) && (d <= 0 ==> n <= 0)
  {
    WholeDays(Instant(t) - Instant(epoch))
  }

  /** The day count is the number of whole days between the instants, truncated toward zero. */
  lemma DaysSinceTruncates(epoch: DateTime, t: DateTime)
    requires ValidDateTime(epoch) && ValidDateTime(t)
    ensures var n, d := DaysSince(epoch, t), Instant(t) - Instant(epoch);
      (0 <= d ==> 0 <= n && n * NanosPerDay <= d < (n + 1) * NanosPerDay)
      && (d < 0 ==> n <= 0 && (n - 1) * NanosPerDay < d <= n * NanosPerDay)
  {
    WholeDaysBounds(Instant(t) - Instant(epoch));
  }

  lemma WholeDaysOfMultiple(n: int)
    ensures WholeDays(n * NanosPerDay) == n
  {
    WholeDaysBounds(n * NanosPerDay);
  }

  /** An instant is its day's start plus the time of day. */
  lemma InstantSplit(t: DateTime)
    requires ValidDateTime(t)
    ensures Instant(t) == DayNumber(t.date) * NanosPerDay + ((t.hour * 60 + t.minute) * 60 + t.second) * NanosPerSecond + t.nanos
  {
  }

  /** Between two date-times with the same time of day the count is the difference of their day numbers. */
  lemma DaysSinceSameTime(epoch: DateTime, t: DateTime)
    requires ValidDateTime(epoch) && ValidDateTime(t)
    requires t.hour == epoch.hour && t.minute == epoch.minute && t.second == epoch.second
    requires t.nanos == epoch.nanos
    ensures DaysSince(epoch, t) == DayNumber(t.date) - DayNumber(epoch.date)
  {
    var n := DayNumber(t.date) - DayNumber(epoch.date);
    InstantSplit(t);
    InstantSplit(epoch);
    WholeDaysOfMultiple(n);
  }

  const Epoch: string := "1993-01-01T00:00:00Z"
  const EpochTime: DateTime := DateTime(Date(1993, 1, 1), 0, 0, 0, 0)

  /** The period centres the program is configured with. */
  const Dates93: seq<string> :=
    ["1993-01-10T00:00:00.000Z", "1993-01-17T00:00:00.000Z", "1993-01-24T00:00:00.000Z"]

  /** `DateTime::parse_from_rfc3339(epoch).unwrap()` on the fixed epoch string. */
  method ParseEpoch() returns (epoch: DateTime)
    ensures Parse(Epoch) == Some(epoch) && epoch == EpochTime
  {
    EpochParses();
    epoch := Parse(Epoch).value;
  }

  /** The `timesteps` loop: each date's whole-day offset from the epoch, or `None` when a date does not parse. */
  method TimeSteps(dates: seq<string>) returns (steps: Option<seq<int>>)
    ensures steps.Some? <==> forall i :: 0 <= i < |dates| ==> Parse(dates[i]).Some?
    ensures steps.Some? ==> |steps.value| == |dates|
    ensures steps.Some? ==>
      forall i :: 0 <= i < |dates| ==> steps.value[i] == DaysSince(EpochTime, Parse(dates[i]).value)
  {
    var epoch := ParseEpoch();
    var acc: seq<int> := [];
    ghost var parsed: seq<DateTime> := [];
    for i := 0 to |dates|
      invariant |acc| == i && |parsed| == i
      invariant forall j :: 0 <= j < i ==> ValidDateTime(parsed[j])
      invariant forall j :: 0 <= j < i ==> Parse(dates[j]) == Some(parsed[j])
      invariant forall j :: 0 <= j < i ==> acc[j] == DaysSince(epoch, parsed[j])
    {
      var dt := Parse(dates[i]);
      if dt.None? {
        return None;
      }
      acc := acc + [DaysSince(epoch, dt.value)];
      parsed := parsed + [dt.value];
    }
    return Some(acc);
  }

  lemma DigitsAtChars(s: string, lo: nat, hi: nat)
    requires lo <= hi <= |s| && forall i :: lo <= i < hi ==> IsDigit(s[i])
    ensures DigitsAt(s, lo, hi)
  {
    assert forall j :: 0 <= j < hi - lo ==> s[lo..hi][j] == s[lo + j];
  }

  lemma TwoDigits(s: string, lo: nat)
    requires lo + 2 <= |s| && IsDigit(s[lo]) && IsDigit(s[lo + 1])
    ensures AllDigits(s[lo..lo + 2])
    ensures Value(s[lo..lo + 2]) == 10 * DigitValue(s[lo]) + DigitValue(s[lo + 1])
  {
    var x := s[lo..lo + 2];
    assert x[..1][..0] == [] && x[..1][0] == s[lo] && x[1] == s[lo + 1];
    assert Value(x[..1]) == DigitValue(s[lo]);
    assert Value(x) == Value(x[..1]) * 10 + DigitValue(s[lo + 1]);
  }

  lemma FourDigits(s: string)
    requires 4 <= |s| && IsDigit(s[0]) && IsDigit(s[1]) && IsDigit(s[2]) && IsDigit(s[3])
    ensures AllDigits(s[0..4])
    ensures Value(s[0..4])
         == 1000 * DigitValue(s[0]) + 100 * DigitValue(s[1]) + 10 * DigitValue(s[2]) + DigitValue(s[3])
  {
    var x := s[0..4];
    TwoDigits(s, 0);
    assert x[..3][..2] == s[0..2] && x[..3][2] == s[2] && x[3] == s[3];
  }

  /**
   * A midnight UTC string `YYYY-MM-DDT00:00:00Z` or `YYYY-MM-DDT00:00:00.000Z`,
   * read field by field; used to evaluate the configured dates.
   */
  lemma ParseMidnight(s: string, y: int, m: int, d: int)
    requires |s| == 20 || (|s| == 24 && s[19] == '.')
    requires s[4] == '-' && s[7] == '-' && s[10] == 'T' && s[13] == ':' && s[16] == ':' && s[|s| - 1] == 'Z'
    requires forall i :: 0 <= i < 4 ==> IsDigit(s[i])
    requires IsDigit(s[5]) && IsDigit(s[6]) && IsDigit(s[8]) && IsDigit(s[9])
    requires forall i :: 11 <= i < |s| - 1 && i != 13 && i != 16 && i != 19 ==> s[i] == '0'
    requires y == 1000 * DigitValue(s[0]) + 100 * DigitValue(s[1]) + 10 * DigitValue(s[2]) + DigitValue(s[3])
    requires m == 10 * DigitValue(s[5]) + DigitValue(s[6])
    requires d == 10 * DigitValue(s[8]) + DigitValue(s[9])
    requires ValidDate(Date(y, m, d))
    ensures Parse(s) == Some(DateTime(Date(y, m, d), 0, 0, 0, 0))
  {
    DigitsAtChars(s, 0, 4);
    DigitsAtChars(s, 5, 7);
    DigitsAtChars(s, 8, 10);
    DigitsAtChars(s, 11, 13);
    DigitsAtChars(s, 14, 16);
    DigitsAtChars(s, 17, 19);
    if |s| == 24 {
      DigitsAtChars(s, 20, 23);
    }
    assert WellShaped(s);
    FourDigits(s);
    TwoDigits(s, 5);
    TwoDigits(s, 8);
    TwoDigits(s, 11);
    TwoDigits(s, 14);
    TwoDigits(s, 17);
    if |s| == 24 {
      assert s[20..|s| - 1] == seq(3, _ => '0');
      ValueOfZeros(3);
    }
    assert Nanos(s) == 0;
    assert DigitValue('0') == 0;
    assert Value(s[11..13]) == 0 && Value(s[14..16]) == 0 && Value(s[17..19]) == 0;
  }

  lemma EpochParses()
    ensures Parse(Epoch) == Some(EpochTime)
  {
    ParseMidnight(Epoch, 1993, 1, 1);
  }

  lemma Dates93Parse(i: int)
    requires 0 <= i < 3
    ensures Parse(Dates93[i]) == Some(DateTime(Date(1993, 1, [10, 17, 24][i]), 0, 0, 0, 0))
  {
    ParseMidnight(Dates93[i], 1993, 1, [10, 17, 24][i]);
  }

  /** The configured periods sit 9, 16 and 23 days after 1993-01-01. */
  lemma Dates93Steps()
    ensures forall i :: 0 <= i < |Dates93| ==> Parse(Dates93[i]).Some?
    ensures forall i :: 0 <= i < |Dates93| ==> DaysSince(EpochTime, Parse(Dates93[i]).value) == [9, 16, 23][i]
  {
    forall i | 0 <= i < |Dates93|
      ensures Parse(Dates93[i]).Some? && DaysSince(EpochTime, Parse(Dates93[i]).value) == [9, 16, 23][i]
    {
      Dates93Parse(i);
      DaysSinceSameTime(EpochTime, Parse(Dates93[i]).value);
    }
  }
}
