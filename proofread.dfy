/**
 * The proofreader: it recomputes one period's mean and observation count for
 * a cell straight from the daily files and reports a cell whose stored values
 * disagree. Its own `timewindow` reads the centre with Python's
 * `datetime.strptime(center, "%Y-%m-%dT%H:%M:%SZ")` and formats days with
 * `strftime("%Y%m%d")`.
 */
module Proofread {
  import opened Wrappers
  import opened Decimal
  import opened Calendar
  import opened Rfc3339
  import opened TimeIndex
  import opened Aggregate

  /** The exceptions the Python `timewindow` can raise. */
  datatype PyError = ValueError | OverflowError

  /**
   * A `%m`, `%H`, `%M` or `%S` field at `i`: one or two ASCII digits, and the
   * index just past them. A longer digit run leaves a digit where the next
   * literal is expected, so the whole match fails there.
   */
  function Field(s: string, i: nat): (r: Option<(nat, nat)>)
    ensures r.Some? ==> i < r.value.1 <= i + 2 && r.value.1 <= |s| && r.value.0 < 100
  {
    if i + 1 < |s| && IsDigit(s[i]) && IsDigit(s[i + 1]) then
      assert AllDigits(s[i..i + 2]);
      ValueBound(s[i..i + 2]);
      Some((Value(s[i..i + 2]), i + 2))
    else if i < |s| && IsDigit(s[i]) then Some((DigitValue(s[i]), i + 1))
    else None
  }

  /** A `%d` field at `i`: like `Field`, or a space followed by one digit 1-9. */
  function DayField(s: string, i: nat): (r: Option<(nat, nat)>)
    ensures r.Some? ==> i < r.value.1 <= i + 2 && r.value.1 <= |s| && r.value.0 < 100
  {
    if i + 1 < |s| && s[i] == ' ' && '1' <= s[i + 1] <= '9' then Some((DigitValue(s[i + 1]), i + 2))
    else Field(s, i)
  }

  /** A literal of the format, matched ignoring case. */
  predicate LiteralAt(s: string, i: nat, lower: char, upper: char) {
    i < |s| && (s[i] == lower || s[i] == upper)
  }

  /**
   * `datetime.strptime(s, "%Y-%m-%dT%H:%M:%SZ")`: four year digits, the
   * other fields one or two digits, `T` and `Z` in either case, nothing
   * after the `Z`; then the fields must form a real date and time with a
   * year from 1. `None` is the `ValueError`.
   */
  function PyParse(s: string): (r: Option<DateTime>)
    ensures r.Some? ==> ValidDateTime(r.value) && 1 <= r.value.date.year <= 9999 && r.value.nanos == 0
  {
    if |s| < 5 || !AllDigits(s[..4]) || s[4] != '-' then None
    else
      ValueBound(s[..4]);
      var year := Value(s[..4]);
      match Field(s, 5)
      case None => None
      case Some(month) =>
        if !LiteralAt(s, month.1, '-', '-') then None
        else match DayField(s, month.1 + 1)
        case None => None
        case Some(day) =>
          if !LiteralAt(s, day.1, 't', 'T') then None
          else match Field(s, day.1 + 1)
          case None => None
          case Some(hour) =>
            if !LiteralAt(s, hour.1, ':', ':') then None
            else match Field(s, hour.1 + 1)
            case None => None
            case Some(minute) =>
              if !LiteralAt(s, minute.1, ':', ':') then None
              else match Field(s, minute.1 + 1)
              case None => None
              case Some(second) =>
                if !LiteralAt(s, second.1, 'z', 'Z') || second.1 + 1 != |s| then None
                else
                  var t := DateTime(Date(year, month.0, day.0), hour.0, minute.0, second.0, 0);
                  if 1 <= year && ValidDateTime(t) then Some(t) else None
  }

  /** The days a Python `datetime` can hold. */
  predicate InPyRange(d: Date) {
    1 <= d.year <= 9999
  }

  /** Day `k` of the window of radius `radius` around `c` is one Python can hold. */
  predicate DayInRange(c: Date, radius: int, k: int)
    requires ValidDate(c)
  {
    InPyRange(AddDays(c, k - radius))
  }

  /**
   * The value of the Python `timewindow(center, radius)`: the same tokens as
   * the Rust one, a `ValueError` when the centre does not match the format,
   * and an `OverflowError` when a day of the window leaves years 1..9999.
   */
  function PyWindow(center: string, radius: int): Result<seq<string>, PyError> {
    match PyParse(center)
    case None => Err(ValueError)
    case Some(t) => PyDays(t.date, radius)
  }

  /** The window around a parsed centre: its tokens, or an `OverflowError` when one of its days leaves years 1..9999. */
  function PyDays(c: Date, radius: int): Result<seq<string>, PyError>
    requires ValidDate(c)
  {
    if exists k :: 0 <= k < WindowLength(radius) && !DayInRange(c, radius, k) then Err(OverflowError)
    else Ok(Tokens(c, radius))
  }

  /** The Python `timewindow`: parse, then list the window's days. */
  method PyTimeWindow(center: string, radius: int) returns (r: Result<seq<string>, PyError>)
    ensures r == PyWindow(center, radius)
  {
    var parsed := PyParse(center);
    if parsed.None? {
      return Err(ValueError);
    }
    r := PyDayLoop(parsed.value.date, radius);
  }

  /** The loop of the Python `timewindow`: append one token per offset `-radius ..= radius`. */
  method PyDayLoop(c: Date, radius: int) returns (r: Result<seq<string>, PyError>)
    requires ValidDate(c)
    ensures r == PyDays(c, radius)
  {
    var datestrings: seq<string> := [];
    var i := -radius;
    while i < radius + 1
      invariant radius < 0 ==> i == -radius && datestrings == []
      invariant 0 <= radius ==> -radius <= i <= radius + 1 && |datestrings| == i + radius
      invariant forall k :: 0 <= k < |datestrings| ==> DayInRange(c, radius, k)
      invariant forall k :: 0 <= k < |datestrings| ==> datestrings[k] == FormatCompact(AddDays(c, k - radius))
    {
      var d := AddDays(c, i);
      if !InPyRange(d) {
        assert !DayInRange(c, radius, i + radius);
        return Err(OverflowError);
      }
      datestrings := datestrings + [FormatCompact(d)];
      i := i + 1;
    }
    assert datestrings == Tokens(c, radius);
    return Ok(datestrings);
  }

  /**
   * On a fraction-free `...Z` string of a year from 1, Python's reader and
   * chrono's agree: same acceptance, same date and time.
   */
  lemma SharedForm(s: string)
    requires |s| == 20 && Parse(s).Some? && 1 <= Parse(s).value.date.year
    ensures PyParse(s) == Parse(s)
  {
    assert WellShaped(s);
    DigitPair(s, 5);
    DigitPair(s, 8);
    DigitPair(s, 11);
    DigitPair(s, 14);
    DigitPair(s, 17);
    assert s[..4] == s[0..4];
  }

  lemma DigitPair(s: string, i: nat)
    requires i + 2 <= |s| && DigitsAt(s, i, i + 2)
    ensures Field(s, i) == Some((Value(s[i..i + 2]), i + 2))
    ensures s[i] != ' ' ==> DayField(s, i) == Field(s, i)
  {
    assert s[i..i + 2][0] == s[i] && s[i..i + 2][1] == s[i + 1];
  }

  /**
   * A centre with a fraction of a second, like the configured `.000Z`
   * dates, is refused by Python's reader: the `.` stands where `Z` must be.
   */
  lemma FractionRefused(s: string)
    requires WellShaped(s) && 20 < |s|
    ensures PyParse(s).None?
  {
    DigitPair(s, 5);
    DigitPair(s, 8);
    DigitPair(s, 11);
    DigitPair(s, 14);
    DigitPair(s, 17);
  }

  /**
   * The centres in the form `timewindow`'s own comment gives, such as the
   * configured `.000Z` dates, make the Python `timewindow` fail with a
   * `ValueError`.
   */
  lemma ConfiguredCentresRefused(i: int)
    requires 0 <= i < |Dates93|
    ensures PyWindow(Dates93[i], Radius) == Err(ValueError)
  {
    Dates93Parse(i);
    FractionRefused(Dates93[i]);
  }

  /** The reference re-computation of one cell: total and count of the non-fill raw values, file by file. */
  method ReferenceCell(samples: seq<int>) returns (total: real, nobs: int)
    ensures total == Scale * Total(samples) as real
    ensures nobs == Count(samples)
  {
    total, nobs := 0.0, 0;
    for f := 0 to |samples|
      invariant total == Scale * Total(samples[..f]) as real
      invariant nobs == Count(samples[..f])
    {
      var meas := samples[f];
      LoadStep(samples[..f], meas);
      assert samples[..f + 1] == samples[..f] + [meas];
      if meas != Fill {
        total := total + meas as real * Scale;
        nobs := nobs + 1;
      }
    }
    assert samples[..|samples|] == samples;
  }

  /** What one comparison of the proofreader ends in. */
  datatype Verdict = Pass | Reported | ZeroDivision

  /**
   * The comparison: a stored sentinel is skipped; otherwise the recomputed
   * mean `total / nobs` (a `ZeroDivisionError` when `nobs` is 0) and the
   * count must equal the stored ones, else the cell is reported.
   */
  function Check(storedMean: real, storedNobs: int, total: real, nobs: int): (v: Verdict)
    ensures v == ZeroDivision <==> storedMean != Sentinel && nobs == 0
    ensures v == Pass <==> storedMean == Sentinel || (nobs != 0 && total / nobs as real == storedMean && nobs == storedNobs)
  {
    if storedMean == Sentinel then Pass
    else if nobs == 0 then ZeroDivision
    else if total / nobs as real != storedMean || nobs != storedNobs then Reported
    else Pass
  }

  /**
   * The proofreader never reports, and never divides by zero on, a cell the
   * aggregation wrote: a stored sentinel is skipped, and any other stored
   * mean has a positive count and equals the recomputed `total / nobs`.
   */
  lemma OutputPassesCheck(xs: seq<int>)
    ensures Check(CellMean(xs), Count(xs), Scale * Total(xs) as real, Count(xs)) == Pass
  {
  }

  /** A stored value other than the sentinel always comes with a positive count. */
  lemma StoredMeanHasSamples(xs: seq<int>)
    requires CellMean(xs) != Sentinel
    ensures Count(xs) > 0
    ensures exists k :: 0 <= k < |xs| && xs[k] != Fill
  {
    NoValidSamples(xs);
  }

  /**
   * The converse does not hold: one real raw value of -9999000 scales to
   * exactly -999.9, so its cell is stored as the sentinel with one
   * observation, and the proofreader skips it.
   */
  lemma SampledCellStoresSentinel()
    ensures Count([-9999000]) == 1 && CellMean([-9999000]) == Sentinel
    ensures Check(CellMean([-9999000]), Count([-9999000]), Scale * Total([-9999000]) as real, Count([-9999000])) == Pass
  {
    assert [-9999000][..0] == [];
  }

  /**
   * As written, the raw pair -19997, -9979003 sums to exactly -999.9 (in
   * f64 as well): the cell keeps the sentinel with two observations, the
   * finalisation leaves it as -999.9, and the proofreader skips it, where
   * the mean is -499.95.
   */
  lemma AsWrittenSkipped()
    ensures AsWrittenLoad([-19997, -9979003]) == (Sentinel, 2)
    ensures AsWrittenFinalised(Sentinel, 2) == Sentinel
    ensures Check(Sentinel, 2, Scale * Total([-19997, -9979003]) as real, Count([-19997, -9979003])) == Pass
    ensures Count([-19997, -9979003]) == 2 && CellMean([-19997, -9979003]) == -499.95
  {
    var xs := [-19997, -9979003];
    assert xs[..1] == [-19997] && [-19997][..0] == [];
    assert AsWrittenLoad([-19997]) == (-1.9997, 1);
    assert Count([-19997]) == 1 && Total([-19997]) == -19997;
  }

  /**
   * The program as written fails the proofreader on the cell of
   * `SentinelCollision`: the stored mean 0.0005 is not the recomputed
   * -499.9495.
   */
  lemma AsWrittenReported()
    ensures var stored := AsWrittenLoad([-9999000, 10]);
      Check(AsWrittenFinalised(stored.0, stored.1), stored.1, Scale * Total([-9999000, 10]) as real, Count([-9999000, 10]))
      == Reported
  {
    SentinelCollision();
    assert [-9999000, 10][..1] == [-9999000] && [-9999000][..0] == [];
  }

  /** The centre the proofreader checks, and the period index it pairs it with. */
  const Centre: string := "1993-01-17T00:00:00Z"
  const TimeIdx: nat := 1

  /** Within one month, shifting by `n` days changes only the day of the month. */
  lemma {:induction false} ShiftInMonth(d: Date, n: int)
    requires ValidDate(d) && 1 <= d.day + n <= DaysInMonth(d.year, d.month)
    ensures AddDays(d, n) == Date(d.year, d.month, d.day + n)
    decreases if n < 0 then -n else n
  {
    if n > 0 {
      ShiftInMonth(NextDay(d), n - 1);
    } else if n < 0 {
      ShiftInMonth(PrevDay(d), n + 1);
    }
  }

  /** The proofreader's centre reads as 17 January 1993, midnight. */
  lemma CentreParses()
    ensures PyParse(Centre) == Some(DateTime(Date(1993, 1, 17), 0, 0, 0, 0))
  {
    ParseMidnight(Centre, 1993, 1, 17);
    SharedForm(Centre);
  }

  /**
   * The proofreader's files are the files of period 1: its centre reads as
   * the configured `dates93[1]` does, and both windows list 14 to 20
   * January 1993.
   */
  lemma ProofreadPairing()
    ensures PyParse(Centre) == Some(DateTime(Date(1993, 1, 17), 0, 0, 0, 0))
    ensures Window(Dates93[TimeIdx], Radius).Some?
    ensures PyWindow(Centre, Radius) == Ok(Window(Dates93[TimeIdx], Radius).value)
    ensures forall k :: 0 <= k < 7 ==> Window(Dates93[TimeIdx], Radius).value[k] == FormatCompact(Date(1993, 1, 14 + k))
  {
    CentreParses();
    Dates93Parse(TimeIdx);
    var c := Date(1993, 1, 17);
    assert PyWindow(Centre, Radius) == PyDays(c, Radius);
    assert Window(Dates93[TimeIdx], Radius) == Some(Tokens(c, Radius));
    MidJanuaryWindow();
  }

  /** The window of radius 3 around 17 January 1993 is 14 to 20 January, all days Python can hold. */
  lemma MidJanuaryWindow()
    ensures PyDays(Date(1993, 1, 17), Radius) == Ok(Tokens(Date(1993, 1, 17), Radius))
    ensures forall k :: 0 <= k < 7 ==> Tokens(Date(1993, 1, 17), Radius)[k] == FormatCompact(Date(1993, 1, 14 + k))
  {
    var c := Date(1993, 1, 17);
    forall k | 0 <= k < WindowLength(Radius)
      ensures DayInRange(c, Radius, k) && Tokens(c, Radius)[k] == FormatCompact(Date(1993, 1, 14 + k))
    {
      ShiftInMonth(c, k - Radius);
    }
  }

  lemma PeriodSamplesOf(source: Source, period: string, files: seq<string>, lat: nat, lon: nat)
    requires Window(period, Radius) == Some(files)
    ensures PeriodSamples(source, period, lat, lon) == Samples(source, files, lat, lon)
  {
  }

  /** Recomputing a cell of a period over the period's own files passes the check. */
  lemma PeriodPasses(source: Source, period: string, files: seq<string>, lat: nat, lon: nat)
    requires Window(period, Radius) == Some(files)
    ensures Check(CellMean(PeriodSamples(source, period, lat, lon)), Count(PeriodSamples(source, period, lat, lon)),
                  Scale * Total(Samples(source, files, lat, lon)) as real, Count(Samples(source, files, lat, lon)))
         == Pass
  {
    PeriodSamplesOf(source, period, files, lat, lon);
    OutputPassesCheck(Samples(source, files, lat, lon));
  }

  /**
   * The whole comparison for a period whose window the proofreader
   * reproduces (period 1, by `ProofreadPairing`): for every cell, the
   * recomputation over the proofreader's own files agrees with what the
   * aggregation stores.
   */
  lemma PairedPeriodPasses(source: Source, period: string, centre: string, files: seq<string>, lat: nat, lon: nat)
    requires Window(period, Radius) == Some(files) && PyWindow(centre, Radius) == Ok(files)
    ensures Check(CellMean(PeriodSamples(source, period, lat, lon)), Count(PeriodSamples(source, period, lat, lon)),
                  Scale * Total(Samples(source, files, lat, lon)) as real, Count(Samples(source, files, lat, lon)))
         == Pass
  {
    PeriodPasses(source, period, files, lat, lon);
  }
}
