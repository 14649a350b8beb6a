/**
 * Proleptic Gregorian calendar dates, the day arithmetic that chrono's
 * `DateTime + Duration::days(i)` and Python's `datetime + timedelta(days=i)`
 * perform on the date part, and the compact `yyyymmdd` token both programs
 * print for a date.
 */
module Calendar {
  import opened Wrappers
  import opened Decimal

  datatype Date = Date(year: int, month: int, day: int)

  predicate IsLeapYear(y: int) {
    y % 4 == 0 && (y % 100 != 0 || y % 400 == 0)
  }

  function DaysInMonth(y: int, m: int): (n: int)
    requires 1 <= m <= 12
    ensures 28 <= n <= 31
  {
    if m == 2 then (if IsLeapYear(y) then 29 else 28)
    else if m == 4 || m == 6 || m == 9 || m == 11 then 30
    else 31
  }

  predicate ValidDate(d: Date) {
    1 <= d.month <= 12 && 1 <= d.day <= DaysInMonth(d.year, d.month)
  }

  /** The ceiling of `a / k` (Dafny's `/` rounds down for a positive divisor). */
  function CeilDiv(a: int, k: int): int
    requires 0 < k
  {
    -((-a) / k)
  }

  /** Days from 0000-01-01 to the first day of year `y` (negative before year 0). */
  function DaysBeforeYear(y: int): int {
    365 * y + CeilDiv(y, 4) - CeilDiv(y, 100) + CeilDiv(y, 400)
  }

  /** Days from the first of January of year `y` to the first day of month `m`. */
  function DaysBeforeMonth(y: int, m: int): int
    requires 1 <= m <= 12
  {
    [0, 31, 59, 90, 120, 151, 181, 212, 243, 273, 304, 334][m - 1]
    + (if m > 2 && IsLeapYear(y) then 1 else 0)
  }

  /** Serial day number of a date; 0000-01-01 is day 0. */
  function DayNumber(d: Date): int
    requires ValidDate(d)
  {
    DaysBeforeYear(d.year) + DaysBeforeMonth(d.year, d.month) + d.day - 1
  }

  /** The calendar day after `d`. */
  function NextDay(d: Date): (r: Date)
    requires ValidDate(d)
    ensures ValidDate(r)
  {
    if d.day < DaysInMonth(d.year, d.month) then Date(d.year, d.month, d.day + 1)
    else if d.month < 12 then Date(d.year, d.month + 1, 1)
    else Date(d.year + 1, 1, 1)
  }

  /** The calendar day before `d`. */
  function PrevDay(d: Date): (r: Date)
    requires ValidDate(d)
    ensures ValidDate(r)
  {
    if d.day > 1 then Date(d.year, d.month, d.day - 1)
    else if d.month > 1 then Date(d.year, d.month - 1, DaysInMonth(d.year, d.month - 1))
    else Date(d.year - 1, 12, 31)
  }

  /** `d` shifted by `n` days, forwards for positive `n` and backwards for negative `n`. */
  function AddDays(d: Date, n: int): (r: Date)
    requires ValidDate(d)
    ensures ValidDate(r)
    decreases if n < 0 then -n else n
  {
    if n == 0 then d
    else if n > 0 then AddDays(NextDay(d), n - 1)
    else AddDays(PrevDay(d), n + 1)
  }

  lemma CeilDivStep4(a: int)
    ensures CeilDiv(a + 1, 4) - CeilDiv(a, 4) == if a % 4 == 0 then 1 else 0
  {
    var q, r := (-a) / 4, (-a) % 4;
    if r == 0 {
      assert (-a - 1) / 4 == q - 1;
    } else {
      assert (-a - 1) / 4 == q;
    }
  }

  lemma CeilDivStep100(a: int)
    ensures CeilDiv(a + 1, 100) - CeilDiv(a, 100) == if a % 100 == 0 then 1 else 0
  {
    var q, r := (-a) / 100, (-a) % 100;
    if r == 0 {
      assert (-a - 1) / 100 == q - 1;
    } else {
      assert (-a - 1) / 100 == q;
    }
  }

  lemma CeilDivStep400(a: int)
    ensures CeilDiv(a + 1, 400) - CeilDiv(a, 400) == if a % 400 == 0 then 1 else 0
  {
    var q, r := (-a) / 400, (-a) % 400;
    if r == 0 {
      assert (-a - 1) / 400 == q - 1;
    } else {
      assert (-a - 1) / 400 == q;
    }
  }

  /** Every fourth century year is a century year, and every century year is a fourth year. */
  lemma DivisibilityChain(y: int)
    ensures y % 400 == 0 ==> y % 100 == 0
    ensures y % 100 == 0 ==> y % 4 == 0
  {
    if y % 400 == 0 {
      var q := y / 400;
      assert y == 100 * (4 * q);
    }
    if y % 100 == 0 {
      var q := y / 100;
      assert y == 4 * (25 * q);
    }
  }

  /** Consecutive years are 365 days apart, 366 after a leap year. */
  lemma YearLength(y: int)
    ensures DaysBeforeYear(y + 1) - DaysBeforeYear(y) == if IsLeapYear(y) then 366 else 365
  {
    CeilDivStep4(y);
    CeilDivStep100(y);
    CeilDivStep400(y);
    DivisibilityChain(y);
    assert DaysBeforeYear(y + 1) - DaysBeforeYear(y)
        == 365 + (CeilDiv(y + 1, 4) - CeilDiv(y, 4)) - (CeilDiv(y + 1, 100) - CeilDiv(y, 100))
           + (CeilDiv(y + 1, 400) - CeilDiv(y, 400));
  }

  lemma {:induction false} NextDayNumber(d: Date)
    requires ValidDate(d)
    ensures DayNumber(NextDay(d)) == DayNumber(d) + 1
  {
    if d.day == DaysInMonth(d.year, d.month) && d.month == 12 {
      YearLength(d.year);
    }
  }

  lemma {:induction false} NextOfPrev(d: Date)
    requires ValidDate(d)
    ensures NextDay(PrevDay(d)) == d
  {
  }

  lemma {:induction false} PrevDayNumber(d: Date)
    requires ValidDate(d)
    ensures DayNumber(PrevDay(d)) == DayNumber(d) - 1
  {
    NextDayNumber(PrevDay(d));
    NextOfPrev(d);
  }

  /** Shifting by `n` days moves the serial day number by exactly `n`. */
  lemma {:induction false} AddDaysNumber(d: Date, n: int)
    requires ValidDate(d)
    ensures DayNumber(AddDays(d, n)) == DayNumber(d) + n
    decreases if n < 0 then -n else n
  {
    if n > 0 {
      NextDayNumber(d);
      AddDaysNumber(NextDay(d), n - 1);
    } else if n < 0 {
      PrevDayNumber(d);
      AddDaysNumber(PrevDay(d), n + 1);
    }
  }

  /** Shifting by `n + 1` days is the day after shifting by `n` days. */
  lemma {:induction false} AddDaysSucc(d: Date, n: int)
    requires ValidDate(d)
    ensures AddDays(d, n + 1) == NextDay(AddDays(d, n))
    decreases if n < 0 then -n else n
  {
    if n > 0 {
      AddDaysSucc(NextDay(d), n - 1);
    } else if n == -1 {
      NextOfPrev(d);
    } else if n < -1 {
      AddDaysSucc(PrevDay(d), n + 1);
    }
  }

  /** The compact token `yyyymmdd`: unpadded year, two-digit month and day. */
  function FormatCompact(d: Date): (s: string)
    requires ValidDate(d)
    ensures 5 <= |s| && AllDigits(s[|s| - 4..])
  {
    Signed(d.year) + Fixed(d.month, 2) + Fixed(d.day, 2)
  }

  /** Reads a compact `yyyymmdd` token back into its date fields. */
  function ParseCompact(s: string): Option<Date> {
    if |s| < 5 then None
    else
      var y := ParseSigned(s[..|s| - 4]);
      var mm, dd := s[|s| - 4..|s| - 2], s[|s| - 2..];
      if y.Some? && AllDigits(mm) && AllDigits(dd) then Some(Date(y.value, Value(mm), Value(dd)))
      else None
  }

  lemma CompactRoundTrip(d: Date)
    requires ValidDate(d)
    ensures ParseCompact(FormatCompact(d)) == Some(d)
  {
    var y, mm, dd := Signed(d.year), Fixed(d.month, 2), Fixed(d.day, 2);
    var s := y + mm + dd;
    assert s[..|s| - 4] == y;
    assert s[|s| - 4..|s| - 2] == mm;
    assert s[|s| - 2..] == dd;
    SignedRoundTrip(d.year);
    FixedRoundTrip(d.month, 2);
    FixedRoundTrip(d.day, 2);
  }

  /** Distinct dates print as distinct tokens. */
  lemma CompactInjective(a: Date, b: Date)
    requires ValidDate(a) && ValidDate(b) && FormatCompact(a) == FormatCompact(b)
    ensures a == b
  {
    CompactRoundTrip(a);
    CompactRoundTrip(b);
  }
}
