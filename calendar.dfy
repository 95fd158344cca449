/** Calendar days as the pipeline reads and writes them: CPython's
    `strptime(s, "%Y-%m-%d")`, `date + timedelta(days=1)`,
    `strftime("%Y-%m-%d")` on Linux, and `date.toordinal()`, which is how
    dates are compared with the day an event timestamp falls on. */
module Calendar {
  import opened Wrappers
  import opened Errors

  /** A proleptic Gregorian calendar day. */
  datatype Date = Date(year: int, month: int, day: int)

  const MinYear := 1
  const MaxYear := 9999

  /** `date.toordinal()` of 1970-01-01, the day Unix time 0 falls on. */
  const UnixEpochOrdinal := 719163

  predicate IsLeapYear(y: int) {
    y % 4 == 0 && (y % 100 != 0 || y % 400 == 0)
  }

  function DaysInMonth(y: int, m: int): int {
    if m == 2 then (if IsLeapYear(y) then 29 else 28)
    else if m == 4 || m == 6 || m == 9 || m == 11 then 30
    else 31
  }

  function DaysInYear(y: int): int {
    if IsLeapYear(y) then 366 else 365
  }

  /** The days a `datetime.date` can hold. */
  predicate ValidDate(d: Date) {
    MinYear <= d.year <= MaxYear && 1 <= d.month <= 12 && 1 <= d.day <= DaysInMonth(d.year, d.month)
  }

  /** Days of year `y` before the first of month `m` (13 gives the whole year),
      from a table of cumulative month lengths. */
  function DaysBeforeMonth(y: int, m: int): int
    requires 1 <= m <= 13
  {
    [0, 31, 59, 90, 120, 151, 181, 212, 243, 273, 304, 334, 365][m - 1]
      + (if m > 2 && IsLeapYear(y) then 1 else 0)
  }

  /** Days before January 1st of year `y`, counted from 0001-01-01. */
  function DaysBeforeYear(y: int): int
    requires y >= 1
  {
    var p := y - 1;
    p * 365 + p / 4 - p / 100 + p / 400
  }

  /** `date.toordinal()`: 0001-01-01 is day 1. */
  function Ordinal(d: Date): int
    requires ValidDate(d)
  {
    DaysBeforeYear(d.year) + DaysBeforeMonth(d.year, d.month) + d.day
  }

  lemma MonthTableSteps(y: int, m: int)
    requires 1 <= m <= 12
    ensures DaysBeforeMonth(y, m + 1) == DaysBeforeMonth(y, m) + DaysInMonth(y, m)
  {
  }

  lemma YearSteps(y: int)
    requires y >= 1
    ensures DaysBeforeYear(y + 1) == DaysBeforeYear(y) + DaysInYear(y)
    ensures DaysBeforeMonth(y, 13) == DaysInYear(y)
  {
    var p := y - 1;
    assert p / 4 + (if y % 4 == 0 then 1 else 0) == y / 4;
    assert p / 100 + (if y % 100 == 0 then 1 else 0) == y / 100;
    assert p / 400 + (if y % 400 == 0 then 1 else 0) == y / 400;
  }

  /** The ordinal numbering agrees with the Unix epoch constant. */
  lemma EpochOrdinal()
    ensures ValidDate(Date(1970, 1, 1)) && Ordinal(Date(1970, 1, 1)) == UnixEpochOrdinal
  {
  }

  /** `date + timedelta(days=1)`: None where CPython raises OverflowError. */
  function NextDay(d: Date): (r: Option<Date>)
    requires ValidDate(d)
    ensures r.None? <==> d == Date(MaxYear, 12, 31)
    ensures r.Some? ==> ValidDate(r.value)
  {
    if d.day < DaysInMonth(d.year, d.month) then Some(Date(d.year, d.month, d.day + 1))
    else if d.month < 12 then Some(Date(d.year, d.month + 1, 1))
    else if d.year < MaxYear then Some(Date(d.year + 1, 1, 1))
    else None
  }

  /** The day after is a real day exactly one ordinal later, across month
      and year ends and February 29th; only 9999-12-31 has none. */
  lemma NextDayIsFollowingDay(d: Date)
    requires ValidDate(d)
    ensures NextDay(d).None? <==> d == Date(MaxYear, 12, 31)
    ensures NextDay(d).Some? ==> ValidDate(NextDay(d).value) && Ordinal(NextDay(d).value) == Ordinal(d) + 1
  {
    if d.day == DaysInMonth(d.year, d.month) {
      if d.month < 12 {
        MonthTableSteps(d.year, d.month);
      } else if d.year < MaxYear {
        MonthTableSteps(d.year, 12);
        YearSteps(d.year);
      }
    }
  }

  // ---------------------------------------------------------------------
  // strptime(s, "%Y-%m-%d")

  predicate IsDigit(c: char) {
    '0' <= c <= '9'
  }

  predicate IsNonZeroDigit(c: char) {
    '1' <= c <= '9'
  }

  /** `%Y` matches exactly four digits. */
  predicate IsYearField(f: string) {
    |f| == 4 && IsDigit(f[0]) && IsDigit(f[1]) && IsDigit(f[2]) && IsDigit(f[3])
  }

  /** `%m` matches `1[0-2]|0[1-9]|[1-9]`. */
  predicate IsMonthField(f: string) {
    (|f| == 2 && ((f[0] == '1' && '0' <= f[1] <= '2') || (f[0] == '0' && IsNonZeroDigit(f[1]))))
    || (|f| == 1 && IsNonZeroDigit(f[0]))
  }

  /** `%d` matches `3[01]|[12]\d|0[1-9]|[1-9]| [1-9]`. */
  predicate IsDayField(f: string) {
    (|f| == 2 && ((f[0] == '3' && (f[1] == '0' || f[1] == '1'))
                  || ((f[0] == '1' || f[0] == '2') && IsDigit(f[1]))
                  || ((f[0] == '0' || f[0] == ' ') && IsNonZeroDigit(f[1]))))
    || (|f| == 1 && IsNonZeroDigit(f[0]))
  }

  /** The value `int()` gives a field of digits, a leading blank read as 0. */
  function FieldValue(f: string): int {
    if f == [] then 0
    else FieldValue(f[..|f| - 1]) * 10 + (if IsDigit(f[|f| - 1]) then f[|f| - 1] as int - '0' as int else 0)
  }

  /** Where the month field ends: index 6 or 7 of the text (the `-` after it),
      or None when the text does not match up to and including that dash. */
  function MonthEnd(s: string): (e: Option<nat>)
    ensures e.Some? ==> (e.value == 6 || e.value == 7) && e.value < |s| && s[e.value] == '-'
                        && IsMonthField(s[5..e.value])
  {
    if |s| > 6 && s[6] == '-' && IsMonthField(s[5..6]) then Some(6)
    else if |s| > 7 && s[7] == '-' && IsMonthField(s[5..7]) then Some(7)
    else None
  }

  /** The whole text matches `%Y-%m-%d` with nothing left over. */
  predicate MatchesDateFormat(s: string) {
    |s| > 4 && IsYearField(s[..4]) && s[4] == '-' && MonthEnd(s).Some?
    && IsDayField(s[MonthEnd(s).value + 1..])
  }

  /** `datetime.strptime(s, "%Y-%m-%d")`: a ValueError when the text does not
      match the format or names a day that does not exist (year 0, Feb 30). */
  function ParseDate(s: string): (r: Result<Date, Failure>)
    ensures r.Ok? ==> ValidDate(r.value) && MatchesDateFormat(s)
    ensures r.Err? ==> r.error.kind == DateFormat || r.error.kind == DateRange
  {
    if !MatchesDateFormat(s) then
      Err(Failure(DateFormat, "time data '" + s + "' does not match format '%Y-%m-%d'"))
    else
      var e := MonthEnd(s).value;
      var d := Date(FieldValue(s[..4]), FieldValue(s[5..e]), FieldValue(s[e + 1..]));
      if ValidDate(d) then Ok(d)
      else if d.year < MinYear then Err(Failure(DateRange, "year 0 is out of range"))
      else Err(Failure(DateRange, "day is out of range for month"))
  }

  // ---------------------------------------------------------------------
  // strftime("%Y-%m-%d")

  function DigitChar(n: nat): char
    requires n < 10
  {
    ('0' as int + n) as char
  }

  /** A natural number in decimal, without leading zeros. */
  function Decimal(n: nat): string
  {
    if n < 10 then [DigitChar(n)] else Decimal(n / 10) + [DigitChar(n % 10)]
  }

  function TwoDigits(n: nat): string
    requires n < 100
  {
    [DigitChar(n / 10), DigitChar(n % 10)]
  }

  /** `strftime("%Y-%m-%d")` with glibc, which writes `%Y` without padding to
      four digits (year 999 is "999"). */
  function FormatDate(d: Date): (r: string)
    requires ValidDate(d)
    ensures d.year >= 1000 ==> |r| == 10 && r[4] == '-' && r[7] == '-'
  {
    DecimalWidth(d.year);
    Decimal(d.year) + "-" + TwoDigits(d.month) + "-" + TwoDigits(d.day)
  }

  /** A four-digit year is written with four characters. */
  lemma DecimalWidth(y: nat)
    ensures 1000 <= y <= 9999 ==> |Decimal(y)| == 4
  {
    if 1000 <= y <= 9999 {
      DecimalOfFourDigits(y);
    }
  }

  lemma {:induction false} DecimalOfFourDigits(y: nat)
    requires 1000 <= y <= 9999
    ensures Decimal(y) == [DigitChar(y / 1000), DigitChar(y / 100 % 10), DigitChar(y / 10 % 10), DigitChar(y % 10)]
  {
    assert y / 10 / 10 == y / 100;
    assert y / 100 / 10 == y / 1000;
    assert Decimal(y / 100) == Decimal(y / 1000) + [DigitChar(y / 100 % 10)];
    assert Decimal(y / 10) == Decimal(y / 100) + [DigitChar(y / 10 % 10)];
    assert Decimal(y) == Decimal(y / 10) + [DigitChar(y % 10)];
  }

  lemma FieldValueOfDigits(a: nat, b: nat, c: nat, d: nat)
    requires a < 10 && b < 10 && c < 10 && d < 10
    ensures FieldValue([DigitChar(a)]) == a
    ensures FieldValue([DigitChar(a), DigitChar(b)]) == a * 10 + b
    ensures FieldValue([DigitChar(a), DigitChar(b), DigitChar(c), DigitChar(d)]) == a * 1000 + b * 100 + c * 10 + d
  {
    var s := [DigitChar(a), DigitChar(b), DigitChar(c), DigitChar(d)];
    assert s[..3][..2] == [DigitChar(a), DigitChar(b)];
    assert [DigitChar(a), DigitChar(b)][..1] == [DigitChar(a)];
    assert [DigitChar(a)][..0] == [];
  }

  lemma MonthFieldOf(m: int)
    requires 1 <= m <= 12
    ensures IsMonthField(TwoDigits(m))
  {
  }

  lemma DayFieldOf(d: int)
    requires 1 <= d <= 31
    ensures IsDayField(TwoDigits(d))
  {
  }

  lemma DigitsRecompose(y: int)
    requires 0 <= y <= 9999
    ensures (y / 1000) * 1000 + (y / 100 % 10) * 100 + (y / 10 % 10) * 10 + y % 10 == y
    ensures y < 100 ==> (y / 10) * 10 + y % 10 == y
  {
  }

  /** Reading back a formatted four-digit-year date gives the same day: the
      execution date the dashboard defaults to is always one strptime accepts. */
  lemma {:induction false} FormatThenParse(d: Date)
    requires ValidDate(d) && d.year >= 1000
    ensures ParseDate(FormatDate(d)) == Ok(d)
  {
    var y := d.year;
    var yy := Decimal(y);
    var mm := TwoDigits(d.month);
    var dd := TwoDigits(d.day);
    var s := FormatDate(d);
    assert s == yy + ['-'] + mm + ['-'] + dd && |yy| == 4 by {
      DecimalOfFourDigits(y);
    }
    assert s[..4] == yy && s[4] == '-' && s[5..7] == mm && s[7] == '-' && s[8..] == dd;
    assert IsYearField(yy) && FieldValue(yy) == y by {
      DecimalOfFourDigits(y);
      FieldValueOfDigits(y / 1000, y / 100 % 10, y / 10 % 10, y % 10);
      DigitsRecompose(y);
    }
    assert FieldValue(mm) == d.month && FieldValue(dd) == d.day by {
      FieldValueOfDigits(d.month / 10, d.month % 10, 0, 0);
      FieldValueOfDigits(d.day / 10, d.day % 10, 0, 0);
      DigitsRecompose(d.month);
      DigitsRecompose(d.day);
    }
    MonthFieldOf(d.month);
    DayFieldOf(d.day);
    assert MonthEnd(s) == Some(7);
    assert MatchesDateFormat(s);
  }
}
