/**
 * The part of Python's datetime that the two temporal encoders use:
 * datetime.strptime with the format "%Y-%m-%d %H:%M:%S", the proleptic
 * Gregorian day ordinal (date.toordinal), weekday() and the day count of a
 * datetime difference.
 */
module Calendar {
  import opened Wrappers

  datatype DateTime = DateTime(year: int, month: int, day: int, hour: int, minute: int, second: int)

  predicate IsLeapYear(y: int) {
    y % 4 == 0 && (y % 100 != 0 || y % 400 == 0)
  }

  function DaysInYear(y: int): int {
    if IsLeapYear(y) then 366 else 365
  }

  function DaysInMonth(y: int, m: int): (r: int)
    requires 1 <= m <= 12
    ensures 28 <= r <= 31
  {
    if m == 2 then (if IsLeapYear(y) then 29 else 28)
    else if m == 4 || m == 6 || m == 9 || m == 11 then 30
    else 31
  }

  /** The values datetime accepts: year in 1..9999 and every field in its range. */
  predicate Valid(dt: DateTime) {
    && 1 <= dt.year <= 9999
    && 1 <= dt.month <= 12
    && 1 <= dt.day <= DaysInMonth(dt.year, dt.month)
    && 0 <= dt.hour <= 23
    && 0 <= dt.minute <= 59
    && 0 <= dt.second <= 59
  }

  // ---------------------------------------------------------------------------
  // Day ordinals, as CPython's datetime module computes them

  /** Days in the years before y (CPython's _days_before_year). */
  function DaysBeforeYear(y: int): int
    requires y >= 1
  {
    var p := y - 1;
    p * 365 + p / 4 - p / 100 + p / 400
  }

  /** Days in the months of year y before month m (CPython's _days_before_month). */
  function DaysBeforeMonth(y: int, m: int): int
    requires 1 <= m <= 12
  {
    [0, 31, 59, 90, 120, 151, 181, 212, 243, 273, 304, 334][m - 1]
    + (if m > 2 && IsLeapYear(y) then 1 else 0)
  }

  /** date.toordinal(): 0001-01-01 is day 1. */
  function Ordinal(dt: DateTime): int
    requires Valid(dt)
  {
    DaysBeforeYear(dt.year) + DaysBeforeMonth(dt.year, dt.month) + dt.day
  }

  /** Seconds since midnight. */
  function SecondOfDay(dt: DateTime): (r: int)
    requires Valid(dt)
    ensures 0 <= r < 86400
  {
    dt.hour * 3600 + dt.minute * 60 + dt.second
  }

  /** The weekday of a day ordinal: Monday is 0 and Sunday is 6. */
  function DayOfWeek(ordinal: int): (r: int)
    ensures 0 <= r <= 6
  {
    (ordinal + 6) % 7
  }

  /** date.weekday(). */
  function Weekday(dt: DateTime): (r: int)
    requires Valid(dt)
    ensures 0 <= r <= 6
  {
    DayOfWeek(Ordinal(dt))
  }

  /** (later - earlier).total_seconds() for two datetimes. */
  function SecondsBetween(earlier: DateTime, later: DateTime): int
    requires Valid(earlier) && Valid(later)
  {
    (Ordinal(later) - Ordinal(earlier)) * 86400 + (SecondOfDay(later) - SecondOfDay(earlier))
  }

  /** (later - earlier).days: timedelta normalises so that the day count is the
      floor of the seconds over 86400 and the remaining seconds lie in 0..86399. */
  function DaysBetween(earlier: DateTime, later: DateTime): (r: int)
    requires Valid(earlier) && Valid(later)
    ensures r * 86400 <= SecondsBetween(earlier, later) < r * 86400 + 86400
  {
    SecondsBetween(earlier, later) / 86400
  }

  // ---------------------------------------------------------------------------
  // Reference definitions of the ordinal: count the days one year and one
  // month at a time.

  function CountDaysBeforeYear(y: int): int
    requires y >= 1
    decreases y
  {
    if y == 1 then 0 else CountDaysBeforeYear(y - 1) + DaysInYear(y - 1)
  }

  function CountDaysBeforeMonth(y: int, m: int): int
    requires 1 <= m <= 12
    decreases m
  {
    if m == 1 then 0 else CountDaysBeforeMonth(y, m - 1) + DaysInMonth(y, m - 1)
  }

  lemma YearStep(p: int)
    requires p >= 0
    ensures DaysBeforeYear(p + 2) == DaysBeforeYear(p + 1) + DaysInYear(p + 1)
  {
    var q := p + 1;
    assert q / 4 == p / 4 + (if q % 4 == 0 then 1 else 0);
    assert q / 100 == p / 100 + (if q % 100 == 0 then 1 else 0);
    assert q / 400 == p / 400 + (if q % 400 == 0 then 1 else 0);
  }

  /** The closed form of the days before a year counts every earlier year's
      length, leap years with 366 days. */
  lemma {:induction false} DaysBeforeYearCounts(y: int)
    requires y >= 1
    ensures DaysBeforeYear(y) == CountDaysBeforeYear(y)
    decreases y
  {
    if y > 1 {
      DaysBeforeYearCounts(y - 1);
      YearStep(y - 2);
    }
  }

  /** The cumulative month table agrees with summing the month lengths. */
  lemma {:induction false} DaysBeforeMonthCounts(y: int, m: int)
    requires 1 <= m <= 12
    ensures DaysBeforeMonth(y, m) == CountDaysBeforeMonth(y, m)
    decreases m
  {
    if m > 1 {
      DaysBeforeMonthCounts(y, m - 1);
    }
  }

  /** The next calendar day at the same time of day. */
  function NextDay(dt: DateTime): (r: DateTime)
    requires Valid(dt) && (dt.year < 9999 || dt.month < 12 || dt.day < 31)
    ensures Valid(r)
  {
    if dt.day < DaysInMonth(dt.year, dt.month) then dt.(day := dt.day + 1)
    else if dt.month < 12 then dt.(month := dt.month + 1, day := 1)
    else dt.(year := dt.year + 1, month := 1, day := 1)
  }

  /** Consecutive days have consecutive ordinals, across month and year ends. */
  lemma NextDayOrdinal(dt: DateTime)
    requires Valid(dt) && (dt.year < 9999 || dt.month < 12 || dt.day < 31)
    ensures Ordinal(NextDay(dt)) == Ordinal(dt) + 1
  {
    if dt.day == DaysInMonth(dt.year, dt.month) {
      if dt.month < 12 {
        DaysBeforeMonthCounts(dt.year, dt.month);
        DaysBeforeMonthCounts(dt.year, dt.month + 1);
      } else {
        YearStep(dt.year - 1);
      }
    }
  }

  /** The weekday advances by one each day and wraps from Sunday to Monday. */
  lemma NextDayWeekday(dt: DateTime)
    requires Valid(dt) && (dt.year < 9999 || dt.month < 12 || dt.day < 31)
    ensures Weekday(NextDay(dt)) == (Weekday(dt) + 1) % 7
  {
    NextDayOrdinal(dt);
    DayOfWeekStep(Ordinal(dt));
  }

  lemma DayOfWeekStep(o: int)
    ensures DayOfWeek(o + 1) == (DayOfWeek(o) + 1) % 7
  {
  }

  /** The calendar starts on a Monday: 0001-01-01 has ordinal 1 and weekday 0. */
  lemma FirstDay()
    ensures Ordinal(DateTime(1, 1, 1, 0, 0, 0)) == 1
    ensures Weekday(DateTime(1, 1, 1, 0, 0, 0)) == 0
  {
    assert DaysBeforeYear(1) == 0;
    assert DaysBeforeMonth(1, 1) == 0;
    assert DayOfWeek(1) == 0;
  }

  // ---------------------------------------------------------------------------
  // strptime(text, "%Y-%m-%d %H:%M:%S") on the strict two-digit form

  predicate IsDigit(c: char) { '0' <= c <= '9' }

  function DigitChar(n: int): (c: char)
    requires 0 <= n <= 9
    ensures IsDigit(c)
  {
    ('0' as int + n) as char
  }

  /** The number a run of decimal digits spells. */
  function DigitsValue(s: string): (n: nat)
    requires forall i :: 0 <= i < |s| ==> IsDigit(s[i])
    decreases |s|
  {
    if s == [] then 0
    else
      assert IsDigit(s[|s| - 1]);
      DigitsValue(s[..|s| - 1]) * 10 + (s[|s| - 1] as int - '0' as int)
  }

  function Pow10(w: nat): (r: nat)
    ensures r >= 1
  {
    if w == 0 then 1 else 10 * Pow10(w - 1)
  }

  /** The w-digit zero-padded decimal form of n (strftime's %04d / %02d). */
  function Digits(n: nat, w: nat): (s: string)
    ensures |s| == w
    ensures forall i :: 0 <= i < |s| ==> IsDigit(s[i])
    decreases w
  {
    if w == 0 then [] else Digits(n / 10, w - 1) + [DigitChar(n % 10)]
  }

  lemma {:induction false} DigitsRoundTrip(n: nat, w: nat)
    requires n < Pow10(w)
    ensures DigitsValue(Digits(n, w)) == n
    decreases w
  {
    if w > 0 {
      var s := Digits(n, w);
      assert s[..|s| - 1] == Digits(n / 10, w - 1);
      DigitsRoundTrip(n / 10, w - 1);
    }
  }

  lemma {:induction false} DigitsValueRoundTrip(s: string)
    requires forall i :: 0 <= i < |s| ==> IsDigit(s[i])
    ensures DigitsValue(s) < Pow10(|s|)
    ensures Digits(DigitsValue(s), |s|) == s
    decreases |s|
  {
    if s != [] {
      var init := s[..|s| - 1];
      DigitsValueRoundTrip(init);
      var n := DigitsValue(s);
      var d := s[|s| - 1] as int - '0' as int;
      assert n / 10 == DigitsValue(init) && n % 10 == d;
      assert s == init + [s[|s| - 1]];
    }
  }

  /** The text has the shape "dddd-dd-dd dd:dd:dd". */
  predicate HasShape(s: string) {
    && |s| == 19
    && s[4] == '-' && s[7] == '-' && s[10] == ' ' && s[13] == ':' && s[16] == ':'
    && forall i :: 0 <= i < 19 && i !in {4, 7, 10, 13, 16} ==> IsDigit(s[i])
  }

  /** The six fields of a text of the right shape, before any range check. */
  function Fields(s: string): DateTime
    requires HasShape(s)
  {
    DateTime(DigitsValue(s[0..4]), DigitsValue(s[5..7]), DigitsValue(s[8..10]),
             DigitsValue(s[11..13]), DigitsValue(s[14..16]), DigitsValue(s[17..19]))
  }

  /** The ranges strptime's field patterns admit for two-digit fields: month
      01-12, day 01-31, hour 00-23, minute 00-59, second 00-61. A field
      outside them makes the pattern fail to match. */
  predicate MatchesPattern(dt: DateTime) {
    1 <= dt.month <= 12 && 1 <= dt.day <= 31 && dt.hour <= 23 && dt.minute <= 59 && dt.second <= 61
  }

  /** datetime.strptime(s, "%Y-%m-%d %H:%M:%S"). */
  function Parse(s: string): (r: Result<DateTime, Error>)
    ensures r.Success? ==> Valid(r.value)
    ensures r.Failure? ==> r.error == FormatMismatch(s) || r.error == OutOfRange(s)
  {
    if !HasShape(s) || !MatchesPattern(Fields(s)) then Failure(FormatMismatch(s))
    else if !Valid(Fields(s)) then Failure(OutOfRange(s))
    else Success(Fields(s))
  }

  /** str(datetime): the canonical text of a datetime, the inverse of Parse. */
  function Format(dt: DateTime): (s: string)
    requires Valid(dt)
    ensures HasShape(s)
  {
    Digits(dt.year, 4) + "-" + Digits(dt.month, 2) + "-" + Digits(dt.day, 2) + " "
    + Digits(dt.hour, 2) + ":" + Digits(dt.minute, 2) + ":" + Digits(dt.second, 2)
  }

  /** The six digit runs of the canonical text. */
  lemma FormatSlices(dt: DateTime)
    requires Valid(dt)
    ensures Format(dt)[0..4] == Digits(dt.year, 4)
    ensures Format(dt)[5..7] == Digits(dt.month, 2)
    ensures Format(dt)[8..10] == Digits(dt.day, 2)
    ensures Format(dt)[11..13] == Digits(dt.hour, 2)
    ensures Format(dt)[14..16] == Digits(dt.minute, 2)
    ensures Format(dt)[17..19] == Digits(dt.second, 2)
  {
  }

  lemma FormatFields(dt: DateTime)
    requires Valid(dt)
    ensures Fields(Format(dt)) == dt
  {
    FormatSlices(dt);
    DigitsRoundTrip(dt.year, 4);
    DigitsRoundTrip(dt.month, 2);
    DigitsRoundTrip(dt.day, 2);
    DigitsRoundTrip(dt.hour, 2);
    DigitsRoundTrip(dt.minute, 2);
    DigitsRoundTrip(dt.second, 2);
  }

  /** Every valid datetime written in the format is read back unchanged. */
  lemma ParseFormat(dt: DateTime)
    requires Valid(dt)
    ensures Parse(Format(dt)) == Success(dt)
  {
    FormatFields(dt);
  }

  /** Parse accepts nothing but the canonical text of a valid datetime. */
  lemma ParseOnlyCanonical(s: string)
    requires Parse(s).Success?
    ensures Valid(Parse(s).value) && Format(Parse(s).value) == s
  {
    var dt := Fields(s);
    FormatSlices(dt);
    FieldsRespelt(s);
    SameRunsSameText(Format(dt), s);
  }

  /** Writing the fields of a well-shaped text back gives its digit runs. */
  lemma FieldsRespelt(s: string)
    requires HasShape(s)
    ensures Digits(Fields(s).year, 4) == s[0..4]
    ensures Digits(Fields(s).month, 2) == s[5..7]
    ensures Digits(Fields(s).day, 2) == s[8..10]
    ensures Digits(Fields(s).hour, 2) == s[11..13]
    ensures Digits(Fields(s).minute, 2) == s[14..16]
    ensures Digits(Fields(s).second, 2) == s[17..19]
  {
    DigitsValueRoundTrip(s[0..4]);
    DigitsValueRoundTrip(s[5..7]);
    DigitsValueRoundTrip(s[8..10]);
    DigitsValueRoundTrip(s[11..13]);
    DigitsValueRoundTrip(s[14..16]);
    DigitsValueRoundTrip(s[17..19]);
  }

  /** Two texts of the shape with the same six digit runs are the same text. */
  lemma SameRunsSameText(f: string, s: string)
    requires HasShape(f) && HasShape(s)
    requires f[0..4] == s[0..4] && f[5..7] == s[5..7] && f[8..10] == s[8..10]
    requires f[11..13] == s[11..13] && f[14..16] == s[14..16] && f[17..19] == s[17..19]
    ensures f == s
  {
    forall i | 0 <= i < 19 ensures f[i] == s[i] {
      if i < 4 { assert f[i] == f[0..4][i]; }
      else if 5 <= i < 7 { assert f[i] == f[5..7][i - 5]; }
      else if 8 <= i < 10 { assert f[i] == f[8..10][i - 8]; }
      else if 11 <= i < 13 { assert f[i] == f[11..13][i - 11]; }
      else if 14 <= i < 16 { assert f[i] == f[14..16][i - 14]; }
      else if 17 <= i { assert f[i] == f[17..19][i - 17]; }
    }
  }

  function DigitAt(s: string, i: int): int
    requires 0 <= i < |s|
  {
    s[i] as int - '0' as int
  }

  /** The fields of a well-shaped text, digit by digit. */
  lemma FieldsByDigit(s: string)
    requires HasShape(s)
    ensures Fields(s) == DateTime(
              1000 * DigitAt(s, 0) + 100 * DigitAt(s, 1) + 10 * DigitAt(s, 2) + DigitAt(s, 3),
              10 * DigitAt(s, 5) + DigitAt(s, 6), 10 * DigitAt(s, 8) + DigitAt(s, 9),
              10 * DigitAt(s, 11) + DigitAt(s, 12), 10 * DigitAt(s, 14) + DigitAt(s, 15),
              10 * DigitAt(s, 17) + DigitAt(s, 18))
  {
    TwoDigits(s, 5);
    TwoDigits(s, 8);
    TwoDigits(s, 11);
    TwoDigits(s, 14);
    TwoDigits(s, 17);
    var y := s[0..4];
    assert y[..3][..2][..1][..0] == [];
    assert y[..3][..2][..1] == [s[0]] && y[..3][..2] == [s[0], s[1]] && y[..3] == [s[0], s[1], s[2]];
    assert DigitsValue(y[..3][..2][..1]) == DigitAt(s, 0);
    assert DigitsValue(y[..3][..2]) == 10 * DigitAt(s, 0) + DigitAt(s, 1);
    assert DigitsValue(y[..3]) == 100 * DigitAt(s, 0) + 10 * DigitAt(s, 1) + DigitAt(s, 2);
    assert DigitsValue(y) == DigitsValue(y[..3]) * 10 + DigitAt(s, 3);
  }

  /** The fields of a well-shaped text whose digits spell dt. */
  lemma FieldsSpell(s: string, dt: DateTime)
    requires HasShape(s)
    requires dt == DateTime(
               1000 * DigitAt(s, 0) + 100 * DigitAt(s, 1) + 10 * DigitAt(s, 2) + DigitAt(s, 3),
               10 * DigitAt(s, 5) + DigitAt(s, 6), 10 * DigitAt(s, 8) + DigitAt(s, 9),
               10 * DigitAt(s, 11) + DigitAt(s, 12), 10 * DigitAt(s, 14) + DigitAt(s, 15),
               10 * DigitAt(s, 17) + DigitAt(s, 18))
    ensures Fields(s) == dt
  {
    FieldsByDigit(s);
  }

  lemma TwoDigits(s: string, i: int)
    requires 0 <= i && i + 2 <= |s| && IsDigit(s[i]) && IsDigit(s[i + 1])
    ensures DigitsValue(s[i..i + 2]) == 10 * DigitAt(s, i) + DigitAt(s, i + 1)
  {
    var t := s[i..i + 2];
    assert t[..1] == [s[i]] && t[..1][..0] == [];
    assert DigitsValue(t[..1]) == DigitAt(s, i);
    assert DigitsValue(t) == DigitsValue(t[..1]) * 10 + DigitAt(s, i + 1);
  }
}
