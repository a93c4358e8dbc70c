/** Excel 1900-system day serials: serial 1 is 1900-01-01, serial 60 is the fictitious
  * 1900-02-29, and from serial 61 (1900-03-01) on, serials run one ahead of the real
  * day count. Calendar arithmetic is proleptic Gregorian, as in ECMAScript's Date. */
module DateUtils {
  import opened Wrappers
  import opened Numbers

  datatype Ymd = Ymd(year: int, month: int, day: int)

  /** `normalizeExcelYear`: two-digit-style years 0..1899 are read as 1900..3799. */
  function NormalizeExcelYear(y: int): (r: int)
    ensures 0 <= y <= 1899 ==> r == y + 1900
    ensures !(0 <= y <= 1899) ==> r == y
  {
    if 0 <= y <= 1899 then 1900 + y else y
  }

  /** A normalised year is never in 0..1899, and its sign is the input's. */
  lemma NormalizedYearRange(y: int)
    ensures var r := NormalizeExcelYear(y); (r < 0 || r >= 1900) && (r < 0 <==> y < 0)
  {
  }

  predicate IsLeap(y: int) { y % 4 == 0 && (y % 100 != 0 || y % 400 == 0) }

  function DaysInYear(y: int): int { if IsLeap(y) then 366 else 365 }

  function DaysInMonth(y: int, m: int): int
    requires 1 <= m <= 12
  {
    if m == 2 then (if IsLeap(y) then 29 else 28)
    else if m == 4 || m == 6 || m == 9 || m == 11 then 30
    else 31
  }

  /** Days of the year before the first of month `m`. */
  function DaysBeforeMonth(y: int, m: int): int
    requires 1 <= m <= 12
  {
    [0, 31, 59, 90, 120, 151, 181, 212, 243, 273, 304, 334][m - 1] + (if m > 2 && IsLeap(y) then 1 else 0)
  }

  lemma DaysBeforeNextMonth(y: int, m: int)
    requires 1 <= m <= 12
    ensures m < 12 ==> DaysBeforeMonth(y, m + 1) == DaysBeforeMonth(y, m) + DaysInMonth(y, m)
    ensures m == 12 ==> DaysBeforeMonth(y, m) + DaysInMonth(y, m) == DaysInYear(y)
  {
  }

  /** Leap years in `1..y` (for `y >= 0`; floor division keeps the count consistent below 0). */
  function LeapsThrough(y: int): int { y / 4 - y / 100 + y / 400 }

  /** Day number of 1 January of year `y`, counting 1900-01-01 as day 0
    * (460 leap years fall in 1..1899). */
  function YearStart(y: int): int
  {
    365 * (y - 1900) + LeapsThrough(y - 1) - 460
  }

  lemma YearStartStep(y: int)
    ensures YearStart(y + 1) == YearStart(y) + DaysInYear(y)
  {
    assert y / 4 == (y - 1) / 4 + (if y % 4 == 0 then 1 else 0);
    assert y / 100 == (y - 1) / 100 + (if y % 100 == 0 then 1 else 0);
    assert y / 400 == (y - 1) / 400 + (if y % 400 == 0 then 1 else 0);
  }

  /** Day number of `y-m-d`, day 0 being 1900-01-01; `d` may run outside the month. */
  function DayNumber(y: int, m: int, d: int): int
    requires 1 <= m <= 12
  {
    YearStart(y) + DaysBeforeMonth(y, m) + d - 1
  }

  /** `Date.UTC(y, m0, d)` in whole days from 1900-01-01: a month index outside 0..11
    * carries into the year, a day outside the month carries into the neighbouring months. */
  function UtcDay(y: int, m0: int, d: int): int
  {
    DayNumber(y + m0 / 12, m0 % 12 + 1, d)
  }

  /** 1970-01-01, the ECMAScript epoch, as a day number. */
  const UNIX_EPOCH_DAY: int := 25567

  /** The ECMAScript time-value range: at most 10^8 days either side of 1970-01-01. */
  predicate InTimeRange(day: int)
  {
    -100000000 <= day - UNIX_EPOCH_DAY <= 100000000
  }

  /** `ymdToExcelSerial`; `None` is NaN. A `None` argument is a non-finite number. */
  function YmdToExcelSerial(year: Option<real>, month: Option<real>, day: Option<real>): Option<int>
  {
    if year.None? || month.None? || day.None? then None
    else
      var y := NormalizeExcelYear(Trunc(year.value));
      var m := Trunc(month.value);
      var d := Trunc(day.value);
      if y < 0 then None
      else if y == 1900 && m == 2 && d == 29 then Some(60)
      else
        DaySerial(UtcDay(y, m - 1, d))
  }

  /** The serial of a real day number: one ahead of it, two ahead from 1900-03-01 on;
    * NaN outside the Date range. */
  function DaySerial(utc: int): Option<int>
  {
    if !InTimeRange(utc) then None
    else Some(utc + 1 + (if utc >= 59 then 1 else 0))
  }

  /** What `excelSerialToParts` yields: `null`, an invalid `Date` (whose parts are NaN),
    * or the parts. */
  datatype Parts = NoParts | InvalidDate | Parts(ymd: Ymd)

  /** Year and day-of-year of day `rem` counted from 1 January of `y`. */
  function FindYear(rem: int, y: int): (r: (int, int))
    requires rem >= 0
    ensures 0 <= r.1 < DaysInYear(r.0)
    decreases rem
  {
    if rem < DaysInYear(y) then (y, rem) else FindYear(rem - DaysInYear(y), y + 1)
  }

  /** Month and day of day-of-year `doy`, searching from month `m`. */
  function FindMonth(doy: int, y: int, m: int): (r: (int, int))
    requires 1 <= m <= 12 && 0 <= doy
    ensures 1 <= r.0 <= 12
    decreases 12 - m
  {
    if m == 12 || doy < DaysInMonth(y, m) then (m, doy + 1)
    else FindMonth(doy - DaysInMonth(y, m), y, m + 1)
  }

  /** The calendar date of day number `n` (day 0 = 1900-01-01), for `n >= -365`. */
  function CivilFromDay(n: int): Ymd
    requires n >= -365
  {
    var (y, doy) := FindYear(n + 365, 1899);
    var (m, d) := FindMonth(doy, y, 1);
    Ymd(y, m, d)
  }

  /** `excelSerialToParts`; a `None` argument is a non-finite number. */
  function ExcelSerialToParts(serial: Option<real>): Parts
  {
    if serial.None? then NoParts
    else
      var s := serial.value.Floor;
      if s < 0 then NoParts
      else if s == 60 then Parts(Ymd(1900, 2, 29))
      else
        var days := if s > 60 then s - 1 else s;
        var dayNumber := days - 1;
        if !InTimeRange(dayNumber) then InvalidDate else Parts(CivilFromDay(dayNumber))
  }

  predicate ValidDate(y: int, m: int, d: int)
  {
    1 <= m <= 12 && 1 <= d <= DaysInMonth(y, m)
  }

  lemma {:induction false} YearStartMonotone(a: int, b: int)
    requires a <= b
    ensures YearStart(a) + 365 * (b - a) <= YearStart(b)
    decreases b - a
  {
    if a < b {
      YearStartMonotone(a + 1, b);
      YearStartStep(a);
    }
  }

  lemma {:induction false} YearStartBound(y: int)
    requires y >= 1900
    ensures 0 <= YearStart(y) <= 366 * (y - 1900)
    decreases y - 1900
  {
    if y > 1900 {
      YearStartBound(y - 1);
    }
  }

  lemma {:induction false} FindYearOf(y0: int, y: int, doy: int)
    requires y0 <= y && 0 <= doy < DaysInYear(y)
    ensures YearStart(y0) <= YearStart(y)
    ensures FindYear(YearStart(y) - YearStart(y0) + doy, y0) == (y, doy)
    decreases y - y0
  {
    YearStartMonotone(y0, y);
    if y0 < y {
      YearStartStep(y0);
      YearStartMonotone(y0 + 1, y);
      FindYearOf(y0 + 1, y, doy);
    }
  }

  lemma {:induction false} FindMonthOf(y: int, m0: int, m: int, d: int)
    requires 1 <= m0 <= m && ValidDate(y, m, d)
    ensures FindMonth(DaysBeforeMonth(y, m) - DaysBeforeMonth(y, m0) + d - 1, y, m0) == (m, d)
    decreases m - m0
  {
    if m0 < m {
      DaysBeforeNextMonth(y, m0);
      assert DaysBeforeMonth(y, m) >= DaysBeforeMonth(y, m0 + 1) by {
        DaysBeforeMonotone(y, m0 + 1, m);
      }
      FindMonthOf(y, m0 + 1, m, d);
    }
  }

  lemma DaysBeforeMonotone(y: int, a: int, b: int)
    requires 1 <= a <= b <= 12
    ensures DaysBeforeMonth(y, a) <= DaysBeforeMonth(y, b)
  {
  }

  /** Day numbers of valid dates from 1899 on convert back to the same date. */
  lemma CivilOfDayNumber(y: int, m: int, d: int)
    requires y >= 1899 && ValidDate(y, m, d)
    ensures DayNumber(y, m, d) >= -365
    ensures CivilFromDay(DayNumber(y, m, d)) == Ymd(y, m, d)
  {
    YearStartMonotone(1899, y);
    assert YearStart(1899) == -365;
    var doy := DaysBeforeMonth(y, m) + d - 1;
    DayOfYearBound(y, m, d);
    FindYearOf(1899, y, doy);
    assert FindYear(DayNumber(y, m, d) + 365, 1899) == (y, doy);
    FindMonthOf(y, 1, m, d);
    assert FindMonth(doy, y, 1) == (m, d) by { assert DaysBeforeMonth(y, 1) == 0; }
  }

  /** The day of the year of a valid date lies within the year. */
  lemma DayOfYearBound(y: int, m: int, d: int)
    requires ValidDate(y, m, d)
    ensures 0 <= DaysBeforeMonth(y, m) + d - 1 < DaysInYear(y)
  {
    DaysBeforeNextMonth(y, m);
    if m < 12 {
      DaysBeforeNextMonth(y, m + 1);
      DaysBeforeMonotone(y, m + 1, 12);
      DaysBeforeNextMonth(y, 12);
    }
  }

  /** Round trip: the serial of a valid date from 1900-01-01 on (up to year 200000, well
    * inside the Date range) converts back to that date, 1900-02-29 included. */
  lemma SerialRoundTrip(y: int, m: int, d: int)
    requires 1900 <= y <= 200000
    requires ValidDate(y, m, d) || (y == 1900 && m == 2 && d == 29)
    ensures YmdToExcelSerial(Some(y as real), Some(m as real), Some(d as real)).Some?
    ensures ExcelSerialToParts(Some(YmdToExcelSerial(Some(y as real), Some(m as real), Some(d as real)).value as real))
      == Parts(Ymd(y, m, d))
  {
    if y == 1900 && m == 2 && d == 29 {
      assert Trunc(y as real) == y && Trunc(m as real) == m && Trunc(d as real) == d;
      assert (60 as real).Floor == 60;
    } else {
      var n := DayNumber(y, m, d);
      assert UtcDay(y, m - 1, d) == n by {
        assert (m - 1) / 12 == 0 && (m - 1) % 12 == m - 1;
      }
      YearStartBound(y);
      assert 0 <= n <= 366 * (y - 1900) + 366;
      SerialOfIntegers(y, m, d);
      var serial := n + 1 + (if n >= 59 then 1 else 0);
      assert DaySerial(n) == Some(serial);
      PartsOfSerial(serial);
      CivilOfDayNumber(y, m, d);
    }
  }

  /** Integer-valued arguments reach the calendar arithmetic unchanged. */
  lemma SerialOfIntegers(y: int, m: int, d: int)
    requires y >= 1900 && !(y == 1900 && m == 2 && d == 29)
    ensures YmdToExcelSerial(Some(y as real), Some(m as real), Some(d as real)) == DaySerial(UtcDay(y, m - 1, d))
  {
    assert Trunc(y as real) == y && Trunc(m as real) == m && Trunc(d as real) == d;
  }

  /** In January and February 1900 the serial is the day of the year. */
  lemma SerialBeforeMarch1900(m: int, d: int)
    requires ValidDate(1900, m, d) && m <= 2
    ensures YmdToExcelSerial(Some(1900 as real), Some(m as real), Some(d as real)) == Some(DaysBeforeMonth(1900, m) + d)
  {
    SerialOfIntegers(1900, m, d);
    assert (m - 1) / 12 == 0 && (m - 1) % 12 == m - 1;
    assert YearStart(1900) == 0;
  }

  /** From 1900-03-01 on the serial runs two ahead of the day number, which counts
    * 1900-01-01 as 0: one for counting from 1, one for the fictitious 1900-02-29. */
  lemma SerialFromMarch1900(y: int, m: int, d: int)
    requires y >= 1900 && ValidDate(y, m, d) && (y > 1900 || m >= 3)
    requires InTimeRange(DayNumber(y, m, d))
    ensures YmdToExcelSerial(Some(y as real), Some(m as real), Some(d as real)) == Some(DayNumber(y, m, d) + 2)
  {
    SerialOfIntegers(y, m, d);
    assert (m - 1) / 12 == 0 && (m - 1) % 12 == m - 1;
    if y > 1900 {
      YearStartMonotone(1900, y);
    }
  }

  /** The values the 1900 leap-year bug pins down: 1900-01-01 is serial 1 ... */
  lemma SerialFirstDay()
    ensures YmdToExcelSerial(Some(1900.0), Some(1.0), Some(1.0)) == Some(1)
  {
    SerialBeforeMarch1900(1, 1);
  }

  /** ... 1900-02-28 is serial 59 ... */
  lemma SerialLastFebruaryDay()
    ensures YmdToExcelSerial(Some(1900.0), Some(2.0), Some(28.0)) == Some(59)
  {
    SerialBeforeMarch1900(2, 28);
  }

  /** ... the fictitious 1900-02-29 is serial 60 ... */
  lemma SerialFictitiousLeapDay()
    ensures YmdToExcelSerial(Some(1900.0), Some(2.0), Some(29.0)) == Some(60)
  {
    assert Trunc(1900.0) == 1900 && Trunc(2.0) == 2 && Trunc(29.0) == 29;
  }

  /** ... and 1900-03-01 is serial 61. */
  lemma SerialFirstMarchDay()
    ensures YmdToExcelSerial(Some(1900.0), Some(3.0), Some(1.0)) == Some(61)
  {
    SerialFromMarch1900(1900, 3, 1);
  }

  /** Non-finite input or a negative normalised year gives NaN. */
  lemma SerialNaN(year: Option<real>, month: Option<real>, day: Option<real>)
    requires year.None? || month.None? || day.None? || Trunc(year.value) < 0
    ensures YmdToExcelSerial(year, month, day).None?
  {
  }

  /** Serials below 60 are day counts from 1899-12-31; above 60 one day is taken off. */
  lemma PartsOfSerial(s: int)
    requires 0 <= s <= 100000000 && s != 60
    ensures ExcelSerialToParts(Some(s as real)) ==
      Parts(CivilFromDay(if s > 60 then s - 2 else s - 1))
  {
    assert (s as real).Floor == s;
  }
}
