/** Times and their ISO 8601 texts: the Gregorian calendar behind `UTCExplode` and `FromUTCString`. */
module Timestamps {

  import opened Wrappers

  const FIRST_YEAR: int := 1601
  const LAST_YEAR: int := 9999
  const DAYS: int := 3_067_671
  const DAY_MILLIS: int := 86_400_000

  /** A `base::Time`: microseconds since 1601-01-01, where zero is the null time, up to the end of the last year that
      has four digits. */
  type Time = t: int | 0 <= t < DAYS * DAY_MILLIS * 1000

  /** The time cut to whole milliseconds. */
  function Truncated(t: Time): Time {
    t / 1000 * 1000
  }

  // --- The calendar --------------------------------------------------------------------------------------

  predicate Leap(year: int) {
    year % 4 == 0 && (year % 100 != 0 || year % 400 == 0)
  }

  /** The days from the first of January 1601 to that of `year`. */
  function DaysBefore(year: int): int
    requires year >= FIRST_YEAR
  {
    var k := year - FIRST_YEAR;
    365 * k + k / 4 - k / 100 + k / 400
  }

  /** A leap year is a day longer. */
  lemma YearLength(year: int)
    requires year >= FIRST_YEAR
    ensures DaysBefore(year + 1) == DaysBefore(year) + if Leap(year) then 366 else 365
  {
    Carry(year, 4, 400);
    Carry(year, 100, 16);
    Carry(year, 400, 4);
    assert year % 400 == 0 ==> year % 100 == 0 && year % 4 == 0;
    assert year % 100 == 0 ==> year % 4 == 0;
  }

  /** Counting the multiples of m, from a year that follows one. */
  lemma Carry(year: int, m: int, q: int)
    requires year >= FIRST_YEAR && (m == 4 || m == 100 || m == 400) && m * q == FIRST_YEAR - 1
    ensures (year + 1 - FIRST_YEAR) / m == (year - FIRST_YEAR) / m + if year % m == 0 then 1 else 0
  {
  }

  lemma {:induction false} DaysGrow(a: int, b: int)
    requires FIRST_YEAR <= a <= b
    ensures DaysBefore(a) <= DaysBefore(b)
    decreases b - a
  {
    hide DaysBefore;
    if a == b {
    } else {
      DaysGrow(a, b - 1);
      YearLength(b - 1);
    }
  }

  /** The year, not before `from`, that holds the given day. */
  function YearOf(days: int, from: int): (year: int)
    requires from >= FIRST_YEAR && DaysBefore(from) <= days
    ensures year >= from && DaysBefore(year) <= days < DaysBefore(year + 1)
    decreases days - DaysBefore(from)
  {
    YearLength(from);
    if days < DaysBefore(from + 1) then from else YearOf(days, from + 1)
  }

  function MonthLength(leap: bool, month: int): int {
    if month == 2 then (if leap then 29 else 28)
    else if month == 4 || month == 6 || month == 9 || month == 11 then 30
    else 31
  }

  /** The days of a year before its `month`-th month. */
  function DaysBeforeMonth(leap: bool, month: int): int
    requires 1 <= month <= 13
  {
    if month == 1 then 0 else DaysBeforeMonth(leap, month - 1) + MonthLength(leap, month - 1)
  }

  lemma MonthsOfYear(leap: bool)
    ensures DaysBeforeMonth(leap, 13) == if leap then 366 else 365
  {
    var extra := if leap then 1 else 0;
    assert DaysBeforeMonth(leap, 2) == 31 && DaysBeforeMonth(leap, 3) == 59 + extra;
    assert DaysBeforeMonth(leap, 4) == 90 + extra && DaysBeforeMonth(leap, 5) == 120 + extra;
    assert DaysBeforeMonth(leap, 6) == 151 + extra && DaysBeforeMonth(leap, 7) == 181 + extra;
    assert DaysBeforeMonth(leap, 8) == 212 + extra && DaysBeforeMonth(leap, 9) == 243 + extra;
    assert DaysBeforeMonth(leap, 10) == 273 + extra && DaysBeforeMonth(leap, 11) == 304 + extra;
    assert DaysBeforeMonth(leap, 12) == 334 + extra;
  }

  /** The month, not before `from`, that holds the given day of the year. */
  function MonthOf(leap: bool, day: int, from: int): (month: int)
    requires 1 <= from <= 12 && DaysBeforeMonth(leap, from) <= day < DaysBeforeMonth(leap, 13)
    ensures from <= month <= 12 && DaysBeforeMonth(leap, month) <= day < DaysBeforeMonth(leap, month + 1)
    decreases 12 - from
  {
    if from == 12 || day < DaysBeforeMonth(leap, from + 1) then from else MonthOf(leap, day, from + 1)
  }

  datatype Exploded = Exploded(year: int, month: int, day: int, hour: int, minute: int, second: int, millisecond: int)

  predicate IsDate(e: Exploded) {
    FIRST_YEAR <= e.year <= LAST_YEAR && 1 <= e.month <= 12 && 1 <= e.day <= MonthLength(Leap(e.year), e.month)
  }

  predicate IsTimeOfDay(e: Exploded) {
    0 <= e.hour < 24 && 0 <= e.minute < 60 && 0 <= e.second < 60 && 0 <= e.millisecond < 1000
  }

  function DayNumber(e: Exploded): int
    requires IsDate(e)
  {
    DaysBefore(e.year) + DaysBeforeMonth(Leap(e.year), e.month) + e.day - 1
  }

  function MillisOfDay(e: Exploded): (m: int)
    ensures IsTimeOfDay(e) ==> 0 <= m < DAY_MILLIS
  {
    ((e.hour * 60 + e.minute) * 60 + e.second) * 1000 + e.millisecond
  }

  /** The date of a day number, at midnight. */
  function DateOf(days: int): (e: Exploded)
    requires 0 <= days < DAYS
    ensures IsDate(e) && DayNumber(e) == days
  {
    var year := YearOf(days, FIRST_YEAR);
    YearLength(year);
    var leap := Leap(year);
    var day := days - DaysBefore(year);
    MonthsOfYear(leap);
    var month := MonthOf(leap, day, 1);
    assert year <= LAST_YEAR by {
      if year > LAST_YEAR {
        DaysGrow(LAST_YEAR + 1, year);
      }
    }
    Exploded(year, month, day - DaysBeforeMonth(leap, month) + 1, 0, 0, 0, 0)
  }

  /** The time of day of a millisecond of the day. */
  function ClockOf(m: int): (e: Exploded)
    requires 0 <= m < DAY_MILLIS
    ensures IsTimeOfDay(e) && MillisOfDay(e) == m
  {
    var (seconds, millisecond) := (m / 1000, m % 1000);
    var (minutes, second) := (seconds / 60, seconds % 60);
    Exploded(0, 0, 0, minutes / 60, minutes % 60, second, millisecond)
  }

  function Joined(date: Exploded, clock: Exploded): (e: Exploded)
    ensures IsDate(e) <==> IsDate(date)
    ensures IsDate(date) ==> DayNumber(e) == DayNumber(date)
    ensures (IsTimeOfDay(e) <==> IsTimeOfDay(clock)) && MillisOfDay(e) == MillisOfDay(clock)
  {
    Exploded(date.year, date.month, date.day, clock.hour, clock.minute, clock.second, clock.millisecond)
  }

  /** `UTCExplode`. */
  function Explode(t: Time): (e: Exploded)
    ensures IsDate(e) && IsTimeOfDay(e)
    ensures DayNumber(e) * DAY_MILLIS + MillisOfDay(e) == t / 1000
  {
    Joined(DateOf(t / 1000 / DAY_MILLIS), ClockOf(t / 1000 % DAY_MILLIS))
  }

  function Instant(days: int, millis: int): (t: Time)
    requires 0 <= days < DAYS && 0 <= millis < DAY_MILLIS
    ensures t % 1000 == 0 && t / 1000 == days * DAY_MILLIS + millis
  {
    (days * DAY_MILLIS + millis) * 1000
  }

  /** The instant of valid calendar fields. */
  function Implode(e: Exploded): (t: Option<Time>)
    ensures t.Some? ==> t.value % 1000 == 0
  {
    if IsDate(e) && IsTimeOfDay(e) then
      DayNumberBound(e);
      Some(Instant(DayNumber(e), MillisOfDay(e)))
    else None
  }

  lemma DayNumberBound(e: Exploded)
    requires IsDate(e)
    ensures 0 <= DayNumber(e) < DAYS
  {
    hide DaysBefore;
    var leap := Leap(e.year);
    DaysGrow(FIRST_YEAR, e.year);
    DaysGrow(e.year + 1, LAST_YEAR + 1);
    YearLength(e.year);
    MonthsOfYear(leap);
    MonthsGrow(leap, 1, e.month);
    MonthsGrow(leap, e.month + 1, 13);
    assert DaysBefore(FIRST_YEAR) == 0 && DaysBefore(LAST_YEAR + 1) == DAYS by { Ends(); }
  }

  lemma Ends()
    ensures DaysBefore(FIRST_YEAR) == 0 && DaysBefore(LAST_YEAR + 1) == DAYS
  {
  }

  lemma {:induction false} MonthsGrow(leap: bool, a: int, b: int)
    requires 1 <= a <= b <= 13
    ensures DaysBeforeMonth(leap, a) <= DaysBeforeMonth(leap, b)
    decreases b
  {
    if a == b {
    } else {
      MonthsGrow(leap, a, b - 1);
    }
  }

  // --- Numbers in text -----------------------------------------------------------------------------------

  function Pow10(w: nat): nat {
    if w == 0 then 1 else 10 * Pow10(w - 1)
  }

  predicate IsDigit(c: char) {
    '0' <= c <= '9'
  }

  /** `%0wd` of a number of at most w digits. */
  function Pad(n: nat, w: nat): (s: string)
    ensures |s| == w
  {
    if w == 0 then "" else Pad(n / 10, w - 1) + ['0' + (n % 10) as char]
  }

  /** The number that digits stand for; None if there is another character. */
  function ReadNumber(s: string): Option<nat> {
    if s == "" then Some(0)
    else
      var init, last := ReadNumber(s[..|s| - 1]), s[|s| - 1];
      if init.Some? && IsDigit(last) then Some(10 * init.value + (last - '0') as nat) else None
  }

  lemma {:induction false} NumberRoundTrip(n: nat, w: nat)
    requires n < Pow10(w)
    ensures ReadNumber(Pad(n, w)) == Some(n)
  {
    if w == 0 {
    } else {
      NumberRoundTrip(n / 10, w - 1);
      assert Pad(n, w)[..w - 1] == Pad(n / 10, w - 1);
    }
  }

  // --- Texts ---------------------------------------------------------------------------------------------

  function DateText(e: Exploded): (s: string)
    requires IsDate(e)
    ensures |s| == 10
  {
    Pad(e.year, 4) + "-" + Pad(e.month, 2) + "-" + Pad(e.day, 2)
  }

  function ClockText(e: Exploded): (s: string)
    requires IsTimeOfDay(e)
    ensures |s| == 13
  {
    Pad(e.hour, 2) + ":" + Pad(e.minute, 2) + ":" + Pad(e.second, 2) + "." + Pad(e.millisecond, 3) + "Z"
  }

  /** `TimeToString`. */
  function TimeToString(t: Time): string {
    if t == 0 then "" else DateText(Explode(t)) + "T" + ClockText(Explode(t))
  }

  /** `FromUTCString`, as far as texts of this form go: None for any other. */
  function FromUtcString(s: string): (t: Option<Time>)
    ensures t.Some? ==> t.value % 1000 == 0
  {
    if |s| == 24 && (s[10] == 'T' || s[10] == ' ') then
      var date, clock := ReadDate(s[..10]), ReadClock(s[11..]);
      if date.Some? && clock.Some? then Implode(Joined(date.value, clock.value)) else None
    else None
  }

  function ReadDate(s: string): Option<Exploded>
    requires |s| == 10
  {
    var year, month, day := ReadNumber(s[..4]), ReadNumber(s[5..7]), ReadNumber(s[8..]);
    if s[4] == '-' && s[7] == '-' && year.Some? && month.Some? && day.Some?
    then Some(Exploded(year.value, month.value, day.value, 0, 0, 0, 0))
    else None
  }

  function ReadClock(s: string): Option<Exploded>
    requires |s| == 13
  {
    var hour, minute := ReadNumber(s[..2]), ReadNumber(s[3..5]);
    var second, milli := ReadNumber(s[6..8]), ReadNumber(s[9..12]);
    if s[2] == ':' && s[5] == ':' && s[8] == '.' && s[12] == 'Z'
       && hour.Some? && minute.Some? && second.Some? && milli.Some?
    then Some(Exploded(0, 0, 0, hour.value, minute.value, second.value, milli.value))
    else None
  }

  /** The text with its first T replaced by a space. */
  function Spaced(s: string): string {
    if s == "" then "" else if s[0] == 'T' then " " + s[1..] else [s[0]] + Spaced(s[1..])
  }

  /** `TimeFromString`: the null time for the empty text and for texts that cannot be read. */
  function TimeFromString(s: string): (t: Time)
    ensures Truncated(t) == t
  {
    var direct, spaced := FromUtcString(s), FromUtcString(Spaced(s));
    if s == "" then 0
    else if direct.Some? then direct.value
    else if 'T' in s && spaced.Some? then spaced.value
    else 0
  }

  // --- Round trip ----------------------------------------------------------------------------------------

  lemma Powers()
    ensures Pow10(2) == 100 && Pow10(3) == 1000 && Pow10(4) == 10000
  {
  }

  lemma DateRoundTrip(e: Exploded)
    requires IsDate(e)
    ensures ReadDate(DateText(e)) == Some(Exploded(e.year, e.month, e.day, 0, 0, 0, 0))
  {
    hide Pad, ReadNumber, Pow10;
    Powers();
    NumberRoundTrip(e.year, 4);
    NumberRoundTrip(e.month, 2);
    NumberRoundTrip(e.day, 2);
    var s := DateText(e);
    assert s[..4] == Pad(e.year, 4) && s[5..7] == Pad(e.month, 2) && s[8..] == Pad(e.day, 2);
  }

  lemma ClockRoundTrip(e: Exploded)
    requires IsTimeOfDay(e)
    ensures ReadClock(ClockText(e)) == Some(Exploded(0, 0, 0, e.hour, e.minute, e.second, e.millisecond))
  {
    hide Pad, ReadNumber, Pow10;
    Powers();
    NumberRoundTrip(e.hour, 2);
    NumberRoundTrip(e.minute, 2);
    NumberRoundTrip(e.second, 2);
    NumberRoundTrip(e.millisecond, 3);
    var s := ClockText(e);
    assert s[..2] == Pad(e.hour, 2) && s[3..5] == Pad(e.minute, 2);
    assert s[6..8] == Pad(e.second, 2) && s[9..12] == Pad(e.millisecond, 3);
  }

  /** A time read back from its text is the time cut to whole milliseconds. */
  lemma TimeRoundTrip(t: Time)
    ensures TimeFromString(TimeToString(t)) == Truncated(t)
  {
    hide ReadDate, ReadClock, Spaced, IsDate, IsTimeOfDay, DayNumber, MillisOfDay, DateText, ClockText, Explode;
    if t != 0 {
      var e := Explode(t);
      var s := TimeToString(t);
      DateRoundTrip(e);
      ClockRoundTrip(e);
      assert s[..10] == DateText(e) && s[11..] == ClockText(e);
    }
  }

  // --- The calendar is the Gregorian one -------------------------------------------------------------------

  /** Thirty days have April, June, September and November; February has 28, or 29 in the years that four divides but a
      hundred does not, or four hundred does; all others have 31. */
  lemma MonthLengths(year: int, month: int)
    requires 1 <= month <= 12
    ensures MonthLength(Leap(year), month)
            == if month in {4, 6, 9, 11} then 30
               else if month in {1, 3, 5, 7, 8, 10, 12} then 31
               else if (year % 4 == 0 && year % 100 != 0) || year % 400 == 0 then 29 else 28
  {
  }

  lemma SameYear(a: int, b: int, day: int)
    requires a >= FIRST_YEAR && b >= FIRST_YEAR
    requires DaysBefore(a) <= day < DaysBefore(a + 1) && DaysBefore(b) <= day < DaysBefore(b + 1)
    ensures a == b
  {
    hide DaysBefore;
    if a < b {
      DaysGrow(a + 1, b);
    } else if b < a {
      DaysGrow(b + 1, a);
    }
  }

  lemma SameMonth(leap: bool, a: int, b: int, day: int)
    requires 1 <= a <= 12 && 1 <= b <= 12
    requires DaysBeforeMonth(leap, a) <= day < DaysBeforeMonth(leap, a + 1)
    requires DaysBeforeMonth(leap, b) <= day < DaysBeforeMonth(leap, b + 1)
    ensures a == b
  {
    if a < b {
      MonthsGrow(leap, a + 1, b);
    } else if b < a {
      MonthsGrow(leap, b + 1, a);
    }
  }

  /** Where a date lies in its year and month. */
  lemma DateBounds(e: Exploded)
    requires IsDate(e)
    ensures DaysBefore(e.year) <= DayNumber(e) < DaysBefore(e.year + 1)
    ensures var leap, day := Leap(e.year), DayNumber(e) - DaysBefore(e.year);
            DaysBeforeMonth(leap, e.month) <= day < DaysBeforeMonth(leap, e.month + 1)
  {
    hide DaysBefore;
    var leap := Leap(e.year);
    YearLength(e.year);
    MonthsOfYear(leap);
    MonthsGrow(leap, 1, e.month);
    MonthsGrow(leap, e.month + 1, 13);
  }

  /** Different dates have different day numbers. */
  lemma DateUnique(a: Exploded, b: Exploded)
    requires IsDate(a) && IsDate(b) && DayNumber(a) == DayNumber(b)
    ensures a.year == b.year && a.month == b.month && a.day == b.day
  {
    DateBounds(a);
    DateBounds(b);
    hide DaysBefore, DaysBeforeMonth, MonthLength;
    SameYear(a.year, b.year, DayNumber(a));
    SameMonth(Leap(a.year), a.month, b.month, DayNumber(a) - DaysBefore(a.year));
  }

  lemma ClockUnique(a: Exploded, b: Exploded)
    requires IsTimeOfDay(a) && IsTimeOfDay(b) && MillisOfDay(a) == MillisOfDay(b)
    ensures a.hour == b.hour && a.minute == b.minute && a.second == b.second && a.millisecond == b.millisecond
  {
  }

  /** The calendar fields of the instant of valid fields are these fields. */
  lemma FieldsRoundTrip(e: Exploded)
    requires IsDate(e) && IsTimeOfDay(e)
    ensures Implode(e).Some? && Explode(Implode(e).value) == e
  {
    hide IsDate, IsTimeOfDay, DayNumber, MillisOfDay, Explode;
    var f := Explode(Implode(e).value);
    SplitUnique(DayNumber(e), MillisOfDay(e), DayNumber(f), MillisOfDay(f));
    DateUnique(e, f);
    ClockUnique(e, f);
  }

  lemma SplitUnique(d: int, m: int, d': int, m': int)
    requires 0 <= m < DAY_MILLIS && 0 <= m' < DAY_MILLIS && d * DAY_MILLIS + m == d' * DAY_MILLIS + m'
    ensures d == d' && m == m'
  {
  }

  /** Every text of a valid time, but that of the null instant, is written back as it was read. */
  lemma TextRoundTrip(e: Exploded)
    requires IsDate(e) && IsTimeOfDay(e) && Implode(e) != Some(0)
    ensures var s := DateText(e) + "T" + ClockText(e); TimeToString(TimeFromString(s)) == s
  {
    hide ReadDate, ReadClock, Spaced, IsDate, IsTimeOfDay, DayNumber, MillisOfDay, DateText, ClockText, Explode;
    hide Implode;
    var s := DateText(e) + "T" + ClockText(e);
    DateRoundTrip(e);
    ClockRoundTrip(e);
    assert s[..10] == DateText(e) && s[11..] == ClockText(e);
    FieldsRoundTrip(e);
    assert Joined(Exploded(e.year, e.month, e.day, 0, 0, 0, 0),
                  Exploded(0, 0, 0, e.hour, e.minute, e.second, e.millisecond)) == e;
  }

  /** The Unix epoch, 11644473600 seconds after 1601, and the leap day of 2000 with a millisecond to go. */
  lemma KnownTimes()
    ensures Explode(11_644_473_600_000_000) == Exploded(1970, 1, 1, 0, 0, 0, 0)
    ensures Explode(12_596_342_399_999_000) == Exploded(2000, 2, 29, 23, 59, 59, 999)
    ensures DateText(Exploded(2000, 2, 29, 0, 0, 0, 0)) == "2000-02-29"
    ensures ClockText(Exploded(0, 0, 0, 23, 59, 58, 7)) == "23:59:58.007Z"
  {
    hide Explode, Pad, DaysBefore, DaysBeforeMonth;
    KnownDays();
    FieldsRoundTrip(Exploded(1970, 1, 1, 0, 0, 0, 0));
    FieldsRoundTrip(Exploded(2000, 2, 29, 23, 59, 59, 999));
    KnownDigits();
  }

  lemma KnownDays()
    ensures DayNumber(Exploded(1970, 1, 1, 0, 0, 0, 0)) == 134_774
    ensures DayNumber(Exploded(2000, 2, 29, 23, 59, 59, 999)) == 145_790
  {
    assert DaysBeforeMonth(true, 2) == 31 + DaysBeforeMonth(true, 1);
  }

  lemma KnownDigits()
    ensures Pad(2000, 4) == "2000" && Pad(2, 2) == "02" && Pad(29, 2) == "29"
    ensures Pad(23, 2) == "23" && Pad(59, 2) == "59" && Pad(58, 2) == "58" && Pad(7, 3) == "007"
  {
    assert Pad(2, 1) == "2" && Pad(20, 2) == "20" && Pad(200, 3) == "200";
    assert Pad(5, 1) == "5" && Pad(0, 1) == "0" && Pad(0, 2) == "00";
  }
}
