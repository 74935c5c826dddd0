/** The parts of the .NET base class library that the domain code calls:
    `string` and `char.IsWhiteSpace`, `string.IsNullOrWhiteSpace`, `Guid`
    and the ordering of `DateTime`. */
module DotNet {
  import opened Wrappers

  // ---------------------------------------------------------------------
  // Strings
  // ---------------------------------------------------------------------

  /** A UTF-16 code unit: a .NET `char`. */
  newtype CodeUnit = x: int | 0 <= x < 0x1_0000

  /** A non-null .NET `string`. Its `Length` is the number of UTF-16 code
      units, so a character outside the Basic Multilingual Plane counts twice. */
  type NetString = seq<CodeUnit>

  /** `char.IsWhiteSpace`: the controls U+0009..U+000D and U+0085, and the
      Unicode space, line and paragraph separators. */
  predicate IsWhiteSpace(c: CodeUnit) {
    || 0x09 <= c <= 0x0D
    || c == 0x20 || c == 0x85 || c == 0xA0 || c == 0x1680
    || 0x2000 <= c <= 0x200A
    || c == 0x2028 || c == 0x2029 || c == 0x202F || c == 0x205F || c == 0x3000
  }

  /** Scans the string front to back, as `string.IsNullOrWhiteSpace` does. */
  function AllWhiteSpace(s: NetString): (r: bool)
    ensures r <==> forall i | 0 <= i < |s| :: IsWhiteSpace(s[i])
  {
    if |s| == 0 then true
    else if !IsWhiteSpace(s[0]) then false
    else
      assert forall i | 1 <= i < |s| :: s[i] == s[1..][i - 1];
      AllWhiteSpace(s[1..])
  }

  /** `string.IsNullOrWhiteSpace`: null, empty, or only white space. */
  function IsNullOrWhiteSpace(s: Option<NetString>): (r: bool)
    ensures r <==> s.None? || forall i | 0 <= i < |s.value| :: IsWhiteSpace(s.value[i])
    ensures !r <==> s.Some? && exists i | 0 <= i < |s.value| :: !IsWhiteSpace(s.value[i])
  {
    match s
    case None => true
    case Some(str) => AllWhiteSpace(str)
  }

  // ---------------------------------------------------------------------
  // Guid
  // ---------------------------------------------------------------------

  /** A 128-bit globally unique identifier; only its equality is used. */
  datatype Guid = Guid(bits: bv128)

  // ---------------------------------------------------------------------
  // DateTime
  // ---------------------------------------------------------------------

  /** A `DateTime` is a count of 100-nanosecond ticks since 0001-01-01
      00:00; its comparison operators compare the tick counts. */
  datatype DateTime = DateTime(ticks: int)

  const TicksPerDay: int := 864_000_000_000
  /** `DateTime.MaxValue.Ticks`, the last tick of 9999-12-31. */
  const MaxTicks: int := 3_155_378_975_999_999_999

  /** `DateTime operator <`. */
  predicate Less(a: DateTime, b: DateTime) {
    a.ticks < b.ticks
  }

  /** A point in the proleptic Gregorian calendar with the time of day in ticks. */
  datatype Calendar = Calendar(year: int, month: int, day: int, tickOfDay: int)

  predicate IsLeapYear(year: int) {
    year % 4 == 0 && (year % 100 != 0 || year % 400 == 0)
  }

  /** Days in the months before `month + 1` (the `DaysToMonth365`/`366` tables). */
  function DaysToMonth(leap: bool, month: int): int
    requires 0 <= month <= 12
  {
    (if leap && month >= 2 then 1 else 0) +
    (if month == 0 then 0 else if month == 1 then 31 else if month == 2 then 59
     else if month == 3 then 90 else if month == 4 then 120 else if month == 5 then 151
     else if month == 6 then 181 else if month == 7 then 212 else if month == 8 then 243
     else if month == 9 then 273 else if month == 10 then 304 else if month == 11 then 334
     else 365)
  }

  function DaysInMonth(year: int, month: int): int
    requires 1 <= month <= 12
  {
    DaysToMonth(IsLeapYear(year), month) - DaysToMonth(IsLeapYear(year), month - 1)
  }

  /** The calendar values `new DateTime(year, month, day)` accepts, with a time of day. */
  predicate ValidCalendar(c: Calendar) {
    && 1 <= c.year <= 9999
    && 1 <= c.month <= 12
    && 1 <= c.day <= DaysInMonth(c.year, c.month)
    && 0 <= c.tickOfDay < TicksPerDay
  }

  /** Days from 0001-01-01 to the first day of `year`. */
  function DaysBeforeYear(year: int): int
    requires year >= 1
  {
    var y := year - 1;
    y * 365 + y / 4 - y / 100 + y / 400
  }

  /** Days from 0001-01-01 to the date of `c` (.NET's `DateToTicks` before scaling). */
  function DayNumber(c: Calendar): int
    requires ValidCalendar(c)
  {
    DaysBeforeYear(c.year) + DaysToMonth(IsLeapYear(c.year), c.month - 1) + c.day - 1
  }

  /** The `DateTime` for a calendar point; every valid point is in `DateTime`'s range. */
  function ToDateTime(c: Calendar): (d: DateTime)
    requires ValidCalendar(c)
    ensures 0 <= d.ticks <= MaxTicks
  {
    DayNumberBounds(c);
    DaysBeforeYearMonotone(c.year + 1, 10000);
    DateTime(DayNumber(c) * TicksPerDay + c.tickOfDay)
  }

  /** Lexicographic order on (year, month, day, time of day). */
  predicate CalendarBefore(a: Calendar, b: Calendar) {
    || a.year < b.year
    || (a.year == b.year && a.month < b.month)
    || (a.year == b.year && a.month == b.month && a.day < b.day)
    || (a.year == b.year && a.month == b.month && a.day == b.day && a.tickOfDay < b.tickOfDay)
  }

  // ----- lemmas about the calendar -------------------------------------

  /** A year has 366 days when it is a leap year and 365 otherwise. */
  lemma YearLength(year: int)
    requires year >= 1
    ensures DaysBeforeYear(year + 1) - DaysBeforeYear(year)
            == if IsLeapYear(year) then 366 else 365
  {
    var y := year - 1;
    assert DaysBeforeYear(year + 1) - DaysBeforeYear(year)
        == 365 + (year / 4 - y / 4) - (year / 100 - y / 100) + (year / 400 - y / 400);
    QuotientStep(year, 4);
    QuotientStep(year, 100);
    QuotientStep(year, 400);
    DivisorChain(year);
  }

  /** A multiple of 400 is a multiple of 100, and a multiple of 100 is a multiple of 4. */
  lemma DivisorChain(n: int)
    ensures n % 400 == 0 ==> n % 100 == 0
    ensures n % 100 == 0 ==> n % 4 == 0
  {
    if n % 400 == 0 {
      MultipleHasNoRemainder(n, 100, 4 * (n / 400));
    }
    if n % 100 == 0 {
      MultipleHasNoRemainder(n, 4, 25 * (n / 100));
    }
  }

  lemma MultipleHasNoRemainder(n: int, k: int, q: int)
    requires k == 4 || k == 100
    requires n == k * q
    ensures n % k == 0
  {
    var d, m := n / k, n % k;
    assert k * (q - d) == m;
  }

  /** Going from `n - 1` to `n`, the quotient by a leap-year divisor grows by
      one exactly when `n` is a multiple of it. */
  lemma QuotientStep(n: int, k: int)
    requires n >= 1 && (k == 4 || k == 100 || k == 400)
    ensures n / k - (n - 1) / k == if n % k == 0 then 1 else 0
  {
    if k == 4 {
    } else if k == 100 {
    } else {
    }
  }

  /** Later years start later. */
  lemma {:induction false} DaysBeforeYearMonotone(a: int, b: int)
    requires 1 <= a <= b
    ensures DaysBeforeYear(a) + 365 * (b - a) <= DaysBeforeYear(b)
    decreases b - a
  {
    if a < b {
      YearLength(a);
      DaysBeforeYearMonotone(a + 1, b);
    }
  }

  /** Every month has at least 28 days, so the month table is increasing. */
  lemma DaysToMonthMonotone(leap: bool, m1: int, m2: int)
    requires 0 <= m1 <= m2 <= 12
    ensures DaysToMonth(leap, m1) + 28 * (m2 - m1) <= DaysToMonth(leap, m2)
  {
  }

  /** A date's day number lies inside its year. */
  lemma DayNumberBounds(c: Calendar)
    requires ValidCalendar(c)
    ensures DaysBeforeYear(c.year) <= DayNumber(c) < DaysBeforeYear(c.year + 1)
  {
    YearLength(c.year);
    DaysToMonthMonotone(IsLeapYear(c.year), c.month, 12);
  }

  /** Calendar order implies tick order. */
  lemma CalendarBeforeImpliesLess(a: Calendar, b: Calendar)
    requires ValidCalendar(a) && ValidCalendar(b)
    requires CalendarBefore(a, b)
    ensures Less(ToDateTime(a), ToDateTime(b))
  {
    if a.year < b.year {
      DayNumberBounds(a);
      DayNumberBounds(b);
      DaysBeforeYearMonotone(a.year + 1, b.year);
    } else if a.month < b.month {
      DaysToMonthMonotone(IsLeapYear(a.year), a.month, b.month - 1);
    }
    var da, db := DayNumber(a), DayNumber(b);
    assert da < db || (da == db && a.tickOfDay < b.tickOfDay);
    if da < db {
      assert (da + 1) * TicksPerDay <= db * TicksPerDay;
    }
  }

  /** Comparing two `DateTime`s built from calendar points is comparing the
      points lexicographically. */
  lemma ToDateTimeOrder(a: Calendar, b: Calendar)
    requires ValidCalendar(a) && ValidCalendar(b)
    ensures Less(ToDateTime(a), ToDateTime(b)) <==> CalendarBefore(a, b)
  {
    if CalendarBefore(a, b) {
      CalendarBeforeImpliesLess(a, b);
    } else if CalendarBefore(b, a) {
      CalendarBeforeImpliesLess(b, a);
    } else {
      assert a == b;
    }
  }
}
