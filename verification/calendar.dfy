/**
 * The coach's month calendar: month lengths and the weekday of the first of
 * the month (through JavaScript's `Date`), the `YYYY-MM-DD` key sessions are
 * filed under, the month grid, and moving between months.
 *
 * A `Date` is modelled by what its getters return: `getFullYear()`,
 * `getMonth()` (0 for January) and `getDate()`. Day numbers and weekdays
 * follow the ECMAScript definitions (`DayFromYear`, `WeekDay`, day 0 being
 * 1 January 1970, a Thursday).
 */
module Calendar {
  import opened Wrappers
  import opened Text
  import opened Seqs
  import TimeDisplay

  datatype CalDate = CalDate(year: int, month: int, day: int)

  datatype YearMonth = YearMonth(year: int, month: int)

  predicate IsLeap(y: int) {
    y % 4 == 0 && (y % 100 != 0 || y % 400 == 0)
  }

  /** The length of month `m` (0 for January) of year `y` in the Gregorian calendar. */
  function DaysInMonth(y: int, m: int): (n: int)
    requires 0 <= m < 12
    ensures 28 <= n <= 31
  {
    if m == 1 then (if IsLeap(y) then 29 else 28)
    else if m == 3 || m == 5 || m == 8 || m == 10 then 30
    else 31
  }

  function YearDays(y: int): int {
    if IsLeap(y) then 366 else 365
  }

  /** A date whose month and day exist. */
  predicate ValidDate(d: CalDate) {
    0 <= d.month < 12 && 1 <= d.day <= DaysInMonth(d.year, d.month)
  }

  /** ECMAScript `DayFromYear`: the day number of 1 January of year `y`. */
  function DayFromYear(y: int): int {
    365 * (y - 1970) + (y - 1969) / 4 - (y - 1901) / 100 + (y - 1601) / 400
  }

  /** The days of year `y` before month `m`. */
  function CumulativeDays(y: int, m: int): (c: int)
    requires 0 <= m <= 12
    ensures 28 * m <= c <= 31 * m
  {
    if m == 0 then 0 else CumulativeDays(y, m - 1) + DaysInMonth(y, m - 1)
  }

  /** The day number of a date, counted from 1 January 1970. */
  function DayNumber(d: CalDate): int
    requires 0 <= d.month < 12
  {
    DayFromYear(d.year) + CumulativeDays(d.year, d.month) + d.day - 1
  }

  /** ECMAScript `WeekDay`: 0 for Sunday; day 0 was a Thursday. */
  function WeekDay(d: CalDate): (w: int)
    requires 0 <= d.month < 12
    ensures 0 <= w < 7
  {
    (DayNumber(d) + 4) % 7
  }

  /** The month lengths add up to the year's length. */
  lemma MonthsFillYear(y: int)
    ensures CumulativeDays(y, 12) == YearDays(y)
  {
    var feb := DaysInMonth(y, 1);
    assert CumulativeDays(y, 1) == 31;
    assert CumulativeDays(y, 2) == 31 + feb;
    assert CumulativeDays(y, 3) == 62 + feb;
    assert CumulativeDays(y, 4) == 92 + feb;
    assert CumulativeDays(y, 5) == 123 + feb;
    assert CumulativeDays(y, 6) == 153 + feb;
    assert CumulativeDays(y, 7) == 184 + feb;
    assert CumulativeDays(y, 8) == 215 + feb;
    assert CumulativeDays(y, 9) == 245 + feb;
    assert CumulativeDays(y, 10) == 276 + feb;
    assert CumulativeDays(y, 11) == 306 + feb;
  }

  /** The ECMAScript year formula steps by 366 after a leap year and 365 after any other. */
  lemma YearStep(y: int)
    ensures DayFromYear(y + 1) == DayFromYear(y) + YearDays(y)
  {
    var step4 := (y - 1968) / 4 - (y - 1969) / 4;
    var step100 := (y - 1900) / 100 - (y - 1901) / 100;
    var step400 := (y - 1600) / 400 - (y - 1601) / 400;
    assert DayFromYear(y + 1) - DayFromYear(y) == 365 + step4 - step100 + step400;
    Step4(y);
    Step100(y);
    Step400(y);
    DivisibilityChain(y);
    if y % 4 != 0 {
      assert step4 == 0 && step100 == 0 && step400 == 0;
    } else if y % 100 != 0 {
      assert step4 == 1 && step100 == 0 && step400 == 0;
    } else if y % 400 != 0 {
      assert step4 == 1 && step100 == 1 && step400 == 0;
    } else {
      assert step4 == 1 && step100 == 1 && step400 == 1;
    }
  }

  /** A multiple of 400 is one of 100, and a multiple of 100 is one of 4. */
  lemma DivisibilityChain(y: int)
    ensures y % 400 == 0 ==> y % 100 == 0
    ensures y % 100 == 0 ==> y % 4 == 0
  {
    if y % 400 == 0 {
      MultipleOf100(y, 4 * (y / 400));
    }
    if y % 100 == 0 {
      MultipleOf4(y, 25 * (y / 100));
    }
  }

  lemma MultipleOf100(y: int, k: int)
    requires y == 100 * k
    ensures y % 100 == 0
  {
  }

  lemma MultipleOf4(y: int, k: int)
    requires y == 4 * k
    ensures y % 4 == 0
  {
  }

  /** The count of multiples of 4 in the formula grows by one exactly at a multiple of 4. */
  lemma Step4(y: int)
    ensures (y - 1968) / 4 - (y - 1969) / 4 == if y % 4 == 0 then 1 else 0
  {
    var q, r := y / 4, y % 4;
    assert y - 1968 == 4 * (q - 492) + r;
    assert (y - 1968) / 4 == q - 492;
    if r == 0 {
      assert y - 1969 == 4 * (q - 493) + 3;
    } else {
      assert y - 1969 == 4 * (q - 492) + (r - 1);
    }
  }

  /** Likewise for the multiples of 100. */
  lemma Step100(y: int)
    ensures (y - 1900) / 100 - (y - 1901) / 100 == if y % 100 == 0 then 1 else 0
  {
    var q, r := y / 100, y % 100;
    assert y - 1900 == 100 * (q - 19) + r;
    assert (y - 1900) / 100 == q - 19;
    if r == 0 {
      assert y - 1901 == 100 * (q - 20) + 99;
    } else {
      assert y - 1901 == 100 * (q - 19) + (r - 1);
    }
  }

  /** Likewise for the multiples of 400. */
  lemma Step400(y: int)
    ensures (y - 1600) / 400 - (y - 1601) / 400 == if y % 400 == 0 then 1 else 0
  {
    var q, r := y / 400, y % 400;
    assert y - 1600 == 400 * (q - 4) + r;
    assert (y - 1600) / 400 == q - 4;
    if r == 0 {
      assert y - 1601 == 400 * (q - 5) + 399;
    } else {
      assert y - 1601 == 400 * (q - 4) + (r - 1);
    }
  }

  /** The first of the month that follows month `m` of year `y`. */
  function FollowingMonth(ym: YearMonth): YearMonth
    requires 0 <= ym.month < 12
  {
    if ym.month == 11 then YearMonth(ym.year + 1, 0) else YearMonth(ym.year, ym.month + 1)
  }

  /** A month's first day plus its length is the next month's first day. */
  lemma MonthStep(ym: YearMonth)
    requires 0 <= ym.month < 12
    ensures var next := FollowingMonth(ym);
            DayNumber(CalDate(next.year, next.month, 1)) ==
            DayNumber(CalDate(ym.year, ym.month, 1)) + DaysInMonth(ym.year, ym.month)
  {
    if ym.month == 11 {
      MonthsFillYear(ym.year);
      YearStep(ym.year);
    }
  }

  /** The months of one `Date` overflow into years: month 12 is January of the next year, -1 December before. */
  function NormalizeMonth(y: int, m: int): (ym: YearMonth)
    ensures 0 <= ym.month < 12
    ensures ym.year * 12 + ym.month == y * 12 + m
  {
    YearMonth(y + m / 12, m % 12)
  }

  /** A month index already in 0..11 is left as it is. */
  lemma NormalizeInRange(y: int, m: int)
    requires 0 <= m < 12
    ensures NormalizeMonth(y, m) == YearMonth(y, m)
  {
    assert m / 12 == 0 && m % 12 == m;
  }

  /** The month before a normalised one. */
  lemma NormalizeNext(y: int, m: int)
    requires 0 <= m < 12
    ensures NormalizeMonth(y, m + 1) == FollowingMonth(YearMonth(y, m))
  {
    if m == 11 {
      assert (m + 1) / 12 == 1 && (m + 1) % 12 == 0;
    } else {
      assert (m + 1) / 12 == 0 && (m + 1) % 12 == m + 1;
    }
  }

  lemma NormalizeBefore(ym: YearMonth)
    requires 0 <= ym.month < 12
    ensures FollowingMonth(NormalizeMonth(ym.year, ym.month - 1)) == ym
  {
  }

  /**
   * `new Date(y, m, d)` for the days the calendar passes (0 up to the month's
   * length): day 0 is the last day of the month before. Its day number is
   * the first of the normalised month plus `d - 1`, as ECMAScript `MakeDay`
   * defines it.
   */
  function MakeDate(y: int, m: int, d: int): (r: CalDate)
    requires 0 <= d <= DaysInMonth(NormalizeMonth(y, m).year, NormalizeMonth(y, m).month)
    ensures ValidDate(r)
    ensures var ym := NormalizeMonth(y, m);
            DayNumber(r) == DayNumber(CalDate(ym.year, ym.month, 1)) + d - 1
  {
    var ym := NormalizeMonth(y, m);
    if d == 0 then
      var prev := NormalizeMonth(ym.year, ym.month - 1);
      NormalizeBefore(ym);
      MonthStep(prev);
      CalDate(prev.year, prev.month, DaysInMonth(prev.year, prev.month))
    else
      CalDate(ym.year, ym.month, d)
  }

  /**
   * `getDaysInMonth`: the date of day 0 of the next month, which is the
   * Gregorian length of this one.
   */
  function GetDaysInMonth(year: int, month: int): (n: int)
    requires 0 <= month < 12
    ensures n == DaysInMonth(year, month)
  {
    DayZeroIsLastDay(year, month);
    MakeDate(year, month + 1, 0).day
  }

  /** Day 0 of the next month is the last day of this one. */
  lemma DayZeroIsLastDay(year: int, month: int)
    requires 0 <= month < 12
    ensures MakeDate(year, month + 1, 0).day == DaysInMonth(year, month)
  {
    var ym := YearMonth(year, month);
    var next := FollowingMonth(ym);
    NormalizeNext(year, month);
    var r := MakeDate(year, month + 1, 0);
    MonthStep(ym);
    var n := DaysInMonth(year, month);
    var last := CalDate(year, month, n);
    assert DayNumber(r) == DayNumber(CalDate(next.year, next.month, 1)) - 1;
    assert DayNumber(last) == DayNumber(CalDate(year, month, 1)) + n - 1;
    DayNumberInjective(r, last);
  }

  /** The Gregorian month lengths: 31 or 30 days, February 29 days in leap years and 28 otherwise. */
  lemma MonthLengths(year: int, month: int)
    requires 0 <= month < 12
    ensures GetDaysInMonth(year, month) == 31 <==> month in {0, 2, 4, 6, 7, 9, 11}
    ensures GetDaysInMonth(year, month) == 30 <==> month in {3, 5, 8, 10}
    ensures month == 1 ==> (GetDaysInMonth(year, month) == 29 <==> IsLeap(year))
    ensures month == 1 ==> (GetDaysInMonth(year, month) == 28 <==> !IsLeap(year))
  {
  }

  /** The days of a month come before those of any later month, so valid dates have distinct day numbers. */
  lemma {:induction false} CumulativeMonotone(y: int, m: int, n: int)
    requires 0 <= m < n <= 12
    ensures CumulativeDays(y, n) >= CumulativeDays(y, m) + DaysInMonth(y, m)
    decreases n
  {
    if n > m + 1 {
      CumulativeMonotone(y, m, n - 1);
    }
  }

  lemma {:induction false} DayFromYearMonotone(y: int, z: int)
    requires y <= z
    ensures DayFromYear(y) <= DayFromYear(z)
    decreases z - y
  {
    if y < z {
      YearStep(y);
      DayFromYearMonotone(y + 1, z);
    }
  }

  /** A valid date's day number lies within its year. */
  lemma DayNumberInYear(d: CalDate)
    requires ValidDate(d)
    ensures DayFromYear(d.year) <= DayNumber(d) < DayFromYear(d.year + 1)
  {
    CumulativeLess(d.year, d.month);
    YearStep(d.year);
    var start := DayFromYear(d.year);
    assert DayNumber(d) == start + CumulativeDays(d.year, d.month) + d.day - 1;
    assert CumulativeDays(d.year, d.month) + d.day <= YearDays(d.year);
  }

  /** Day numbers follow the calendar order of valid dates. */
  lemma DayNumberOrder(a: CalDate, b: CalDate)
    requires ValidDate(a) && ValidDate(b)
    requires a.year < b.year || (a.year == b.year && (a.month < b.month || (a.month == b.month && a.day < b.day)))
    ensures DayNumber(a) < DayNumber(b)
  {
    if a.year < b.year {
      DayNumberInYear(a);
      DayNumberInYear(b);
      DayFromYearMonotone(a.year + 1, b.year);
    } else if a.month < b.month {
      CumulativeMonotone(a.year, a.month, b.month);
    }
  }

  lemma DayNumberInjective(a: CalDate, b: CalDate)
    requires ValidDate(a) && ValidDate(b)
    requires DayNumber(a) == DayNumber(b)
    ensures a == b
  {
    if a != b {
      if a.year < b.year || (a.year == b.year && (a.month < b.month || (a.month == b.month && a.day < b.day))) {
        DayNumberOrder(a, b);
      } else {
        DayNumberOrder(b, a);
      }
      assert false;
    }
  }

  /** A date's offset in its year is below 366 and below the year's length. */
  lemma CumulativeLess(y: int, m: int)
    requires 0 <= m < 12
    ensures CumulativeDays(y, m) + DaysInMonth(y, m) <= YearDays(y)
  {
    MonthsFillYear(y);
    if m < 11 {
      CumulativeMonotone(y, m, 12);
    }
  }

  /** `getFirstDayOfMonth`: the weekday (0 for Sunday) of day 1. */
  function GetFirstDayOfMonth(year: int, month: int): (w: int)
    requires 0 <= month < 12
    ensures 0 <= w < 7
  {
    WeekDay(MakeDate(year, month, 1))
  }

  /** Each month starts `DaysInMonth` weekdays after the month before it started. */
  lemma FirstDayStep(year: int, month: int)
    requires 0 <= month < 12
    ensures var next := FollowingMonth(YearMonth(year, month));
            GetFirstDayOfMonth(next.year, next.month) ==
            (GetFirstDayOfMonth(year, month) + DaysInMonth(year, month)) % 7
  {
    var next := FollowingMonth(YearMonth(year, month));
    MonthStep(YearMonth(year, month));
    FirstDayIsWeekDay(year, month);
    FirstDayIsWeekDay(next.year, next.month);
    WeekDayAdvance(CalDate(year, month, 1), CalDate(next.year, next.month, 1), DaysInMonth(year, month));
  }

  /** A date `n` days after another falls `n` weekdays later. */
  lemma WeekDayAdvance(d: CalDate, e: CalDate, n: int)
    requires 0 <= d.month < 12 && 0 <= e.month < 12
    requires DayNumber(e) == DayNumber(d) + n
    ensures WeekDay(e) == (WeekDay(d) + n) % 7
  {
    ModAdd(DayNumber(d) + 4, n);
  }

  lemma ModAdd(x: int, n: int)
    ensures (x + n) % 7 == (x % 7 + n) % 7
  {
    var q := x / 7;
    assert x == 7 * q + x % 7;
    assert x + n == 7 * q + (x % 7 + n);
  }

  /** For a month in range, `new Date(y, m, d)` with a day of that month is that very date. */
  lemma MakeDateInRange(y: int, m: int, d: int)
    requires 0 <= m < 12 && 1 <= d <= DaysInMonth(y, m)
    ensures d <= DaysInMonth(NormalizeMonth(y, m).year, NormalizeMonth(y, m).month)
    ensures MakeDate(y, m, d) == CalDate(y, m, d)
  {
    NormalizeInRange(y, m);
  }

  lemma FirstDayIsWeekDay(y: int, m: int)
    requires 0 <= m < 12
    ensures GetFirstDayOfMonth(y, m) == WeekDay(CalDate(y, m, 1))
  {
    MakeDateInRange(y, m, 1);
  }

  /** Day 0 of the ECMAScript count, 1 January 1970, was a Thursday. */
  lemma EpochIsThursday()
    ensures WeekDay(CalDate(1970, 0, 1)) == 4
  {
    assert DayNumber(CalDate(1970, 0, 1)) == 0;
  }

  /** 1 July 2025 was a Tuesday. */
  lemma July2025IsTuesday()
    ensures WeekDay(CalDate(2025, 6, 1)) == 2
  {
    assert DayFromYear(2025) == 20089;
    assert CumulativeDays(2025, 6) == 181 by {
      assert CumulativeDays(2025, 2) == 59;
    }
    assert DayNumber(CalDate(2025, 6, 1)) == 20270;
  }

  /** `getFirstDayOfMonth` on two known months. */
  lemma KnownFirstDays()
    ensures GetFirstDayOfMonth(1970, 0) == 4
    ensures GetFirstDayOfMonth(2025, 6) == 2
  {
    FirstDayIsWeekDay(1970, 0);
    EpochIsThursday();
    FirstDayIsWeekDay(2025, 6);
    July2025IsTuesday();
  }

  // ---------------------------------------------------------------------------
  // Date keys

  /** `String(n).padStart(2, "0")`. */
  function Pad2(n: nat): string {
    PadStart(NatToString(n), 2, '0')
  }

  /**
   * `formatDate`: the year as printed by `String`, then the 1-based month and
   * the day, each zero-padded to two digits, joined by '-'.
   */
  function FormatDate(d: CalDate): (key: string)
    requires ValidDate(d)
    ensures KeyFields(key, d)
  {
    KeyOfParts(d);
    IntToString(d.year) + "-" + Pad2(d.month + 1) + "-" + Pad2(d.day)
  }

  /**
   * The key is the year's numeral followed by "-MM-DD": two digits that read
   * back as the 1-based month and two that read back as the day.
   */
  lemma KeyOfParts(d: CalDate)
    requires ValidDate(d)
    ensures KeyFields(IntToString(d.year) + "-" + Pad2(d.month + 1) + "-" + Pad2(d.day), d)
  {
    var y, mm, dd := IntToString(d.year), Pad2(d.month + 1), Pad2(d.day);
    TwoDigitRoundTrip(d.month + 1);
    TwoDigitRoundTrip(d.day);
    assert |mm| == 2 && AllDigits(mm) && DigitsValue(mm) == d.month + 1;
    assert |dd| == 2 && AllDigits(dd) && DigitsValue(dd) == d.day;
    KeySlices(y, mm, dd);
  }

  /** The pieces of `y + "-" + mm + "-" + dd` sit at fixed places from its end. */
  lemma KeySlices(y: string, mm: string, dd: string)
    requires |mm| == 2 && |dd| == 2
    ensures var s := y + "-" + mm + "-" + dd;
            var n := |s|;
            && n == |y| + 6
            && s[..n - 6] == y && s[n - 6] == '-' && s[n - 5..n - 3] == mm
            && s[n - 3] == '-' && s[n - 2..] == dd
  {
    var s := y + "-" + mm + "-" + dd;
    assert s == y + (['-'] + mm + ['-'] + dd);
  }

  /** How the year, month and day can be read back from a key. */
  predicate KeyFields(s: string, d: CalDate) {
    var n := |s|;
    && n == |IntToString(d.year)| + 6
    && s[..n - 6] == IntToString(d.year)
    && s[n - 6] == '-' && s[n - 3] == '-'
    && AllDigits(s[n - 5..n - 3]) && DigitsValue(s[n - 5..n - 3]) == d.month + 1
    && AllDigits(s[n - 2..]) && DigitsValue(s[n - 2..]) == d.day
  }

  /** Different dates get different keys, so a key names one day. */
  lemma FormatDateInjective(a: CalDate, b: CalDate)
    requires ValidDate(a) && ValidDate(b)
    requires FormatDate(a) == FormatDate(b)
    ensures a == b
  {
    OneDatePerKey(FormatDate(a), a, b);
  }

  /** A key reads back as one date only. */
  lemma OneDatePerKey(s: string, a: CalDate, b: CalDate)
    requires KeyFields(s, a) && KeyFields(s, b)
    ensures a == b
  {
    IntToStringRoundTrip(a.year);
    IntToStringRoundTrip(b.year);
  }

  lemma FormatDateExample()
    ensures FormatDate(CalDate(2025, 6, 5)) == "2025-07-05"
  {
    assert NatToString(2025) == "2025" by {
      assert NatToString(202) == "202" by {
        assert NatToString(20) == "20";
      }
    }
  }

  // ---------------------------------------------------------------------------
  // Sessions and the grid

  /** A coach session as the calendar lists it. */
  datatype Session = Session(
    id: string,
    date: string,
    time: string,
    duration: string,
    playerName: string,
    playerEmail: string,
    playerPhone: Option<string>,
    kind: string,
    status: string)

  /** `getSessionsForDate`: the sessions filed under the date's key, in list order. */
  function SessionsForDate(sessions: seq<Session>, date: CalDate): (r: seq<Session>)
    requires ValidDate(date)
    ensures Subsequence(r, sessions)
    ensures forall s :: s in r <==> s in sessions && s.date == FormatDate(date)
  {
    SelectIsSubsequence(sessions, (s: Session) => s.date == FormatDate(date));
    SelectMembers(sessions, (s: Session) => s.date == FormatDate(date));
    Select(sessions, (s: Session) => s.date == FormatDate(date))
  }

  /** A session is listed for a day iff its key is that day's key; none is listed for two days. */
  lemma SessionsForDateExactly(sessions: seq<Session>, date: CalDate, other: CalDate)
    requires ValidDate(date) && ValidDate(other)
    ensures forall s :: s in SessionsForDate(sessions, date) <==> s in sessions && s.date == FormatDate(date)
    ensures date != other ==>
              forall s :: s in SessionsForDate(sessions, date) ==> s !in SessionsForDate(sessions, other)
  {
    SelectMembers(sessions, (s: Session) => s.date == FormatDate(date));
    SelectMembers(sessions, (s: Session) => s.date == FormatDate(other));
    if date != other && FormatDate(date) == FormatDate(other) {
      FormatDateInjective(date, other);
    }
  }

  datatype Cell =
    | Blank
    | DayCell(day: int, sessionCount: nat, selected: bool)

  /** A day is highlighted iff a date is selected and its day, month and year all agree. */
  predicate IsSelected(selected: Option<CalDate>, year: int, month: int, day: int) {
    selected.Some? && day == selected.value.day && month == selected.value.month &&
    year == selected.value.year
  }

  /** The cell of one day: its number, how many sessions it holds, and whether it is selected. */
  function DayCellFor(year: int, month: int, day: int, selected: Option<CalDate>, sessions: seq<Session>): Cell
    requires 0 <= month < 12 && 1 <= day <= DaysInMonth(year, month)
  {
    DayCell(day, |SessionsForDate(sessions, CalDate(year, month, day))|, IsSelected(selected, year, month, day))
  }

  /** The body of the day loop: the day's date, its sessions and whether it is the selected one. */
  method BuildDayCell(year: int, month: int, day: int, selected: Option<CalDate>, sessions: seq<Session>)
    returns (cell: Cell)
    requires 0 <= month < 12 && 1 <= day <= DaysInMonth(year, month)
    ensures cell == DayCellFor(year, month, day, selected, sessions)
  {
    MakeDateInRange(year, month, day);
    var date := MakeDate(year, month, day);
    var sessionsForDay := SessionsForDate(sessions, date);
    var isSelected := selected.Some? && day == selected.value.day &&
                      month == selected.value.month && year == selected.value.year;
    cell := DayCell(day, |sessionsForDay|, isSelected);
  }

  /**
   * `generateCalendarDays`: one blank per weekday before the first, then the
   * days of the month in order.
   */
  method GenerateCalendarDays(year: int, month: int, selected: Option<CalDate>, sessions: seq<Session>)
    returns (cells: seq<Cell>)
    requires 0 <= month < 12
    ensures |cells| == GetFirstDayOfMonth(year, month) + DaysInMonth(year, month)
    ensures forall i :: 0 <= i < GetFirstDayOfMonth(year, month) ==> cells[i] == Blank
    ensures forall i :: GetFirstDayOfMonth(year, month) <= i < |cells| ==>
              cells[i] == DayCellFor(year, month, i - GetFirstDayOfMonth(year, month) + 1, selected, sessions)
  {
    var daysInMonth := GetDaysInMonth(year, month);
    var firstDayOfMonth := GetFirstDayOfMonth(year, month);
    cells := [];

    var i := 0;
    while i < firstDayOfMonth
      invariant 0 <= i <= firstDayOfMonth
      invariant |cells| == i
      invariant forall k :: 0 <= k < i ==> cells[k] == Blank
    {
      cells := cells + [Blank];
      i := i + 1;
    }

    cells := AppendDays(cells, year, month, daysInMonth, selected, sessions);
  }

  /** The day loop of `generateCalendarDays`: one cell per day of the month, after the blanks. */
  method AppendDays(blanks: seq<Cell>, year: int, month: int, daysInMonth: int,
                    selected: Option<CalDate>, sessions: seq<Session>)
    returns (cells: seq<Cell>)
    requires 0 <= month < 12 && daysInMonth == DaysInMonth(year, month)
    ensures |cells| == |blanks| + daysInMonth
    ensures cells[..|blanks|] == blanks
    ensures forall i :: |blanks| <= i < |cells| ==>
              cells[i] == DayCellFor(year, month, i - |blanks| + 1, selected, sessions)
  {
    cells := blanks;
    var day := 1;
    while day <= daysInMonth
      invariant 1 <= day <= daysInMonth + 1
      invariant |cells| == |blanks| + day - 1
      invariant cells[..|blanks|] == blanks
      invariant forall k :: |blanks| <= k < |cells| ==>
                  cells[k] == DayCellFor(year, month, k - |blanks| + 1, selected, sessions)
    {
      var cell := BuildDayCell(year, month, day, selected, sessions);
      cells := cells + [cell];
      day := day + 1;
    }
  }

  /**
   * The text under a day with sessions: "1 session", "2 sessions", ...; the
   * count's numeral, then the word, with the plural "s" iff the count is not 1.
   */
  function SessionLabel(count: nat): (l: string)
    ensures |l| > |NatToString(count)| && l[..|NatToString(count)|] == NatToString(count)
    ensures l[|l| - 1] == 's' <==> count != 1
  {
    NatToString(count) + " session" + (if count != 1 then "s" else "")
  }

  // ---------------------------------------------------------------------------
  // Navigation

  /** `new Date(year, month - 1, 1)`: the first of the month before. */
  function PrevMonthStart(d: CalDate): (r: CalDate)
    ensures ValidDate(r) && r.day == 1
    ensures MonthIndex(r) == MonthIndex(d) - 1
  {
    MakeDate(d.year, d.month - 1, 1)
  }

  /** `new Date(year, month + 1, 1)`: the first of the month after. */
  function NextMonthStart(d: CalDate): (r: CalDate)
    ensures ValidDate(r) && r.day == 1
    ensures MonthIndex(r) == MonthIndex(d) + 1
  {
    MakeDate(d.year, d.month + 1, 1)
  }

  /** The month counted from year 0. */
  function MonthIndex(d: CalDate): int {
    d.year * 12 + d.month
  }

  /** Going back from January gives December of the year before; otherwise the month before. */
  lemma PrevMonthWraps(d: CalDate)
    requires ValidDate(d)
    ensures d.month == 0 ==> PrevMonthStart(d) == CalDate(d.year - 1, 11, 1)
    ensures d.month > 0 ==> PrevMonthStart(d) == CalDate(d.year, d.month - 1, 1)
    ensures MonthIndex(PrevMonthStart(d)) == MonthIndex(d) - 1
  {
  }

  /** Going on from December gives January of the next year; otherwise the month after. */
  lemma NextMonthWraps(d: CalDate)
    requires ValidDate(d)
    ensures d.month == 11 ==> NextMonthStart(d) == CalDate(d.year + 1, 0, 1)
    ensures d.month < 11 ==> NextMonthStart(d) == CalDate(d.year, d.month + 1, 1)
    ensures MonthIndex(NextMonthStart(d)) == MonthIndex(d) + 1
  {
  }

  /** Back and forth, or forth and back, returns to the first of the same month. */
  lemma NavigationRoundTrip(d: CalDate)
    requires ValidDate(d)
    ensures NextMonthStart(PrevMonthStart(d)) == CalDate(d.year, d.month, 1)
    ensures PrevMonthStart(NextMonthStart(d)) == CalDate(d.year, d.month, 1)
  {
    PrevMonthWraps(d);
    NextMonthWraps(d);
    NextMonthWraps(PrevMonthStart(d));
    PrevMonthWraps(NextMonthStart(d));
  }

  /** After a click on day `day` of the shown month, that cell and no other is selected. */
  lemma ClickSelectsOneDay(shown: CalDate, day: int, other: int)
    requires ValidDate(shown) && 1 <= day <= DaysInMonth(shown.year, shown.month)
    ensures IsSelected(Some(MakeDate(shown.year, shown.month, day)), shown.year, shown.month, other) <==>
            other == day
  {
  }

  /** The calendar's state: the month on show (as a date in it) and the selected day. */
  class ScheduleCalendar {
    var currentDate: CalDate
    var selectedDate: Option<CalDate>
    const sessions: seq<Session>

    predicate Valid()
      reads this
    {
      ValidDate(currentDate) && (selectedDate.Some? ==> ValidDate(selectedDate.value))
    }

    /** Opens on today's date with nothing selected. */
    constructor (today: CalDate, sessions: seq<Session>)
      requires ValidDate(today)
      ensures Valid() && currentDate == today && selectedDate.None? && this.sessions == sessions
    {
      currentDate := today;
      selectedDate := None;
      this.sessions := sessions;
    }

    /** `prevMonth`: show the first of the month before and clear the selection. */
    method PrevMonth()
      requires Valid()
      modifies this
      ensures Valid()
      ensures currentDate == PrevMonthStart(old(currentDate)) && selectedDate.None?
    {
      currentDate := MakeDate(currentDate.year, currentDate.month - 1, 1);
      selectedDate := None;
    }

    /** `nextMonth`: show the first of the month after and clear the selection. */
    method NextMonth()
      requires Valid()
      modifies this
      ensures Valid()
      ensures currentDate == NextMonthStart(old(currentDate)) && selectedDate.None?
    {
      currentDate := MakeDate(currentDate.year, currentDate.month + 1, 1);
      selectedDate := None;
    }

    /** `handleDateClick`: select day `day` of the month on show. */
    method HandleDateClick(day: int)
      requires Valid() && 1 <= day <= DaysInMonth(currentDate.year, currentDate.month)
      modifies this
      ensures Valid() && currentDate == old(currentDate)
      ensures selectedDate == Some(MakeDate(currentDate.year, currentDate.month, day))
    {
      selectedDate := Some(MakeDate(currentDate.year, currentDate.month, day));
    }

    /** The grid for the month on show. */
    method Days() returns (cells: seq<Cell>)
      requires Valid()
      ensures |cells| == GetFirstDayOfMonth(currentDate.year, currentDate.month) +
                         DaysInMonth(currentDate.year, currentDate.month)
      ensures forall i :: 0 <= i < GetFirstDayOfMonth(currentDate.year, currentDate.month) ==> cells[i] == Blank
      ensures forall i :: GetFirstDayOfMonth(currentDate.year, currentDate.month) <= i < |cells| ==>
                cells[i] == DayCellFor(currentDate.year, currentDate.month,
                                       i - GetFirstDayOfMonth(currentDate.year, currentDate.month) + 1,
                                       selectedDate, sessions)
    {
      cells := GenerateCalendarDays(currentDate.year, currentDate.month, selectedDate, sessions);
    }
  }
}
