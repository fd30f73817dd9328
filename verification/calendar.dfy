/** Civil dates of the proleptic Gregorian calendar, their numbering as days
    since 1970-01-01, and month addition with the semantics of
    `java.util.Calendar.add(Calendar.MONTH, n)`: the month index moves by `n`
    (carrying into the year), and the day of the month is kept when the target
    month has it and otherwise pinned to that month's last day; the time of
    day is kept.

    Instants are converted to local date-times through a zone with a fixed
    offset from UTC. */
module Calendar {

  const MsPerDay: int := 86_400_000

  predicate IsLeapYear(y: int) {
    (y % 4 == 0 && y % 100 != 0) || y % 400 == 0
  }

  function DaysInYear(y: int): int {
    if IsLeapYear(y) then 366 else 365
  }

  function DaysInMonth(y: int, m: int): (n: int)
    requires 1 <= m <= 12
    ensures 28 <= n <= 31
  {
    if m == 2 then (if IsLeapYear(y) then 29 else 28)
    else if m == 4 || m == 6 || m == 9 || m == 11 then 30
    else 31
  }

  /** A calendar day: `month` is 1..12 and `day` is 1-based. */
  datatype Date = Date(year: int, month: int, day: int)

  predicate ValidDate(d: Date) {
    1 <= d.month <= 12 && 1 <= d.day <= DaysInMonth(d.year, d.month)
  }

  /** Lexicographic order of (year, month, day). */
  predicate Before(a: Date, b: Date) {
    a.year < b.year
    || (a.year == b.year && a.month < b.month)
    || (a.year == b.year && a.month == b.month && a.day < b.day)
  }

  /** Days of year `y` that precede the first of month `m`. */
  function DaysBeforeMonth(y: int, m: int): int
    requires 1 <= m <= 13
  {
    if m == 1 then 0 else DaysBeforeMonth(y, m - 1) + DaysInMonth(y, m - 1)
  }

  lemma DaysBeforeMonthFullYear(y: int)
    ensures DaysBeforeMonth(y, 13) == DaysInYear(y)
  {
    assert DaysBeforeMonth(y, 2) == 31;
    assert DaysBeforeMonth(y, 3) == 31 + DaysInMonth(y, 2);
    assert DaysBeforeMonth(y, 4) == DaysBeforeMonth(y, 3) + 31;
    assert DaysBeforeMonth(y, 5) == DaysBeforeMonth(y, 3) + 61;
    assert DaysBeforeMonth(y, 6) == DaysBeforeMonth(y, 3) + 92;
    assert DaysBeforeMonth(y, 7) == DaysBeforeMonth(y, 3) + 122;
    assert DaysBeforeMonth(y, 8) == DaysBeforeMonth(y, 3) + 153;
    assert DaysBeforeMonth(y, 9) == DaysBeforeMonth(y, 3) + 184;
    assert DaysBeforeMonth(y, 10) == DaysBeforeMonth(y, 3) + 214;
    assert DaysBeforeMonth(y, 11) == DaysBeforeMonth(y, 3) + 245;
    assert DaysBeforeMonth(y, 12) == DaysBeforeMonth(y, 3) + 275;
    assert DaysBeforeMonth(y, 13) == DaysBeforeMonth(y, 3) + 306;
  }

  lemma {:induction false} DaysBeforeMonthMonotone(y: int, m1: int, m2: int)
    requires 1 <= m1 <= m2 <= 13
    ensures DaysBeforeMonth(y, m1) <= DaysBeforeMonth(y, m2)
    decreases m2 - m1
  {
    if m1 < m2 {
      DaysBeforeMonthMonotone(y, m1, m2 - 1);
    }
  }

  /** Days from 1970-01-01 to the first of January of year `y` (negative before 1970). */
  function DaysBeforeYear(y: int): int
    decreases if y >= 1970 then y - 1970 else 1970 - y
  {
    if y == 1970 then 0
    else if y > 1970 then DaysBeforeYear(y - 1) + DaysInYear(y - 1)
    else DaysBeforeYear(y + 1) - DaysInYear(y)
  }

  lemma DaysBeforeNextYear(y: int)
    ensures DaysBeforeYear(y + 1) == DaysBeforeYear(y) + DaysInYear(y)
  {
  }

  lemma {:induction false} DaysBeforeYearMonotone(y1: int, y2: int)
    requires y1 <= y2
    ensures DaysBeforeYear(y1) <= DaysBeforeYear(y2)
    decreases y2 - y1
  {
    if y1 < y2 {
      DaysBeforeYearMonotone(y1, y2 - 1);
      DaysBeforeNextYear(y2 - 1);
    }
  }

  /** The number of the day `d` counted from 1970-01-01 (day 0). */
  function EpochDay(d: Date): int
    requires ValidDate(d)
  {
    DaysBeforeYear(d.year) + DaysBeforeMonth(d.year, d.month) + d.day - 1
  }

  /** An earlier date has a smaller day number: the numbering is strictly monotone. */
  lemma EpochDayMonotone(a: Date, b: Date)
    requires ValidDate(a) && ValidDate(b) && Before(a, b)
    ensures EpochDay(a) < EpochDay(b)
  {
    if a.year < b.year {
      assert DaysBeforeMonth(a.year, a.month + 1) == DaysBeforeMonth(a.year, a.month) + DaysInMonth(a.year, a.month);
      DaysBeforeMonthMonotone(a.year, a.month + 1, 13);
      DaysBeforeMonthFullYear(a.year);
      DaysBeforeNextYear(a.year);
      DaysBeforeYearMonotone(a.year + 1, b.year);
      DaysBeforeMonthMonotone(b.year, 1, b.month);
    } else if a.month < b.month {
      DaysBeforeMonthMonotone(a.year, a.month + 1, b.month);
    }
  }

  lemma EpochDayInjective(a: Date, b: Date)
    requires ValidDate(a) && ValidDate(b) && EpochDay(a) == EpochDay(b)
    ensures a == b
  {
    if Before(a, b) {
      EpochDayMonotone(a, b);
    } else if Before(b, a) {
      EpochDayMonotone(b, a);
    }
  }

  /** The date `r` days into year `y`, scanning months from `m` on. */
  function DateInYearFrom(y: int, m: int, r: int): (d: Date)
    requires 1 <= m <= 12
    requires 0 <= r < DaysInYear(y) - DaysBeforeMonth(y, m)
    ensures ValidDate(d) && d.year == y
    ensures DaysBeforeMonth(y, d.month) + d.day - 1 == DaysBeforeMonth(y, m) + r
    decreases 12 - m
  {
    if r < DaysInMonth(y, m) then Date(y, m, r + 1)
    else
      DaysBeforeMonthFullYear(y);
      DateInYearFrom(y, m + 1, r - DaysInMonth(y, m))
  }

  /** The date whose number is `DaysBeforeYear(y) + r`, for `r >= 0`. */
  function DateForward(y: int, r: int): (d: Date)
    requires r >= 0
    ensures ValidDate(d) && EpochDay(d) == DaysBeforeYear(y) + r
    decreases r
  {
    if r < DaysInYear(y) then DateInYearFrom(y, 1, r)
    else
      DaysBeforeNextYear(y);
      DateForward(y + 1, r - DaysInYear(y))
  }

  /** The date whose number is `DaysBeforeYear(y) + r`, for `r < 0`. */
  function DateBackward(y: int, r: int): (d: Date)
    requires r < 0
    ensures ValidDate(d) && EpochDay(d) == DaysBeforeYear(y) + r
    decreases -r
  {
    DaysBeforeNextYear(y - 1);
    var r' := r + DaysInYear(y - 1);
    if r' >= 0 then DateInYearFrom(y - 1, 1, r')
    else DateBackward(y - 1, r')
  }

  /** The date with day number `n`: the inverse of `EpochDay`. */
  function DateOfEpochDay(n: int): (d: Date)
    ensures ValidDate(d) && EpochDay(d) == n
  {
    if n >= 0 then DateForward(1970, n) else DateBackward(1970, n)
  }

  lemma EpochDayRoundTrip(d: Date)
    requires ValidDate(d)
    ensures DateOfEpochDay(EpochDay(d)) == d
  {
    EpochDayInjective(DateOfEpochDay(EpochDay(d)), d);
  }

  /** `Calendar.add(MONTH, n)` on a date. */
  function AddMonths(d: Date, n: int): (r: Date)
    requires ValidDate(d)
    ensures ValidDate(r)
    ensures r.year * 12 + r.month == d.year * 12 + d.month + n
    ensures d.day <= DaysInMonth(r.year, r.month) ==> r.day == d.day
    ensures d.day > DaysInMonth(r.year, r.month) ==> r.day == DaysInMonth(r.year, r.month)
  {
    var index := d.year * 12 + (d.month - 1) + n;
    var year := index / 12;
    var month := index % 12 + 1;
    var last := DaysInMonth(year, month);
    Date(year, month, if d.day <= last then d.day else last)
  }

  /** Adding a positive number of months moves a date strictly forward. */
  lemma AddMonthsLater(d: Date, n: int)
    requires ValidDate(d) && n > 0
    ensures Before(d, AddMonths(d, n))
  {
    var r := AddMonths(d, n);
    if r.year == d.year {
      assert r.month > d.month;
    }
  }

  /** Adding zero months changes nothing. */
  lemma AddZeroMonths(d: Date)
    requires ValidDate(d)
    ensures AddMonths(d, 0) == d
  {
  }

  /** Month addition does not compose: the day pinned in a short month is not
      restored later. 2024-01-31 plus one month is 2024-02-29, plus one more is
      2024-03-29, while 2024-01-31 plus two months is 2024-03-31. */
  lemma AddMonthsDrift()
    ensures AddMonths(Date(2024, 1, 31), 1) == Date(2024, 2, 29)
    ensures AddMonths(AddMonths(Date(2024, 1, 31), 1), 1) == Date(2024, 3, 29)
    ensures AddMonths(Date(2024, 1, 31), 2) == Date(2024, 3, 31)
  {
  }

  /** Pinning follows the Gregorian leap-year rule: every fourth year is
      a leap year, except centuries not divisible by 400. */
  lemma AddMonthsLeapYears()
    ensures AddMonths(Date(2023, 1, 31), 1) == Date(2023, 2, 28)
    ensures AddMonths(Date(2000, 1, 31), 1) == Date(2000, 2, 29)
    ensures AddMonths(Date(2100, 1, 31), 1) == Date(2100, 2, 28)
    ensures AddMonths(Date(2024, 2, 29), 12) == Date(2025, 2, 28)
    ensures AddMonths(Date(2024, 11, 30), 3) == Date(2025, 2, 28)
  {
  }

  /** A time zone with a constant offset from UTC, in milliseconds. */
  datatype Zone = FixedOffset(offsetMs: int)

  /** A wall-clock reading: a date and the milliseconds elapsed since its midnight. */
  datatype LocalDateTime = LocalDateTime(date: Date, msOfDay: int)

  predicate ValidLocal(l: LocalDateTime) {
    ValidDate(l.date) && 0 <= l.msOfDay < MsPerDay
  }

  /** The instant at which the wall clock of zone `z` reads `l`. */
  function FromLocal(z: Zone, l: LocalDateTime): int
    requires ValidLocal(l)
  {
    EpochDay(l.date) * MsPerDay + l.msOfDay - z.offsetMs
  }

  /** What the wall clock of zone `z` reads at instant `t`. */
  function ToLocal(z: Zone, t: int): (l: LocalDateTime)
    ensures ValidLocal(l)
    ensures FromLocal(z, l) == t
  {
    var local := t + z.offsetMs;
    LocalDateTime(DateOfEpochDay(local / MsPerDay), local % MsPerDay)
  }

  lemma LocalRoundTrip(z: Zone, l: LocalDateTime)
    requires ValidLocal(l)
    ensures ToLocal(z, FromLocal(z, l)) == l
  {
    var local := FromLocal(z, l) + z.offsetMs;
    assert local == EpochDay(l.date) * MsPerDay + l.msOfDay;
    assert local / MsPerDay == EpochDay(l.date);
    assert local % MsPerDay == l.msOfDay;
    EpochDayRoundTrip(l.date);
  }

  /** The (year, month) a wall clock reads; `month` is 1..12. */
  datatype YearMonth = YearMonth(year: int, month: int)

  /** The calendar month of instant `t` in zone `z`. */
  function MonthOf(z: Zone, t: int): (ym: YearMonth)
    ensures 1 <= ym.month <= 12
  {
    var d := ToLocal(z, t).date;
    YearMonth(d.year, d.month)
  }

  /** An instant-level `Calendar.add(MONTH, n)`: set the calendar to `t`,
      add `n` months, read the instant back. */
  function AddMonthsToInstant(z: Zone, t: int, n: int): (r: int)
    ensures ToLocal(z, r).date == AddMonths(ToLocal(z, t).date, n)
    ensures ToLocal(z, r).msOfDay == ToLocal(z, t).msOfDay
    ensures n > 0 ==> r > t
    ensures n == 0 ==> r == t
  {
    var l := ToLocal(z, t);
    ShiftedWallClock(z, t, n);
    ShiftedInstantOrder(z, t, n);
    FromLocal(z, LocalDateTime(AddMonths(l.date, n), l.msOfDay))
  }

  /** The wall clock at the shifted instant reads the shifted date at the
      same time of day. */
  lemma ShiftedWallClock(z: Zone, t: int, n: int)
    ensures var l := ToLocal(z, t);
      var l' := LocalDateTime(AddMonths(l.date, n), l.msOfDay);
      ToLocal(z, FromLocal(z, l')) == l'
  {
    var l := ToLocal(z, t);
    LocalRoundTrip(z, LocalDateTime(AddMonths(l.date, n), l.msOfDay));
  }

  /** The shifted instant is later for a positive shift and the same for none. */
  lemma ShiftedInstantOrder(z: Zone, t: int, n: int)
    ensures var l := ToLocal(z, t);
      var r := FromLocal(z, LocalDateTime(AddMonths(l.date, n), l.msOfDay));
      (n > 0 ==> r > t) && (n == 0 ==> r == t)
  {
    var l := ToLocal(z, t);
    AdvancedWallClockIsLater(z, l, n);
    if n == 0 {
      AddZeroMonths(l.date);
    }
  }

  /** Moving the date of a wall-clock reading forward by `n > 0` months while
      keeping its time of day gives a later instant. */
  lemma AdvancedWallClockIsLater(z: Zone, l: LocalDateTime, n: int)
    requires ValidLocal(l)
    ensures n > 0 ==> FromLocal(z, LocalDateTime(AddMonths(l.date, n), l.msOfDay)) > FromLocal(z, l)
  {
    if n > 0 {
      var d' := AddMonths(l.date, n);
      AddMonthsLater(l.date, n);
      EpochDayMonotone(l.date, d');
      assert EpochDay(d') * MsPerDay >= EpochDay(l.date) * MsPerDay + MsPerDay;
    }
  }
}
