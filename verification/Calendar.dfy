/** Dates and times of day as the `time` crate checks and prints them. */
module Calendar {
  import opened Text

  datatype Date = Date(year: int, month: int, day: int)

  datatype Moment = Moment(date: Date, hour: int, minute: int, second: int)

  predicate IsLeap(year: int)
  {
    year % 4 == 0 && (year % 100 != 0 || year % 400 == 0)
  }

  function DaysInMonth(year: int, month: int): (n: nat)
    requires 1 <= month <= 12
    ensures 28 <= n <= 31
  {
    if month == 2 then (if IsLeap(year) then 29 else 28)
    else if month == 4 || month == 6 || month == 9 || month == 11 then 30
    else 31
  }

  /** `Month::try_from` followed by `Date::from_calendar_date`. */
  function FromCalendar(year: int, month: int, day: int): Option<Date>
  {
    if -9999 <= year <= 9999 && 1 <= month <= 12 && 1 <= day <= DaysInMonth(year, month)
    then Some(Date(year, month, day))
    else None
  }

  predicate ValidDate(d: Date)
  {
    FromCalendar(d.year, d.month, d.day) == Some(d)
  }

  predicate ValidMoment(m: Moment)
  {
    ValidDate(m.date) && 0 <= m.hour < 24 && 0 <= m.minute < 60 && 0 <= m.second < 60
  }

  /** `Date`'s `Display`: at least four year digits, with a sign when negative. */
  function DateText(d: Date): string
    requires ValidDate(d)
  {
    (if d.year < 0 then "-" + PadText(-d.year, 4) else PadText(d.year, 4))
    + "-" + PadText(d.month, 2) + "-" + PadText(d.day, 2)
  }

  // ---------------------------------------------------------------------------
  // Counting time
  // ---------------------------------------------------------------------------

  function YearLength(year: int): nat { if IsLeap(year) then 366 else 365 }

  /** Days in the years from 0 up to, not including, `year`. */
  function DaysBeforeYear(year: nat): nat
  {
    if year == 0 then 0 else DaysBeforeYear(year - 1) + YearLength(year - 1)
  }

  /** The Gregorian calendar: every fourth year has a day more, every hundredth not, every
      four hundredth again. */
  lemma {:induction false} DaysBeforeYearIs(year: nat)
    ensures DaysBeforeYear(year) == 365 * year + (year + 3) / 4 - (year + 99) / 100 + (year + 399) / 400
  {
    if year > 0 {
      DaysBeforeYearIs(year - 1);
      NextFours(year - 1);
      NextHundreds(year - 1);
    }
  }

  lemma NextFours(y: nat)
    ensures (y + 4) / 4 == (y + 3) / 4 + (if y % 4 == 0 then 1 else 0)
  {
  }

  lemma NextHundreds(y: nat)
    ensures (y + 100) / 100 == (y + 99) / 100 + (if y % 100 == 0 then 1 else 0)
    ensures (y + 400) / 400 == (y + 399) / 400 + (if y % 400 == 0 then 1 else 0)
    ensures y % 100 == 0 ==> y % 4 == 0
    ensures y % 400 == 0 ==> y % 100 == 0
  {
  }

  /** It repeats itself after four hundred years, which goes for years before 0 too. */
  lemma YearLengthRepeats(year: int)
    ensures YearLength(year + 400) == YearLength(year)
  {
    FoursRepeat(year);
    HundredsRepeat(year);
  }

  lemma FoursRepeat(year: int)
    ensures (year + 400) % 4 == year % 4
  {
    assert year + 400 == 4 * (year / 4 + 100) + year % 4;
  }

  lemma HundredsRepeat(year: int)
    ensures (year + 400) % 100 == year % 100 && (year + 400) % 400 == year % 400
  {
    assert year + 400 == 100 * (year / 100 + 4) + year % 100;
    assert year + 400 == 400 * (year / 400 + 1) + year % 400;
  }

  lemma MonthLengths(year: int)
    ensures [DaysInMonth(year, 1), DaysInMonth(year, 2), DaysInMonth(year, 3), DaysInMonth(year, 4),
             DaysInMonth(year, 5), DaysInMonth(year, 6), DaysInMonth(year, 7), DaysInMonth(year, 8),
             DaysInMonth(year, 9), DaysInMonth(year, 10), DaysInMonth(year, 11), DaysInMonth(year, 12)]
         == [31, YearLength(year) - 337, 31, 30, 31, 30, 31, 31, 30, 31, 30, 31]
  {
  }

  /** Days of `year` in the months before `month`. */
  function DaysBeforeMonth(year: int, month: int): nat
    requires 1 <= month <= 13
    decreases month
  {
    if month == 1 then 0 else DaysBeforeMonth(year, month - 1) + DaysInMonth(year, month - 1)
  }

  /** Days since the first of January of year 0. */
  function DayNumber(d: Date): nat
    requires ValidDate(d) && d.year >= 0
  {
    DaysBeforeYear(d.year) + DaysBeforeMonth(d.year, d.month) + (d.day - 1)
  }

  /** Seconds since the start of year 0. */
  function Seconds(m: Moment): nat
    requires ValidMoment(m) && m.date.year >= 0
  {
    ((DayNumber(m.date) * 24 + m.hour) * 60 + m.minute) * 60 + m.second
  }

  lemma {:induction false} DaysBeforeYearMonotone(a: nat, b: nat)
    requires a < b
    ensures DaysBeforeYear(a) + YearLength(a) <= DaysBeforeYear(b)
    decreases b
  {
    if a + 1 < b { DaysBeforeYearMonotone(a, b - 1); }
  }

  lemma {:induction false} DaysBeforeMonthMonotone(year: int, a: int, b: int)
    requires 1 <= a < b <= 13
    ensures DaysBeforeMonth(year, a) + DaysInMonth(year, a) <= DaysBeforeMonth(year, b)
    decreases b
  {
    if a + 1 < b { DaysBeforeMonthMonotone(year, a, b - 1); }
  }

  lemma MonthsMakeYear(year: int)
    ensures DaysBeforeMonth(year, 13) == YearLength(year)
  {
    assert DaysBeforeMonth(year, 4) == DaysInMonth(year, 1) + DaysInMonth(year, 2) + DaysInMonth(year, 3);
    assert DaysBeforeMonth(year, 7) == DaysBeforeMonth(year, 4) + 91;
    assert DaysBeforeMonth(year, 10) == DaysBeforeMonth(year, 7) + 92;
    assert DaysBeforeMonth(year, 13) == DaysBeforeMonth(year, 10) + 92;
  }

  predicate DateBefore(a: Date, b: Date)
  {
    a.year < b.year
    || (a.year == b.year && (a.month < b.month || (a.month == b.month && a.day < b.day)))
  }

  lemma DateBeforeDayNumber(a: Date, b: Date)
    requires ValidDate(a) && ValidDate(b) && a.year >= 0 && b.year >= 0
    requires DateBefore(a, b)
    ensures DayNumber(a) < DayNumber(b)
  {
    if a.year < b.year {
      DaysBeforeYearMonotone(a.year, b.year);
      DaysBeforeMonthMonotone(a.year, a.month, 13);
      MonthsMakeYear(a.year);
    } else if a.month < b.month {
      DaysBeforeMonthMonotone(a.year, a.month, b.month);
    }
  }

  predicate Before(a: Moment, b: Moment)
  {
    DateBefore(a.date, b.date)
    || (a.date == b.date
        && (a.hour < b.hour
            || (a.hour == b.hour
                && (a.minute < b.minute || (a.minute == b.minute && a.second < b.second)))))
  }

  lemma BeforeSeconds(a: Moment, b: Moment)
    requires ValidMoment(a) && ValidMoment(b) && a.date.year >= 0 && b.date.year >= 0
    requires Before(a, b)
    ensures Seconds(a) < Seconds(b)
  {
    if DateBefore(a.date, b.date) {
      DateBeforeDayNumber(a.date, b.date);
    }
  }

  /** Comparing the calendar fields one after the other is comparing the number of
      elapsed seconds. */
  lemma SecondsOrder(a: Moment, b: Moment)
    requires ValidMoment(a) && ValidMoment(b) && a.date.year >= 0 && b.date.year >= 0
    ensures Seconds(a) < Seconds(b) <==> Before(a, b)
  {
    if Before(a, b) {
      BeforeSeconds(a, b);
    } else if Before(b, a) {
      BeforeSeconds(b, a);
    } else {
      assert a == b;
    }
  }

  /** The date after this one. */
  function NextDay(d: Date): (next: Date)
    requires ValidDate(d)
    ensures d.year <= next.year && (d.year < 9999 ==> ValidDate(next))
  {
    if d.day < DaysInMonth(d.year, d.month) then d.(day := d.day + 1)
    else if d.month < 12 then Date(d.year, d.month + 1, 1)
    else Date(d.year + 1, 1, 1)
  }

  /** What a clock shows a second later. */
  function Tick(m: Moment): (next: Moment)
    requires ValidMoment(m)
    ensures m.date.year <= next.date.year && (m.date.year < 9999 ==> ValidMoment(next))
  {
    if m.second < 59 then m.(second := m.second + 1)
    else if m.minute < 59 then Moment(m.date, m.hour, m.minute + 1, 0)
    else if m.hour < 23 then Moment(m.date, m.hour + 1, 0, 0)
    else Moment(NextDay(m.date), 0, 0, 0)
  }

  lemma NextDayCounts(d: Date)
    requires ValidDate(d) && 0 <= d.year < 9999
    ensures DayNumber(NextDay(d)) == DayNumber(d) + 1
  {
    if d.month == 12 { MonthsMakeYear(d.year); }
  }

  /** Each tick of the clock is one second more. */
  lemma TicksAreCounted(m: Moment)
    requires ValidMoment(m) && 0 <= m.date.year < 9999
    ensures Seconds(Tick(m)) == Seconds(m) + 1
  {
    NextDayCounts(m.date);
  }

  /** The years that dates can have. */
  lemma ValidYears(year: int, d: Date)
    ensures ValidDate(Date(year, 1, 1)) <==> -9999 <= year <= 9999
    ensures ValidDate(d) ==> ValidDate(Date(d.year, 1, 1))
  {
  }
}
