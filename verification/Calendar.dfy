/** Local calendar arithmetic: instants are minutes, dates are proleptic ordinals
    (1 is 0001-01-01, a Monday), and the local zone is a fixed offset. */
module Calendar {

  const MINUTES_PER_DAY := 1440
  const UTC_OFFSET := 300

  function LocalDate(t: int): int {
    (t + UTC_OFFSET) / MINUTES_PER_DAY
  }

  function LocalMinute(t: int): int {
    (t + UTC_OFFSET) % MINUTES_PER_DAY
  }

  /** The instant at which the local date reaches a minute of the day. */
  function Combine(date: int, minute: int): int {
    date * MINUTES_PER_DAY + minute - UTC_OFFSET
  }

  /** Monday is 0 and Sunday is 6. */
  function Weekday(date: int): int {
    (date + 6) % 7
  }

  /** The Gregorian year of an ordinal, by whole 400-, 100-, 4- and 1-year cycles. */
  function Year(date: int): int {
    var n := date - 1;
    var (n400, r400) := (n / 146097, n % 146097);
    var (n100, r100) := (r400 / 36524, r400 % 36524);
    var (n4, r4) := (r100 / 1461, r100 % 1461);
    var n1 := r4 / 365;
    var year := n400 * 400 + n100 * 100 + n4 * 4 + n1 + 1;
    if n1 == 4 || n100 == 4 then year - 1 else year
  }

  /** The first day of a year: 365 days for every year before it, and one for every leap year among them. */
  function FirstDay(year: int): int {
    365 * (year - 1) + (year - 1) / 4 - (year - 1) / 100 + (year - 1) / 400 + 1
  }

  lemma FirstDayByCycles(n400: int, n100: int, n4: int, n1: int)
    requires 0 <= n100 <= 3 && 0 <= n4 <= 24 && 0 <= n1 <= 3
    ensures FirstDay(400 * n400 + 100 * n100 + 4 * n4 + n1 + 1)
         == 146097 * n400 + 36524 * n100 + 1461 * n4 + 365 * n1 + 1
  {
    var n := 400 * n400 + 100 * n100 + 4 * n4 + n1;
    assert n / 4 == 100 * n400 + 25 * n100 + n4;
    assert n / 100 == 4 * n400 + n100;
    assert n / 400 == n400;
  }

  lemma DayIsInItsYear(date: int)
    ensures FirstDay(Year(date)) <= date < FirstDay(Year(date) + 1)
  {
    var n := date - 1;
    var (n400, r400) := (n / 146097, n % 146097);
    var (n100, r100) := (r400 / 36524, r400 % 36524);
    var (n4, r4) := (r100 / 1461, r100 % 1461);
    var n1 := r4 / 365;
    if n100 == 4 {
      assert r400 == 146096 && r100 == 0 && n4 == 0 && n1 == 0;
      FirstDayByCycles(n400, 3, 24, 3);
      FirstDayByCycles(n400 + 1, 0, 0, 0);
    } else if n1 == 4 {
      assert r4 == 1460;
      FirstDayByCycles(n400, n100, n4, 3);
      NextYearStarts(n400, n100, n4, 3);
    } else {
      FirstDayByCycles(n400, n100, n4, n1);
      NextYearStarts(n400, n100, n4, n1);
    }
  }

  /** Every year has 365 days at least; the last one of a leap cycle has one more, except at most centuries. */
  lemma NextYearStarts(n400: int, n100: int, n4: int, n1: int)
    requires 0 <= n100 <= 3 && 0 <= n4 <= 24 && 0 <= n1 <= 3
    ensures var next := FirstDay(400 * n400 + 100 * n100 + 4 * n4 + n1 + 2);
      next == 146097 * n400 + 36524 * n100 + 1461 * n4 + 365 * (n1 + 1) + 1
              + (if n1 == 3 && (n4 < 24 || n100 == 3) then 1 else 0)
  {
    if n1 < 3 {
      FirstDayByCycles(n400, n100, n4, n1 + 1);
    } else if n4 < 24 {
      FirstDayByCycles(n400, n100, n4 + 1, 0);
    } else if n100 < 3 {
      FirstDayByCycles(n400, n100 + 1, 0, 0);
    } else {
      FirstDayByCycles(n400 + 1, 0, 0, 0);
    }
  }

  lemma YearHasDays(year: int)
    ensures FirstDay(year) + 365 <= FirstDay(year + 1) <= FirstDay(year) + 366
  {
    var n := year - 1;
    var (n400, r400) := (n / 400, n % 400);
    var (n100, r100) := (r400 / 100, r400 % 100);
    FirstDayByCycles(n400, n100, r100 / 4, r100 % 4);
    NextYearStarts(n400, n100, r100 / 4, r100 % 4);
  }

  lemma {:induction false} YearsGrow(a: int, b: int)
    requires a < b
    ensures FirstDay(a) < FirstDay(b)
    decreases b - a
  {
    YearHasDays(b - 1);
    if a == b - 1 {
    } else {
      YearsGrow(a, b - 1);
    }
  }

  /** A year holds exactly the dates from its first day to the day before the next year's. */
  lemma YearMeaning(date: int, year: int)
    ensures Year(date) == year <==> FirstDay(year) <= date < FirstDay(year + 1)
  {
    DayIsInItsYear(date);
    if Year(date) < year {
      if Year(date) + 1 < year {
        YearsGrow(Year(date) + 1, year);
      }
    } else if year < Year(date) {
      if year + 1 < Year(date) {
        YearsGrow(year + 1, Year(date));
      }
    }
  }

  /** The weekdays follow each other from a Monday on, seven to a week. */
  lemma WeekdaysCycle(date: int)
    ensures Weekday(1) == 0 && 0 <= Weekday(date) <= 6
    ensures Weekday(date + 1) == (if Weekday(date) == 6 then 0 else Weekday(date) + 1)
  {
  }

  /** A local day has 24 hours of 60 minutes, and the next one follows. */
  lemma DaysFollow(date: int, minute: int)
    ensures Combine(date, minute + 1) == Combine(date, minute) + 1
    ensures Combine(date + 1, minute) == Combine(date, minute) + 24 * 60
    ensures Combine(1, 5 * 60) == 24 * 60
  {
  }

  /** Combine and the two projections are inverse to each other. */
  lemma CombineRoundTrip(t: int, date: int, minute: int)
    requires 0 <= minute < MINUTES_PER_DAY
    ensures LocalDate(Combine(date, minute)) == date && LocalMinute(Combine(date, minute)) == minute
    ensures Combine(LocalDate(t), LocalMinute(t)) == t
  {
  }
}
