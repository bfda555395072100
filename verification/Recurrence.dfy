/** Dates of a weekly or daily series (apps/bookings/tasks.py). */
module Recurrence {
  import opened Calendar

  datatype Pattern = Daily | Weekly(dayOfWeek: int)

  /** Days between two occurrences. */
  function Period(p: Pattern): nat {
    if p.Daily? then 1 else 7
  }

  ghost predicate Wanted(p: Pattern, date: int) {
    p.Daily? || Weekday(date) == p.dayOfWeek % 7
  }

  function FirstMatchingWeekday(dayOfWeek: int, base: int): (date: int)
    ensures base <= date < base + 7
    ensures Weekday(date) == dayOfWeek % 7
    ensures forall d :: base <= d < date ==> Weekday(d) != dayOfWeek % 7
  {
    base + (dayOfWeek - Weekday(base)) % 7
  }

  /** The date a series starts on when it is created on day `base`. */
  function FirstDate(p: Pattern, base: int): int {
    if p.Daily? then base else FirstMatchingWeekday(p.dayOfWeek, base)
  }

  /** Occurrences from one known occurrence on. */
  function StepDates(p: Pattern, current: int, end: int): seq<int>
    decreases end - current
  {
    if current > end then [] else [current] + StepDates(p, current + Period(p), end)
  }

  /** Every date of [start, end] that the pattern asks for. */
  function MatchingDates(p: Pattern, start: int, end: int): seq<int> {
    StepDates(p, FirstDate(p, start), end)
  }

  method ListMatchingDates(p: Pattern, start: int, end: int) returns (dates: seq<int>)
    ensures dates == MatchingDates(p, start, end)
  {
    dates := [];
    ghost var all := MatchingDates(p, start, end);
    if p.Daily? {
      var current := start;
      while current <= end
        invariant dates + StepDates(p, current, end) == all
      {
        dates := dates + [current];
        current := current + 1;
      }
    } else {
      var daysUntilFirst := (p.dayOfWeek - Weekday(start)) % 7;
      var current := start + daysUntilFirst;
      assert current == FirstDate(p, start);
      while current <= end
        invariant dates + StepDates(p, current, end) == all
      {
        dates := dates + [current];
        current := current + 7;
      }
    }
  }

  /** A whole number of periods lies between the two dates. */
  ghost predicate Aligned(p: Pattern, a: int, b: int) {
    p.Daily? || (b - a) % 7 == 0
  }

  lemma {:induction false} StepDatesMember(p: Pattern, current: int, end: int, date: int)
    ensures date in StepDates(p, current, end) <==> current <= date <= end && Aligned(p, current, date)
    decreases end - current
  {
    if current > end {
    } else {
      StepDatesMember(p, current + Period(p), end, date);
    }
  }

  ghost predicate Increasing(dates: seq<int>) {
    forall i, j :: 0 <= i < j < |dates| ==> dates[i] < dates[j]
  }

  lemma {:induction false} StepDatesSorted(p: Pattern, current: int, end: int)
    ensures Increasing(StepDates(p, current, end))
    decreases end - current
  {
    if current > end {
    } else {
      var next := current + Period(p);
      var rest := StepDates(p, next, end);
      StepDatesSorted(p, next, end);
      forall j | 0 <= j < |rest|
        ensures current < rest[j]
      {
        assert rest[j] in rest;
        StepDatesMember(p, next, end, rest[j]);
      }
      assert StepDates(p, current, end) == [current] + rest;
    }
  }

  lemma FirstDateIsFirst(p: Pattern, start: int, d: int)
    ensures FirstDate(p, start) <= d && Aligned(p, FirstDate(p, start), d) <==> start <= d && Wanted(p, d)
  {
    if p.Weekly? {
      SameWeekday(FirstMatchingWeekday(p.dayOfWeek, start), d);
    }
  }

  /** The listing is exactly the wanted dates of the range, in increasing order. */
  lemma MatchingDatesExact(p: Pattern, start: int, end: int)
    ensures forall d :: d in MatchingDates(p, start, end) <==> start <= d <= end && Wanted(p, d)
    ensures Increasing(MatchingDates(p, start, end))
  {
    var first := FirstDate(p, start);
    forall d
      ensures d in MatchingDates(p, start, end) <==> start <= d <= end && Wanted(p, d)
    {
      StepDatesMember(p, first, end, d);
      FirstDateIsFirst(p, start, d);
    }
    StepDatesSorted(p, first, end);
  }

  lemma {:induction false} StepDatesSplit(p: Pattern, current: int, mid: int, end: int, next: int)
    requires mid <= end && mid < next <= mid + Period(p)
    requires Aligned(p, current, next) && current <= mid + Period(p)
    ensures StepDates(p, current, end) == StepDates(p, current, mid) + StepDates(p, next, end)
    decreases end - current
  {
    if current <= mid {
      StepDatesSplit(p, current + Period(p), mid, end, next);
    } else {
      assert next == current;
    }
  }

  lemma SameWeekday(a: int, b: int)
    ensures Weekday(a) == Weekday(b) <==> (b - a) % 7 == 0
  {
  }

  lemma FirstDatesAligned(p: Pattern, a: int, b: int)
    ensures Aligned(p, FirstDate(p, a), FirstDate(p, b))
  {
    if p.Weekly? {
      SameWeekday(FirstDate(p, a), FirstDate(p, b));
    }
  }

  /** Adjacent ranges tile: nothing is listed twice and nothing is missed at the seam. */
  lemma MatchingDatesSplit(p: Pattern, start: int, mid: int, end: int)
    requires start - 1 <= mid <= end
    ensures MatchingDates(p, start, end) == MatchingDates(p, start, mid) + MatchingDates(p, mid + 1, end)
  {
    FirstDatesAligned(p, start, mid + 1);
    StepDatesSplit(p, FirstDate(p, start), mid, end, FirstDate(p, mid + 1));
  }

  /** A weekly series has exactly one occurrence in every window of seven days. */
  lemma OnePerWeek(p: Pattern, start: int)
    requires p.Weekly?
    ensures MatchingDates(p, start, start + 6) == [FirstMatchingWeekday(p.dayOfWeek, start)]
  {
    var first := FirstMatchingWeekday(p.dayOfWeek, start);
    assert StepDates(p, first + 7, start + 6) == [];
  }
}
