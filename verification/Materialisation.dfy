/** Turning a series into bookings (apps/bookings/tasks.py). */
module Materialisation {
  import opened Options
  import opened Calendar
  import opened Recurrence
  import opened BookingModel
  import opened Allocator

  /** The tables and the skipped dates, or the failure of a lookup that finds several rows. */
  datatype Outcome = Done(db: Db, skipped: seq<int>) | Crashed

  function StartOn(s: Series, date: int): int { Combine(date, s.startMinute) }

  function EndOn(s: Series, date: int): int { Combine(date, s.endMinute) }

  function Occurrence(s: Series, id: nat, date: int): Booking {
    Booking(s.resource, s.user, s.company, Some(id), StartOn(s, date), EndOn(s, date),
            Confirmed, 1, None, NoReason, None)
  }

  /** The rows, whatever their status, that stand for this occurrence. */
  function OccurrenceRows(bookings: Bookings, s: Series, id: nat, date: int): set<nat> {
    set k | k in bookings
         && bookings[k].resource == s.resource && bookings[k].user == s.user && bookings[k].company == s.company
         && bookings[k].series == Some(id)
         && bookings[k].start == StartOn(s, date) && bookings[k].end == EndOn(s, date)
  }

  function CheckOccurrence(db: Db, s: Series, date: int, now: int): Result<set<nat>> {
    EnsureNoConflicts(db.bookings, db.blocks, s.resource, StartOn(s, date), EndOn(s, date), None, None, now)
  }

  function InsertOccurrence(db: Db, s: Series, id: nat, date: int): Db {
    db.(bookings := db.bookings[db.nextId := Occurrence(s, id, date)],
        nextId := db.nextId + 1,
        history := Record(db.history, db.nextId, 1, {}))
  }

  function MaterialiseDate(db: Db, s: Series, id: nat, date: int, now: int): Outcome {
    if EndOn(s, date) <= now then Done(db, [])
    else if CheckOccurrence(db, s, date, now).Err? then Done(db, [date])
    else
      var rows := OccurrenceRows(db.bookings, s, id, date);
      if rows == {} then Done(InsertOccurrence(db, s, id, date), [])
      else if |rows| == 1 then Done(db, [])
      else Crashed
  }

  /** create_bookings_for_recurring over the given dates. */
  function Materialise(db: Db, s: Series, id: nat, dates: seq<int>, now: int): Outcome
    decreases |dates|
  {
    if dates == [] then Done(db, [])
    else match MaterialiseDate(db, s, id, dates[0], now)
      case Crashed => Crashed
      case Done(db1, skipped) => After(skipped, Materialise(db1, s, id, dates[1..], now))
  }

  function After(skipped: seq<int>, rest: Outcome): Outcome {
    match rest
    case Crashed => Crashed
    case Done(db, more) => Done(db, skipped + more)
  }

  lemma MaterialiseFrom(db: Db, s: Series, id: nat, dates: seq<int>, i: nat, now: int)
    requires i < |dates|
    ensures Materialise(db, s, id, dates[i..], now)
         == match MaterialiseDate(db, s, id, dates[i], now)
            case Crashed => Crashed
            case Done(db1, skipped) => After(skipped, Materialise(db1, s, id, dates[i + 1..], now))
  {
    assert dates[i..][1..] == dates[i + 1..];
  }

  /** Running over two lists of dates is running over the first and then, on its result, over the second. */
  lemma {:induction false} MaterialiseSplit(db: Db, s: Series, id: nat, a: seq<int>, b: seq<int>, now: int)
    ensures Materialise(db, s, id, a + b, now)
         == match Materialise(db, s, id, a, now)
            case Crashed => Crashed
            case Done(db1, skipped) => After(skipped, Materialise(db1, s, id, b, now))
    decreases |a|
  {
    if a == [] {
      assert a + b == b;
    } else {
      assert (a + b)[1..] == a[1..] + b;
      var first := MaterialiseDate(db, s, id, a[0], now);
      if first.Done? {
        MaterialiseSplit(first.db, s, id, a[1..], b, now);
        var rest := Materialise(first.db, s, id, a[1..], now);
        if rest.Done? {
          var last := Materialise(rest.db, s, id, b, now);
          if last.Done? {
            assert first.skipped + (rest.skipped + last.skipped) == first.skipped + rest.skipped + last.skipped;
          }
        }
      }
    }
  }

  // ---------- extending a series ----------

  function AdvanceDays(p: Pattern): nat { if p.Daily? then 1 else 7 }

  /** What one pass of generate_recurring_bookings does to one series: `until` is its valid_until. */
  function Extend(db: Db, s: Series, id: nat, until: int, now: int): Outcome {
    Materialise(db, s, id, MatchingDates(s.pattern, until + 1, until + AdvanceDays(s.pattern)), now)
  }

  function ExtendTimes(db: Db, s: Series, id: nat, until: int, times: nat, now: int): Outcome
    decreases times
  {
    if times == 0 then Done(db, [])
    else match Extend(db, s, id, until, now)
      case Crashed => Crashed
      case Done(db1, skipped) =>
        After(skipped, ExtendTimes(db1, s, id, until + AdvanceDays(s.pattern), times - 1, now))
  }

  function ExtendedUntil(p: Pattern, until: int, times: nat): int {
    if p.Daily? then until + times else until + 7 * times
  }

  /** One run over the dates up to `until`, continued by further extensions. */
  function Continue(first: Outcome, s: Series, id: nat, until: int, times: nat, now: int): Outcome {
    match first
    case Crashed => Crashed
    case Done(db, skipped) => After(skipped, ExtendTimes(db, s, id, until, times, now))
  }

  /** Any number of extensions after the initial run is one run over the whole extended range:
      same bookings, same ids, and the skipped lists concatenated. */
  lemma {:induction false} ExtensionsAreOneRun(db: Db, s: Series, id: nat, start: int, until: int, times: nat, now: int)
    requires start - 1 <= until
    ensures Materialise(db, s, id, MatchingDates(s.pattern, start, ExtendedUntil(s.pattern, until, times)), now)
         == Continue(Materialise(db, s, id, MatchingDates(s.pattern, start, until), now), s, id, until, times, now)
    decreases times
  {
    var first := Materialise(db, s, id, MatchingDates(s.pattern, start, until), now);
    if times == 0 {
      if first.Done? {
        assert first.skipped + [] == first.skipped;
      }
    } else {
      var next := until + AdvanceDays(s.pattern);
      assert ExtendedUntil(s.pattern, next, times - 1) == ExtendedUntil(s.pattern, until, times);
      ExtensionsAreOneRun(db, s, id, start, next, times - 1, now);
      MatchingDatesSplit(s.pattern, start, until, next);
      ContinueLater(db, s, id, MatchingDates(s.pattern, start, until), until, times, now);
    }
  }

  lemma ContinueLater(db: Db, s: Series, id: nat, dates: seq<int>, until: int, times: nat, now: int)
    requires times > 0
    ensures Continue(Materialise(db, s, id,
                                 dates + MatchingDates(s.pattern, until + 1, until + AdvanceDays(s.pattern)), now),
                     s, id, until + AdvanceDays(s.pattern), times - 1, now)
         == Continue(Materialise(db, s, id, dates, now), s, id, until, times, now)
  {
    MaterialiseSplit(db, s, id, dates, MatchingDates(s.pattern, until + 1, until + AdvanceDays(s.pattern)), now);
    ContinueUnfold(Materialise(db, s, id, dates, now), s, id, until, times, now);
  }

  lemma ContinueUnfold(first: Outcome, s: Series, id: nat, until: int, times: nat, now: int)
    requires times > 0
    ensures Continue(first, s, id, until, times, now)
         == Continue(match first
                     case Crashed => Crashed
                     case Done(db, skipped) => After(skipped, Extend(db, s, id, until, now)),
                     s, id, until + AdvanceDays(s.pattern), times - 1, now)
  {
    if first.Done? {
      var second := Extend(first.db, s, id, until, now);
      if second.Done? {
        var rest := ExtendTimes(second.db, s, id, until + AdvanceDays(s.pattern), times - 1, now);
        if rest.Done? {
          assert first.skipped + (second.skipped + rest.skipped) == first.skipped + second.skipped + rest.skipped;
        }
      }
    }
  }

  // ---------- what a run does to the tables ----------

  /** Rows are only added, each a confirmed occurrence of the series on one of the dates,
      ending after `now` and clear of every other booking and block. */
  ghost predicate Grows(before: Db, after: Db, s: Series, id: nat, dates: seq<int>, now: int) {
    && after == before.(bookings := after.bookings, nextId := after.nextId, history := after.history)
    && before.nextId <= after.nextId
    && before.bookings.Keys <= after.bookings.Keys
    && (forall k :: k in before.bookings ==> after.bookings[k] == before.bookings[k])
    && (forall k :: k in after.bookings && k !in before.bookings
          ==> before.nextId <= k < after.nextId
              && exists d :: d in dates && after.bookings[k] == Occurrence(s, id, d) && EndOn(s, d) > now)
  }

  ghost predicate Fresh(db: Db) {
    forall k :: k in db.bookings ==> k < db.nextId
  }

  lemma {:induction false} MaterialiseGrows(db: Db, s: Series, id: nat, dates: seq<int>, now: int)
    requires Fresh(db)
    ensures var out := Materialise(db, s, id, dates, now);
            out.Done? ==> Fresh(out.db) && Grows(db, out.db, s, id, dates, now)
    decreases |dates|
  {
    if dates == [] {
    } else {
      var first := MaterialiseDate(db, s, id, dates[0], now);
      if first.Done? {
        MaterialiseGrows(first.db, s, id, dates[1..], now);
        assert dates[0] in dates;
        var out := Materialise(db, s, id, dates, now);
        if out.Done? {
          forall k | k in out.db.bookings && k !in db.bookings
            ensures db.nextId <= k < out.db.nextId
            ensures exists d :: d in dates && out.db.bookings[k] == Occurrence(s, id, d) && EndOn(s, d) > now
          {
            if k in first.db.bookings {
              assert out.db.bookings[k] == Occurrence(s, id, dates[0]);
            } else {
              var d :| d in dates[1..] && out.db.bookings[k] == Occurrence(s, id, d) && EndOn(s, d) > now;
              assert d in dates;
            }
          }
        }
      }
    }
  }

  /** A run keeps confirmed bookings disjoint and clear of blocks; it keeps them non-empty
      exactly when the series itself is non-empty or the run adds nothing. */
  lemma {:induction false} MaterialiseKeepsSound(db: Db, s: Series, id: nat, dates: seq<int>, now: int)
    requires Fresh(db) && NonEmpty(db.bookings) && ConflictFree(db.bookings) && ClearOfBlocks(db.bookings, db.blocks)
    ensures var out := Materialise(db, s, id, dates, now);
            out.Done? ==>
              && (NonEmpty(out.db.bookings) <==> s.startMinute < s.endMinute || out.db.bookings == db.bookings)
              && (s.startMinute < s.endMinute ==>
                    ConflictFree(out.db.bookings) && ClearOfBlocks(out.db.bookings, out.db.blocks))
    decreases |dates|
  {
    var out := Materialise(db, s, id, dates, now);
    if out.Done? {
      MaterialiseGrows(db, s, id, dates, now);
      if s.startMinute >= s.endMinute {
        if out.db.bookings != db.bookings {
          var k :| k in out.db.bookings && k !in db.bookings;
        }
      } else if dates != [] {
        var first := MaterialiseDate(db, s, id, dates[0], now);
        OneDateKeepsSound(db, s, id, dates[0], now);
        MaterialiseKeepsSound(first.db, s, id, dates[1..], now);
      }
    }
  }

  lemma OneDateKeepsSound(db: Db, s: Series, id: nat, date: int, now: int)
    requires Fresh(db) && NonEmpty(db.bookings) && ConflictFree(db.bookings) && ClearOfBlocks(db.bookings, db.blocks)
    requires s.startMinute < s.endMinute
    ensures var out := MaterialiseDate(db, s, id, date, now);
            out.Done? ==> Fresh(out.db) && NonEmpty(out.db.bookings) && ConflictFree(out.db.bookings)
                          && ClearOfBlocks(out.db.bookings, out.db.blocks)
  {
    if CheckOccurrence(db, s, date, now).Ok? {
      NoConflictsMeaning(db.bookings, db.blocks, s.resource, StartOn(s, date), EndOn(s, date), None, None, now);
      forall k | k in db.bookings && Holds(db.bookings, k, s.resource)
        ensures !Meets(db.bookings[k].start, db.bookings[k].end, StartOn(s, date), EndOn(s, date))
      {
        assert k !in Overlapping(db.bookings, s.resource, StartOn(s, date), EndOn(s, date));
      }
      PlacingKeepsSound(db.bookings, db.blocks, db.nextId, Occurrence(s, id, date));
    }
  }

  // ---------- running twice ----------

  /** Nothing would be created for this date. */
  ghost predicate Settled(db: Db, s: Series, id: nat, date: int, now: int) {
    EndOn(s, date) <= now || CheckOccurrence(db, s, date, now).Err? || |OccurrenceRows(db.bookings, s, id, date)| == 1
  }

  /** A settled date stays settled when only occurrences of other dates are added. */
  lemma SettledStays(before: Db, after: Db, s: Series, id: nat, date: int, others: seq<int>, now: int)
    requires Grows(before, after, s, id, others, now) && date !in others
    requires Settled(before, s, id, date, now)
    ensures Settled(after, s, id, date, now)
  {
    var start, end := StartOn(s, date), EndOn(s, date);
    NoConflictsMeaning(before.bookings, before.blocks, s.resource, start, end, None, None, now);
    NoConflictsMeaning(after.bookings, after.blocks, s.resource, start, end, None, None, now);
    forall k | k in Overlapping(before.bookings, s.resource, start, end)
      ensures k in Overlapping(after.bookings, s.resource, start, end)
    {
      assert after.bookings[k] == before.bookings[k];
    }
    assert OccurrenceRows(after.bookings, s, id, date) == OccurrenceRows(before.bookings, s, id, date);
  }

  lemma {:induction false} EveryDateSettles(db: Db, s: Series, id: nat, dates: seq<int>, now: int)
    requires Fresh(db) && Increasing(dates)
    requires Materialise(db, s, id, dates, now).Done?
    ensures forall d :: d in dates ==> Settled(Materialise(db, s, id, dates, now).db, s, id, d, now)
    decreases |dates|
  {
    if dates == [] {
    } else {
      var first := MaterialiseDate(db, s, id, dates[0], now);
      var out := Materialise(db, s, id, dates, now);
      EveryDateSettles(first.db, s, id, dates[1..], now);
      MaterialiseGrows(first.db, s, id, dates[1..], now);
      OneDateSettles(db, s, id, dates[0], now);
      assert dates[0] !in dates[1..];
      SettledStays(first.db, out.db, s, id, dates[0], dates[1..], now);
    }
  }

  lemma OneDateSettles(db: Db, s: Series, id: nat, date: int, now: int)
    requires Fresh(db)
    requires MaterialiseDate(db, s, id, date, now).Done?
    ensures Settled(MaterialiseDate(db, s, id, date, now).db, s, id, date, now)
  {
    var out := MaterialiseDate(db, s, id, date, now);
    if out.db != db {
      assert OccurrenceRows(db.bookings, s, id, date) == {};
      assert OccurrenceRows(out.db.bookings, s, id, date) == {db.nextId};
    }
  }

  lemma {:induction false} SettledRunIsIdle(db: Db, s: Series, id: nat, dates: seq<int>, now: int)
    requires forall d :: d in dates ==> Settled(db, s, id, d, now)
    ensures Materialise(db, s, id, dates, now).Done? && Materialise(db, s, id, dates, now).db == db
  {
    if dates == [] {
    } else {
      assert dates[0] in dates;
      SettledRunIsIdle(db, s, id, dates[1..], now);
    }
  }

  /** A second run over the same series, range and moment leaves every table as it is, even for a series that ends
      before it starts. */
  lemma SecondRunIsIdle(db: Db, s: Series, id: nat, start: int, end: int, now: int)
    requires Fresh(db)
    requires Materialise(db, s, id, MatchingDates(s.pattern, start, end), now).Done?
    ensures var once := Materialise(db, s, id, MatchingDates(s.pattern, start, end), now).db;
            var twice := Materialise(once, s, id, MatchingDates(s.pattern, start, end), now);
            twice.Done? && twice.db == once
  {
    var dates := MatchingDates(s.pattern, start, end);
    MatchingDatesExact(s.pattern, start, end);
    EveryDateSettles(db, s, id, dates, now);
    SettledRunIsIdle(Materialise(db, s, id, dates, now).db, s, id, dates, now);
  }

  /** An occurrence with a row, cancelled or not, gets no further row from any run that completes. */
  lemma {:induction false} ExistingOccurrenceStays(db: Db, s: Series, id: nat, dates: seq<int>, now: int, date: int)
    requires Fresh(db) && OccurrenceRows(db.bookings, s, id, date) != {}
    ensures var out := Materialise(db, s, id, dates, now);
            out.Done? ==> OccurrenceRows(out.db.bookings, s, id, date) == OccurrenceRows(db.bookings, s, id, date)
    decreases |dates|
  {
    if dates == [] {
    } else {
      var first := MaterialiseDate(db, s, id, dates[0], now);
      if first.Done? {
        assert OccurrenceRows(first.db.bookings, s, id, date) == OccurrenceRows(db.bookings, s, id, date) by {
          if dates[0] == date {
            assert first.db == db;
          } else if first.db != db {
            assert StartOn(s, dates[0]) != StartOn(s, date);
          }
        }
        ExistingOccurrenceStays(first.db, s, id, dates[1..], now, date);
      }
    }
  }

  // ---------- the guard of series creation ----------

  function HasCreatableOccurrence(p: Pattern, endMinute: int, base: int, until: int, now: int): bool {
    exists d :: d in MatchingDates(p, FirstDate(p, base), until) && Combine(d, endMinute) > now
  }

  method FindCreatableOccurrence(p: Pattern, endMinute: int, base: int, until: int, now: int) returns (found: bool)
    ensures found == HasCreatableOccurrence(p, endMinute, base, until, now)
  {
    var validFrom := FirstDate(p, base);
    if validFrom > until {
      return false;
    }
    var dates := ListMatchingDates(p, validFrom, until);
    for i := 0 to |dates|
      invariant forall j :: 0 <= j < i ==> Combine(dates[j], endMinute) <= now
    {
      if Combine(dates[i], endMinute) > now {
        return true;
      }
    }
    return false;
  }

  lemma DateAnswered(db: Db, s: Series, id: nat, date: int, now: int)
    requires MaterialiseDate(db, s, id, date, now).Done?
    ensures var out := MaterialiseDate(db, s, id, date, now);
      && (EndOn(s, date) > now ==> date in out.skipped || OccurrenceRows(out.db.bookings, s, id, date) != {})
      && (forall d :: d in out.skipped ==> d == date && EndOn(s, d) > now)
  {
    var out := MaterialiseDate(db, s, id, date, now);
    if out.db != db {
      assert db.nextId in OccurrenceRows(out.db.bookings, s, id, date);
    }
  }

  lemma RowsStay(before: Db, after: Db, s: Series, id: nat, date: int)
    requires OccurrenceRows(before.bookings, s, id, date) != {}
    requires forall k :: k in before.bookings ==> k in after.bookings && after.bookings[k] == before.bookings[k]
    ensures OccurrenceRows(after.bookings, s, id, date) != {}
  {
    var k :| k in OccurrenceRows(before.bookings, s, id, date);
    assert k in OccurrenceRows(after.bookings, s, id, date);
  }

  /** Every date that is still ahead either is skipped or ends with a row of the series. */
  lemma {:induction false} EveryDateAnswered(db: Db, s: Series, id: nat, dates: seq<int>, now: int)
    requires Fresh(db) && Materialise(db, s, id, dates, now).Done?
    ensures var out := Materialise(db, s, id, dates, now);
      && (forall d :: d in dates && EndOn(s, d) > now ==>
            d in out.skipped || OccurrenceRows(out.db.bookings, s, id, d) != {})
      && (forall d :: d in out.skipped ==> d in dates && EndOn(s, d) > now)
    decreases |dates|
  {
    if dates == [] {
    } else {
      var first := MaterialiseDate(db, s, id, dates[0], now);
      var out := Materialise(db, s, id, dates, now);
      EveryDateAnswered(first.db, s, id, dates[1..], now);
      MaterialiseGrows(first.db, s, id, dates[1..], now);
      DateAnswered(db, s, id, dates[0], now);
      if EndOn(s, dates[0]) > now && dates[0] !in first.skipped {
        RowsStay(first.db, out.db, s, id, dates[0]);
      }
    }
  }

  /** The guard of series creation holds exactly when the creating run, over the same range
      and moment, skips a date or leaves the series a booking that has not ended. */
  lemma CreatableMeaning(db: Db, s: Series, id: nat, base: int, until: int, now: int)
    requires Fresh(db) && s.validFrom == FirstDate(s.pattern, base)
    requires forall k :: k in db.bookings ==> db.bookings[k].series != Some(id)
    requires Materialise(db, s, id, MatchingDates(s.pattern, s.validFrom, until), now).Done?
    ensures var out := Materialise(db, s, id, MatchingDates(s.pattern, s.validFrom, until), now);
      HasCreatableOccurrence(s.pattern, s.endMinute, base, until, now)
      <==> out.skipped != [] || exists k :: k in out.db.bookings && out.db.bookings[k].series == Some(id)
                                            && out.db.bookings[k].end > now
  {
    var dates := MatchingDates(s.pattern, s.validFrom, until);
    var out := Materialise(db, s, id, dates, now);
    EveryDateAnswered(db, s, id, dates, now);
    MaterialiseGrows(db, s, id, dates, now);
    if HasCreatableOccurrence(s.pattern, s.endMinute, base, until, now) {
      var d :| d in dates && EndOn(s, d) > now;
      if d !in out.skipped {
        var k :| k in OccurrenceRows(out.db.bookings, s, id, d);
        assert out.db.bookings[k].series == Some(id);
      }
    }
    if out.skipped != [] {
      var d := out.skipped[0];
      assert d in out.skipped;
      assert d in dates && Combine(d, s.endMinute) > now;
    }
    if k :| k in out.db.bookings && out.db.bookings[k].series == Some(id) && out.db.bookings[k].end > now {
      assert k !in db.bookings;
      var d :| d in dates && out.db.bookings[k] == Occurrence(s, id, d) && EndOn(s, d) > now;
      assert Combine(d, s.endMinute) > now;
    }
  }
}
