/** When series requests go through and what they do to the rows, said of dates, minutes and rows themselves. */
module SeriesMeaning {
  import opened Options
  import opened Calendar
  import opened Recurrence
  import opened BookingModel
  import opened Allocator
  import opened Materialisation
  import opened BookingSteps
  import opened BookingRuns
  import opened BookingMeaning

  // ---------- one run over a list of dates ----------

  /** The row that a run makes for a date. */
  predicate IsOccurrence(row: Booking, s: Series, id: nat, date: int) {
    row == Booking(s.resource, s.user, s.company, Some(id), Combine(date, s.startMinute), Combine(date, s.endMinute),
                   Confirmed, 1, None, NoReason, None)
  }

  /** A row of the series at the times of the date, in whatever status. */
  predicate StandsFor(row: Booking, s: Series, id: nat, date: int) {
    && row.resource == s.resource && row.user == s.user && row.company == s.company && row.series == Some(id)
    && row.start == Combine(date, s.startMinute) && row.end == Combine(date, s.endMinute)
  }

  function RowsFor(bookings: Bookings, s: Series, id: nat, date: int): set<nat> {
    set k | k in bookings && StandsFor(bookings[k], s, id, date)
  }

  /** A confirmed booking or a block of the resource meets [start, end). */
  predicate Taken(db: Db, resource: nat, start: int, end: int) {
    || (exists k :: k in db.bookings && Crosses(db.bookings[k], resource, start, end))
    || (exists b :: b in db.blocks && Bars(db.blocks[b], resource, start, end))
  }

  /** Earlier rows stay; every row added is an occurrence, not yet over, of a date wanted between the two. */
  ghost predicate AddsWithin(before: Bookings, after: Bookings, s: Series, id: nat, from: int, until: int, now: int) {
    && (forall k :: k in before ==> k in after && after[k] == before[k])
    && (forall k :: k in after && k !in before ==>
          exists d :: from <= d <= until && (s.pattern.Daily? || Weekday(d) == s.pattern.dayOfWeek % 7)
                   && Combine(d, s.endMinute) > now && IsOccurrence(after[k], s, id, d))
  }

  ghost predicate AddsOn(before: Bookings, after: Bookings, s: Series, id: nat, dates: seq<int>, now: int) {
    && (forall k :: k in before ==> k in after && after[k] == before[k])
    && (forall k :: k in after && k !in before ==>
          exists d :: d in dates && Combine(d, s.endMinute) > now && IsOccurrence(after[k], s, id, d))
  }

  lemma DatesWithin(before: Bookings, after: Bookings, s: Series, id: nat, first: int, from: int, until: int, now: int)
    requires from <= first && AddsOn(before, after, s, id, MatchingDates(s.pattern, first, until), now)
    ensures AddsWithin(before, after, s, id, from, until, now)
  {
    var dates := MatchingDates(s.pattern, first, until);
    MatchingDatesExact(s.pattern, first, until);
    forall k | k in after && k !in before
      ensures exists d :: from <= d <= until && (s.pattern.Daily? || Weekday(d) == s.pattern.dayOfWeek % 7)
                       && Combine(d, s.endMinute) > now && IsOccurrence(after[k], s, id, d)
    {
      var d :| d in dates && Combine(d, s.endMinute) > now && IsOccurrence(after[k], s, id, d);
      assert Wanted(s.pattern, d);
    }
  }

  /** Every row that a run adds is, for a date of the list that is not over, at exactly the minutes of the series; every
      earlier row and every other table stay as they were. */
  lemma AddedRows(db: Db, s: Series, id: nat, dates: seq<int>, now: int)
    requires Fresh(db)
    ensures var out := Materialise(db, s, id, dates, now);
      out.Done? ==>
        && AddsOn(db.bookings, out.db.bookings, s, id, dates, now)
        && out.db.blocks == db.blocks && out.db.series == db.series && out.db.resources == db.resources
        && out.db.audits == db.audits
  {
    MaterialiseGrows(db, s, id, dates, now);
    var out := Materialise(db, s, id, dates, now);
    if out.Done? {
      forall k | k in out.db.bookings && k !in db.bookings
        ensures exists d :: d in dates && Combine(d, s.endMinute) > now && IsOccurrence(out.db.bookings[k], s, id, d)
      {
        var d :| d in dates && out.db.bookings[k] == Occurrence(s, id, d) && EndOn(s, d) > now;
        assert IsOccurrence(out.db.bookings[k], s, id, d);
      }
    }
  }

  lemma TakenMeaning(db: Db, s: Series, date: int, now: int)
    ensures CheckOccurrence(db, s, date, now).Err?
      <==> Taken(db, s.resource, Combine(date, s.startMinute), Combine(date, s.endMinute))
  {
    ConflictCheckMeaning(db.bookings, db.blocks, s.resource, Combine(date, s.startMinute), Combine(date, s.endMinute),
                         None, None, now);
  }

  /** A date that is over is passed over; one that is taken is skipped; one that has a row keeps it; for any other one
      row is added. Several rows stop the run. `skipped` is what was skipped before. */
  ghost predicate TurnTaken(db: Db, skipped: seq<int>, out: Outcome, s: Series, id: nat, date: int, now: int) {
    var (start, end) := (Combine(date, s.startMinute), Combine(date, s.endMinute));
    var taken := Taken(db, s.resource, start, end);
    var rows := RowsFor(db.bookings, s, id, date);
    && (out.Crashed? <==> end > now && !taken && |rows| > 1)
    && (out.Done? ==>
          && out.skipped == skipped + (if end > now && taken then [date] else [])
          && (if end > now && !taken && rows == {} then OneRowMore(db, out.db, s, id, date) else out.db == db))
  }

  ghost predicate OneRowMore(db: Db, after: Db, s: Series, id: nat, date: int) {
    && after.bookings.Keys == db.bookings.Keys + {db.nextId}
    && IsOccurrence(after.bookings[db.nextId], s, id, date)
    && (forall k :: k in db.bookings && k != db.nextId ==> after.bookings[k] == db.bookings[k])
  }

  lemma InsertionMeaning(db: Db, s: Series, id: nat, date: int)
    ensures OneRowMore(db, InsertOccurrence(db, s, id, date), s, id, date)
  {
  }

  lemma RowsMeaning(bookings: Bookings, s: Series, id: nat, date: int)
    ensures RowsFor(bookings, s, id, date) == OccurrenceRows(bookings, s, id, date)
  {
  }

  lemma DateMeaning(db: Db, s: Series, id: nat, date: int, now: int)
    ensures TurnTaken(db, [], MaterialiseDate(db, s, id, date, now), s, id, date, now)
  {
    TakenMeaning(db, s, date, now);
    RowsMeaning(db.bookings, s, id, date);
    InsertionMeaning(db, s, id, date);
    var rows := RowsFor(db.bookings, s, id, date);
    if rows == {} {
      assert |rows| == 0;
    }
  }

  /** What a run does when the turn of a date comes, on the tables as the dates before have left them. */
  lemma TurnMeaning(db: Db, s: Series, id: nat, dates: seq<int>, i: nat, now: int)
    requires i < |dates| && Materialise(db, s, id, dates[..i], now).Done?
    ensures var (before, after) := (Materialise(db, s, id, dates[..i], now),
                                    Materialise(db, s, id, dates[..i + 1], now));
      TurnTaken(before.db, before.skipped, after, s, id, dates[i], now)
  {
    var before := Materialise(db, s, id, dates[..i], now);
    assert dates[..i + 1] == dates[..i] + [dates[i]];
    MaterialiseSplit(db, s, id, dates[..i], [dates[i]], now);
    OneDate(before.db, s, id, dates[i], now);
    DateMeaning(before.db, s, id, dates[i], now);
    SkippedLater(before.db, before.skipped, MaterialiseDate(before.db, s, id, dates[i], now), s, id, dates[i], now);
  }

  lemma SkippedLater(db: Db, skipped: seq<int>, out: Outcome, s: Series, id: nat, date: int, now: int)
    requires TurnTaken(db, [], out, s, id, date, now)
    ensures TurnTaken(db, skipped, After(skipped, out), s, id, date, now)
  {
  }

  lemma OneDate(db: Db, s: Series, id: nat, date: int, now: int)
    ensures Materialise(db, s, id, [date], now) == MaterialiseDate(db, s, id, date, now)
  {
    var first := MaterialiseDate(db, s, id, date, now);
    assert [date][1..] == [];
    if first.Done? {
      assert first.skipped + [] == first.skipped;
    }
  }

  // ---------- creating a series ----------

  /** Everything that a request for a series asks of the tables, the user and the template. */
  ghost predicate SeriesBookable(db: Db, user: User, id: nat, p: Pattern, startMinute: int, endMinute: int, until: int,
                                 today: int, now: int) {
    && id in db.resources && 0 <= startMinute < endMinute < 1440
    && (p.Weekly? ==> 0 <= p.dayOfWeek <= 6) && today <= until
    && MayUse(db.resources[id], user)
    && (p.Weekly? && db.resources[id].availableDays != {} ==> p.dayOfWeek in db.resources[id].availableDays)
    && db.resources[id].availableFrom <= startMinute && endMinute <= db.resources[id].availableUntil
    && (forall k :: k in db.series ==>
          var other := db.series[k];
          !(other.isActive && other.resource == id && other.startMinute == startMinute && other.endMinute == endMinute
            && other.pattern == p && other.validFrom <= until
            && (other.validUntil.Some? ==> today <= other.validUntil.value)))
    && (exists d :: today <= d <= until && (p.Daily? || Weekday(d) == p.dayOfWeek) && Combine(d, endMinute) > now)
    && (user.company.Some? || db.resources[id].assignedCompany.Some? || user.role.SuperAdmin? || user.role.Guest?)
  }

  lemma WantedDay(p: Pattern, d: int)
    requires p.Weekly? ==> 0 <= p.dayOfWeek <= 6
    ensures Wanted(p, d) <==> p.Daily? || Weekday(d) == p.dayOfWeek
  {
  }

  /** The listed dates are the wanted ones from today on: none is wanted before the first. */
  lemma ListedFromToday(p: Pattern, today: int, until: int, d: int)
    ensures d in MatchingDates(p, FirstDate(p, today), until) <==> today <= d <= until && Wanted(p, d)
  {
    MatchingDatesExact(p, FirstDate(p, today), until);
  }

  lemma CreatableDates(p: Pattern, endMinute: int, today: int, until: int, now: int)
    requires p.Weekly? ==> 0 <= p.dayOfWeek <= 6
    ensures HasCreatableOccurrence(p, endMinute, today, until, now) <==>
      exists d :: today <= d <= until && (p.Daily? || Weekday(d) == p.dayOfWeek) && Combine(d, endMinute) > now
  {
    forall d
      ensures d in MatchingDates(p, FirstDate(p, today), until)
         <==> today <= d <= until && (p.Daily? || Weekday(d) == p.dayOfWeek)
    {
      ListedFromToday(p, today, until, d);
      WantedDay(p, d);
    }
  }

  lemma DuplicateMeaning(other: Series, s: Series, today: int, until: int)
    requires s.validUntil == Some(until)
    ensures Duplicates(other, s, today) <==>
      (other.isActive && other.resource == s.resource && other.startMinute == s.startMinute
       && other.endMinute == s.endMinute && other.pattern == s.pattern && other.validFrom <= until
       && (other.validUntil.Some? ==> today <= other.validUntil.value))
  {
  }

  lemma CheckSeriesMeaning(db: Db, user: User, id: nat, p: Pattern, startMinute: int, endMinute: int, until: int,
                           today: int, now: int)
    requires IsToday(today, now)
    ensures CheckSeries(db, user, id, p, startMinute, endMinute, until, now).None?
      <==> SeriesBookable(db, user, id, p, startMinute, endMinute, until, today, now)
  {
    TodayIsLocalDate(today, now);
    if id in db.resources && (p.Weekly? ==> 0 <= p.dayOfWeek <= 6) {
      var s := NewSeries(db.resources[id], id, user, p, startMinute, endMinute, until, today);
      AccessMeaning(db.resources[id], user);
      CreatableDates(p, endMinute, today, until, now);
      forall k | k in db.series
        ensures Duplicates(db.series[k], s, today) <==>
          var other := db.series[k];
          (other.isActive && other.resource == id && other.startMinute == startMinute && other.endMinute == endMinute
           && other.pattern == p && other.validFrom <= until
           && (other.validUntil.Some? ==> today <= other.validUntil.value))
      {
        DuplicateMeaning(db.series[k], s, today, until);
      }
    }
  }

  /** A run over dates that have no row yet never finds several. */
  lemma {:induction false} FirstRunCompletes(db: Db, s: Series, id: nat, dates: seq<int>, now: int)
    requires Increasing(dates) && forall d :: d in dates ==> OccurrenceRows(db.bookings, s, id, d) == {}
    ensures Materialise(db, s, id, dates, now).Done?
    decreases |dates|
  {
    if dates == [] {
    } else {
      var first := MaterialiseDate(db, s, id, dates[0], now);
      assert dates[0] in dates;
      forall d | d in dates[1..]
        ensures OccurrenceRows(first.db.bookings, s, id, d) == {}
      {
        assert d != dates[0] && d in dates;
        assert OccurrenceRows(db.bookings, s, id, d) == {};
        OtherDateStaysOpen(db, s, id, dates[0], d);
      }
      FirstRunCompletes(first.db, s, id, dates[1..], now);
    }
  }

  lemma OtherDateStaysOpen(db: Db, s: Series, id: nat, date: int, other: int)
    requires date != other && OccurrenceRows(db.bookings, s, id, other) == {}
    ensures OccurrenceRows(InsertOccurrence(db, s, id, date).bookings, s, id, other) == {}
  {
    assert StartOn(s, date) != StartOn(s, other);
    forall k | k in db.bookings
      ensures k !in OccurrenceRows(db.bookings, s, id, other)
    {
    }
  }

  /** A request for a series is accepted exactly when it is bookable. Then the series row is there, running from the
      first wanted day on, and its bookings with it. A refused one changes nothing. */
  lemma SeriesIsAccepted(db: Db, user: User, id: nat, p: Pattern, startMinute: int, endMinute: int, until: int,
                         today: int, now: int)
    requires IsToday(today, now) && Fresh(db)
    requires forall k :: k in db.bookings ==> db.bookings[k].series != Some(db.nextId)
    ensures var (after, answer) := CreateSeries(db, user, id, p, startMinute, endMinute, until, now);
      && (answer.Ok? <==> SeriesBookable(db, user, id, p, startMinute, endMinute, until, today, now))
      && (answer.Err? ==> after == db)
  {
    CheckSeriesMeaning(db, user, id, p, startMinute, endMinute, until, today, now);
    if CheckSeries(db, user, id, p, startMinute, endMinute, until, now).None? {
      var s := NewSeries(db.resources[id], id, user, p, startMinute, endMinute, until, LocalDate(now));
      NewSeriesCompletes(db, s, s.validFrom, until, now);
    }
  }

  lemma NewSeriesCompletes(db: Db, s: Series, from: int, until: int, now: int)
    requires forall k :: k in db.bookings ==> db.bookings[k].series != Some(db.nextId)
    ensures InsertSeries(db, s, MatchingDates(s.pattern, from, until), now).1.Ok?
  {
    var inserted := db.(series := db.series[db.nextId := s], nextId := db.nextId + 1);
    MatchingDatesExact(s.pattern, from, until);
    FirstRunCompletes(inserted, s, db.nextId, MatchingDates(s.pattern, from, until), now);
  }

  lemma CreateSeriesUnfolds(db: Db, user: User, id: nat, p: Pattern, startMinute: int, endMinute: int, until: int,
                            today: int, now: int)
    requires IsToday(today, now) && CreateSeries(db, user, id, p, startMinute, endMinute, until, now).1.Ok?
    ensures SeriesBookable(db, user, id, p, startMinute, endMinute, until, today, now)
    ensures var s := NewSeries(db.resources[id], id, user, p, startMinute, endMinute, until, today);
      CreateSeries(db, user, id, p, startMinute, endMinute, until, now)
      == InsertSeries(db, s, MatchingDates(p, s.validFrom, until), now)
  {
    CheckSeriesMeaning(db, user, id, p, startMinute, endMinute, until, today, now);
    TodayIsLocalDate(today, now);
  }

  /** The series row that a request makes. It runs from today on, or from the first wanted weekday on. */
  ghost predicate IsNewSeries(s: Series, resource: Resource, user: User, id: nat, p: Pattern, startMinute: int,
                              endMinute: int, until: int, today: int) {
    && s.resource == id && s.user == user.id && s.pattern == p && s.isActive && s.validUntil == Some(until)
    && s.startMinute == startMinute && s.endMinute == endMinute
    && s.company == (if user.company.None? then resource.assignedCompany else user.company)
    && (p.Daily? ==> s.validFrom == today)
    && (p.Weekly? ==> today <= s.validFrom < today + 7 && Weekday(s.validFrom) == p.dayOfWeek)
  }

  lemma CreatedSeries(db: Db, user: User, id: nat, p: Pattern, startMinute: int, endMinute: int, until: int,
                      today: int, now: int)
    requires IsToday(today, now) && Fresh(db)
    requires CreateSeries(db, user, id, p, startMinute, endMinute, until, now).1.Ok?
    ensures var after := CreateSeries(db, user, id, p, startMinute, endMinute, until, now).0;
      && id in db.resources && db.nextId in after.series
      && after.series == db.series[db.nextId := after.series[db.nextId]]
      && IsNewSeries(after.series[db.nextId], db.resources[id], user, id, p, startMinute, endMinute, until, today)
      && AddsWithin(db.bookings, after.bookings, after.series[db.nextId], db.nextId, today, until, now)
  {
    CreateSeriesUnfolds(db, user, id, p, startMinute, endMinute, until, today, now);
    var s := NewSeries(db.resources[id], id, user, p, startMinute, endMinute, until, today);
    assert IsNewSeries(s, db.resources[id], user, id, p, startMinute, endMinute, until, today);
    InsertedRows(db, s, MatchingDates(p, s.validFrom, until), now);
    var after := InsertSeries(db, s, MatchingDates(p, s.validFrom, until), now).0;
    DatesWithin(db.bookings, after.bookings, s, db.nextId, s.validFrom, today, until, now);
  }

  lemma InsertedRows(db: Db, s: Series, dates: seq<int>, now: int)
    requires Fresh(db) && InsertSeries(db, s, dates, now).1.Ok?
    ensures var after := InsertSeries(db, s, dates, now).0;
      after.series == db.series[db.nextId := s] && AddsOn(db.bookings, after.bookings, s, db.nextId, dates, now)
  {
    var inserted := db.(series := db.series[db.nextId := s], nextId := db.nextId + 1);
    AddedRows(inserted, s, db.nextId, dates, now);
  }

  // ---------- the periodic job ----------

  /** A pass takes the active series that have an end date from today on, each once. */
  lemma QueueMeaning(db: Db, order: seq<nat>, today: int)
    ensures IsQueue(db, order, today) <==>
      ((forall i, j :: 0 <= i < j < |order| ==> order[i] != order[j])
       && (forall id :: id in order <==>
             id in db.series && db.series[id].isActive
             && db.series[id].validUntil.Some? && today <= db.series[id].validUntil.value))
  {
  }

  function Days(p: Pattern): nat {
    match p case Daily => 1 case Weekly(_) => 7
  }

  lemma ExtendedOnceUnfolds(db: Db, id: nat, now: int)
    requires id in db.series && db.series[id].validUntil.Some?
    ensures var s := db.series[id];
      var (until, next) := (s.validUntil.value, s.validUntil.value + Days(s.pattern));
      var out := Materialise(db, s, id, MatchingDates(s.pattern, until + 1, next), now);
      ExtendedOnce(db, id, now)
      == if out.Done? then (out.db.(series := out.db.series[id := s.(validUntil := Some(next))]), true) else (db, false)
  {
  }

  lemma RunWithin(db: Db, s: Series, id: nat, from: int, until: int, now: int)
    requires Fresh(db)
    ensures var out := Materialise(db, s, id, MatchingDates(s.pattern, from, until), now);
      out.Done? ==> AddsWithin(db.bookings, out.db.bookings, s, id, from, until, now) && out.db.series == db.series
  {
    AddedRows(db, s, id, MatchingDates(s.pattern, from, until), now);
    var out := Materialise(db, s, id, MatchingDates(s.pattern, from, until), now);
    if out.Done? {
      DatesWithin(db.bookings, out.db.bookings, s, id, from, from, until, now);
    }
  }

  /** The series has its wanted dates between the two ends, and the later end. */
  ghost predicate Extends(before: Db, after: Db, s: Series, id: nat, until: int, next: int, now: int) {
    && after.series == before.series[id := s.(validUntil := Some(next))]
    && AddsWithin(before.bookings, after.bookings, s, id, until + 1, next, now)
  }

  lemma MovingTheEndExtends(db: Db, mid: Db, s: Series, id: nat, until: int, next: int, now: int)
    requires mid.series == db.series && AddsWithin(db.bookings, mid.bookings, s, id, until + 1, next, now)
    ensures Extends(db, mid.(series := mid.series[id := s.(validUntil := Some(next))]), s, id, until, next, now)
  {
  }

  lemma ExtensionOf(db: Db, s: Series, id: nat, until: int, next: int, now: int)
    requires Fresh(db) && id in db.series && db.series[id] == s
    requires s.validUntil == Some(until) && next == until + Days(s.pattern)
    ensures var (after, extended) := ExtendedOnce(db, id, now);
      if extended then Extends(db, after, s, id, until, next, now) else after == db
  {
    var out := Materialise(db, s, id, MatchingDates(s.pattern, until + 1, next), now);
    ExtendedOnceUnfolds(db, id, now);
    RunWithin(db, s, id, until + 1, next, now);
    if out.Done? {
      MovingTheEndExtends(db, out.db, s, id, until, next, now);
    }
  }

  /** One series of a pass: its wanted dates of the next day or week, and the end moved on; or nothing at all. */
  lemma ExtensionMeaning(db: Db, id: nat, now: int)
    requires Fresh(db) && id in db.series && db.series[id].validUntil.Some?
    ensures var (after, extended) := ExtendedOnce(db, id, now);
      var (s, until) := (db.series[id], db.series[id].validUntil.value);
      if extended then Extends(db, after, s, id, until, until + Days(s.pattern), now) else after == db
  {
    var (s, until) := (db.series[id], db.series[id].validUntil.value);
    ExtensionOf(db, s, id, until, until + Days(s.pattern), now);
  }

  ghost predicate MovedOn(before: map<nat, Series>, after: map<nat, Series>, some: seq<nat>) {
    && after.Keys == before.Keys
    && forall k :: k in before ==>
         if k in some
         then before[k].validUntil.Some?
              && after[k] == before[k].(validUntil := Some(before[k].validUntil.value + Days(before[k].pattern)))
         else after[k] == before[k]
  }

  lemma OneMoreMoved(before: map<nat, Series>, mid: map<nat, Series>, after: map<nat, Series>, first: nat,
                     rest: seq<nat>)
    requires MovedOn(before, mid, [first]) && MovedOn(mid, after, rest) && first !in rest
    ensures MovedOn(before, after, [first] + rest)
  {
    forall k | k in before
      ensures k in [first] + rest <==> k in [first] || k in rest
    {
    }
  }

  lemma FirstMoved(db: Db, id: nat, now: int)
    requires Fresh(db) && id in db.series && db.series[id].validUntil.Some?
    ensures var (after, extended) := ExtendedOnce(db, id, now);
      && Fresh(after)
      && (if extended then MovedOn(db.series, after.series, [id]) else after == db)
  {
    ExtensionMeaning(db, id, now);
    ExtendingKeepsFresh(db, id, now);
  }

  /** The run of this series over its next period finds several rows for a date. */
  ghost predicate FailsOn(db: Db, id: nat, now: int) {
    && id in db.series && db.series[id].validUntil.Some?
    && var s := db.series[id];
       var (until, next) := (s.validUntil.value, s.validUntil.value + Days(s.pattern));
       Materialise(db, s, id, MatchingDates(s.pattern, until + 1, next), now).Crashed?
  }

  lemma FailureMeaning(db: Db, id: nat, now: int)
    requires id in db.series && db.series[id].validUntil.Some?
    ensures !ExtendedOnce(db, id, now).1 <==> FailsOn(db, id, now)
  {
    ExtendedOnceUnfolds(db, id, now);
  }

  lemma PrefixUnfolds(db: Db, order: seq<nat>, m: nat, now: int)
    requires m < |order| && order[0] in db.series && db.series[order[0]].validUntil.Some?
    requires ExtendedOnce(db, order[0], now).1
    ensures order[..m + 1] == [order[0]] + order[1..][..m]
    ensures Generate(db, order[..m + 1], now) == Generate(ExtendedOnce(db, order[0], now).0, order[1..][..m], now)
  {
    assert order[..m + 1][1..] == order[1..][..m];
    GenerateUnfolds(db, order[..m + 1], now);
  }

  /** A pass extends the series of a prefix of the queue, each by its period, and leaves all others as they were. It
      stops early only at a series whose run fails on what the pass has made so far. */
  lemma {:induction false} PassMeaning(db: Db, order: seq<nat>, now: int) returns (n: nat)
    requires Fresh(db)
    requires forall i :: 0 <= i < |order| ==> order[i] in db.series && db.series[order[i]].validUntil.Some?
    requires forall i, j :: 0 <= i < j < |order| ==> order[i] != order[j]
    ensures n <= |order| && MovedOn(db.series, Generate(db, order, now).series, order[..n])
    ensures n < |order| ==> FailsOn(Generate(db, order[..n], now), order[n], now)
    decreases |order|
  {
    n := 0;
    if order == [] {
      GenerateStops(db, order, now);
    } else {
      var (after, extended) := ExtendedOnce(db, order[0], now);
      GenerateUnfolds(db, order, now);
      FirstMoved(db, order[0], now);
      if extended {
        var rest := order[1..];
        var m := PassMeaning(after, rest, now);
        n := m + 1;
        PrefixUnfolds(db, order, m, now);
        OneMoreMoved(db.series, after.series, Generate(after, rest, now).series, order[0], rest[..m]);
      } else {
        GenerateStops(db, order[..0], now);
        FailureMeaning(db, order[0], now);
      }
    }
  }

  lemma ExtendingKeepsFresh(db: Db, id: nat, now: int)
    requires Fresh(db) && id in db.series && db.series[id].validUntil.Some?
    ensures Fresh(ExtendedOnce(db, id, now).0)
  {
    var s := db.series[id];
    var (from, until) := (s.validUntil.value + 1, s.validUntil.value + AdvanceDays(s.pattern));
    MaterialiseGrows(db, s, id, MatchingDates(s.pattern, from, until), now);
  }

  // ---------- editing and deleting ----------

  lemma EditMeaning(db: Db, id: nat, t: Template)
    ensures var (after, error) := EditSeries(db, id, t);
      && (error.None? <==> id in db.series && t.resource in db.resources
                           && 0 <= t.startMinute < 1440 && 0 <= t.endMinute < 1440)
      && (error.Some? ==> after == db)
      && (error.None? ==>
            && after == db.(series := db.series[id := after.series[id]])
            && after.series[id] == Series(t.resource, db.series[id].user, db.series[id].company, t.pattern,
                                          t.startMinute, t.endMinute, t.isActive, t.validFrom, t.validUntil))
  {
  }

  /** With a series go exactly its bookings that have not started; the others stay, without the link. */
  lemma DeleteMeaning(db: Db, id: nat, now: int)
    ensures var (after, error) := DeleteSeries(db, id, now);
      && (error.None? <==> id in db.series)
      && (error.Some? ==> after == db)
      && (error.None? ==>
            && after == db.(series := db.series - {id}, bookings := after.bookings)
            && (forall k :: k in after.bookings <==>
                  k in db.bookings && (db.bookings[k].series == Some(id) ==> db.bookings[k].start <= now))
            && (forall k :: k in after.bookings ==>
                  after.bookings[k] ==
                    if db.bookings[k].series == Some(id) then db.bookings[k].(series := None) else db.bookings[k]))
  {
  }

  lemma DeleteBookingMeaning(db: Db, id: nat)
    ensures var (after, error) := DeleteBooking(db, id);
      && (error.None? <==> id in db.bookings)
      && after == (if error.None? then db.(bookings := db.bookings - {id}) else db)
  {
  }
}
