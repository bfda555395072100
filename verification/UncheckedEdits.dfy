/** Writes that check nothing: a PATCH of a booking without times, the same PATCH saving a row that it read
    earlier, and a PATCH of a series. */
module UncheckedEdits {
  import opened Options
  import opened Calendar
  import opened Recurrence
  import opened BookingModel
  import opened Allocator
  import opened Materialisation
  import opened BookingSteps
  import opened BookingRuns

  // ---------- saving a booking ----------

  /** Saves a whole row, whatever stood there. */
  function Save(db: Db, id: nat, row: Booking): Db {
    db.(bookings := db.bookings[id := row])
  }

  /** What a time PATCH would have checked of the row. */
  ghost predicate Fits(db: Db, id: nat, row: Booking) {
    && row.start < row.end && Free(db.bookings, id, row.resource, row.start, row.end)
    && !Blocked(db.blocks, row.resource, row.start, row.end)
  }

  /** Saving keeps the allocation sound exactly when the saved row is not confirmed, or is non-empty, free and
      unblocked. */
  lemma SaveKeepsAllocated(db: Db, id: nat, row: Booking)
    requires Allocated(db)
    ensures Allocated(Save(db, id, row)) <==> (row.status.Confirmed? ==> Fits(db, id, row))
  {
    var after := Save(db, id, row).bookings;
    assert after[id] == row;
    if !row.status.Confirmed? {
      ShrinkingIsSafe(db.bookings, after, db.blocks);
    } else if Fits(db, id, row) {
      PlacingKeepsSound(db.bookings, db.blocks, id, row);
    } else if row.start >= row.end {
      assert !NonEmpty(after);
    } else {
      if !Free(db.bookings, id, row.resource, row.start, row.end) {
        ghost var k :| k in db.bookings && k != id && Holds(db.bookings, k, row.resource)
                    && Meets(db.bookings[k].start, db.bookings[k].end, row.start, row.end);
        assert after[k] == db.bookings[k];
      } else {
        ghost var k :| k in db.blocks && db.blocks[k].resource == row.resource
                    && Meets(db.blocks[k].start, db.blocks[k].end, row.start, row.end);
        assert !ClearOfBlocks(after, db.blocks);
      }
    }
  }

  /** A PATCH that sends neither time saves `status` and `resource` as they come. */
  function PlainPatch(db: Db, id: nat, status: Option<Status>, resource: Option<nat>): Db {
    if id !in db.bookings then db
    else
      var row := db.bookings[id];
      Save(db, id, row.(status := if status.Some? then status.value else row.status,
                        resource := if resource.Some? then resource.value else row.resource))
  }

  lemma PlainPatchKeepsAllocated(db: Db, id: nat, status: Option<Status>, resource: Option<nat>)
    requires Allocated(db) && id in db.bookings
    ensures PlainPatch(db, id, status, resource) == db.(bookings := db.bookings[id := db.bookings[id].(
      status := if status.None? then db.bookings[id].status else status.value,
      resource := if resource.None? then db.bookings[id].resource else resource.value)])
    ensures var after := PlainPatch(db, id, status, resource);
      Allocated(after) <==> (after.bookings[id].status.Confirmed? ==> Fits(db, id, after.bookings[id]))
  {
    SaveKeepsAllocated(db, id, PlainPatch(db, id, status, resource).bookings[id]);
  }

  /** A PATCH of the times that also sends `status` or `resource` checks the new times on the old resource, and saves
      all of them. */
  function TimePatch(db: Db, caller: User, id: nat, start: int, end: int, status: Option<Status>,
                     resource: Option<nat>, now: int): (Db, Option<Error>) {
    var error := CheckPatch(db, caller, id, start, end, now);
    if error.Some? then (db, error)
    else
      var row := db.bookings[id];
      (Save(db, id, row.(start := start, end := end,
                         status := if status.Some? then status.value else row.status,
                         resource := if resource.Some? then resource.value else row.resource)),
       None)
  }

  lemma TimePatchMeaning(db: Db, caller: User, id: nat, start: int, end: int, status: Option<Status>,
                         resource: Option<nat>, now: int)
    ensures var (after, error) := TimePatch(db, caller, id, start, end, status, resource, now);
      && error == PatchTimes(db, caller, id, start, end, now).1
      && (error.Some? ==> after == db)
      && (error.None? ==> id in db.bookings
                          && after == db.(bookings := db.bookings[id := db.bookings[id].(
                               start := start, end := end,
                               status := if status.None? then db.bookings[id].status else status.value,
                               resource := if resource.None? then db.bookings[id].resource else resource.value)]))
  {
  }

  /** It keeps the allocation exactly when the saved row is not confirmed, stays on its resource, or fits on the new
      one. */
  lemma TimePatchKeepsAllocated(db: Db, caller: User, id: nat, start: int, end: int, status: Option<Status>,
                                resource: Option<nat>, now: int)
    requires Allocated(db) && TimePatch(db, caller, id, start, end, status, resource, now).1.None?
    ensures var after := TimePatch(db, caller, id, start, end, status, resource, now).0;
      var row := after.bookings[id];
      Allocated(after) <==> (row.status.Confirmed? && row.resource != db.bookings[id].resource ==> Fits(db, id, row))
  {
    var before := db.bookings[id];
    var row := TimePatch(db, caller, id, start, end, status, resource, now).0.bookings[id];
    SaveKeepsAllocated(db, id, row);
    NoConflictsMeaning(db.bookings, db.blocks, before.resource, start, end, Some(id), None, now);
    forall k | k in db.bookings && k != id && Holds(db.bookings, k, before.resource)
      ensures !Meets(db.bookings[k].start, db.bookings[k].end, start, end)
    {
      assert k in Overlapping(db.bookings, before.resource, start, end)
         <==> Meets(db.bookings[k].start, db.bookings[k].end, start, end);
    }
  }

  /** The tables after booking a slot, cancelling, and booking it again. */
  ghost function BookedTwice(resources: map<nat, Resource>, user: User, id: nat, start: int, end: int, text: string,
                             now: int): Db
  {
    var create := CreateEvent(user, id, start, end);
    Run(EmptyTables(resources), [(create, now), (AdminCancelEvent(user.id, 0, text), now), (create, now)])
  }

  lemma BookedTwiceRows(resources: map<nat, Resource>, user: User, id: nat, start: int, end: int, text: string,
                        now: int)
    requires Create(EmptyTables(resources), user, id, start, end, now).1.Ok? && text != ""
    ensures id in resources && start < end
    ensures var row := NewBooking(resources[id], id, user, start, end);
      BookedTwice(resources, user, id, start, end, text, now).bookings
      == map[0 := Withdrawn(row, user.id, Given(text)), 1 := row]
  {
    var (create, cancel) := (CreateEvent(user, id, start, end), AdminCancelEvent(user.id, 0, text));
    var empty := EmptyTables(resources);
    RunOfThree(empty, create, cancel, create, now);
    NextOfCreate(empty, create, now);
    FirstBooking(resources, user, id, start, end, now);
    var booked := Create(empty, user, id, start, end, now).0;
    var cancelled := AdminCancel(booked, user.id, 0, text, now).0;
    NextOfAdminCancel(booked, user.id, 0, text, now);
    CancelledBooking(booked, NewBooking(resources[id], id, user, start, end), user.id, text, now);
    NextOfCreate(cancelled, create, now);
    BookAgain(resources, cancelled, NewBooking(resources[id], id, user, start, end), user, id, start, end, now);
  }

  lemma NextOfAdminCancel(db: Db, actor: nat, id: nat, text: string, now: int)
    ensures Next(db, AdminCancelEvent(actor, id, text), now) == AdminCancel(db, actor, id, text, now).0
  {
  }

  /** Book, cancel, book again: in every such run the cancelled booking can be patched back over the new one. */
  lemma PlainPatchCanDoubleBook(resources: map<nat, Resource>, user: User, id: nat, start: int, end: int, text: string,
                                now: int)
    requires Create(EmptyTables(resources), user, id, start, end, now).1.Ok? && text != ""
    ensures var db := BookedTwice(resources, user, id, start, end, text, now);
      Sound(db) && !Allocated(PlainPatch(db, 0, Some(Confirmed), None))
  {
    var create := CreateEvent(user, id, start, end);
    EveryReachableStateIsSound(resources, [(create, now), (AdminCancelEvent(user.id, 0, text), now), (create, now)]);
    BookedTwiceRows(resources, user, id, start, end, text, now);
    var db := BookedTwice(resources, user, id, start, end, text, now);
    TwoInOneSlot(PlainPatch(db, 0, Some(Confirmed), None));
  }

  lemma TwoInOneSlot(db: Db)
    requires 0 in db.bookings && 1 in db.bookings
    requires db.bookings[0].status.Confirmed? && db.bookings[1].status.Confirmed?
    requires db.bookings[0].resource == db.bookings[1].resource
    requires db.bookings[0].start == db.bookings[1].start && db.bookings[0].end == db.bookings[1].end
    ensures !Allocated(db)
  {
  }

  lemma RunOfThree(db: Db, a: Event, b: Event, c: Event, now: int)
    ensures Run(db, [(a, now), (b, now), (c, now)]) == Next(Next(Next(db, a, now), b, now), c, now)
  {
    RunFirst(db, a, now, [(b, now), (c, now)]);
    assert [(a, now), (b, now), (c, now)] == [(a, now)] + [(b, now), (c, now)];
    RunFirst(Next(db, a, now), b, now, [(c, now)]);
    assert [(b, now), (c, now)] == [(b, now)] + [(c, now)];
    RunOfOne(Next(Next(db, a, now), b, now), c, now);
  }

  lemma FirstBooking(resources: map<nat, Resource>, user: User, id: nat, start: int, end: int, now: int)
    requires Create(EmptyTables(resources), user, id, start, end, now).1.Ok?
    ensures id in resources && start < end
    ensures var after := Create(EmptyTables(resources), user, id, start, end, now).0;
      after.bookings == map[0 := NewBooking(resources[id], id, user, start, end)] && after.nextId == 1
      && after.resources == resources && after.blocks == map[]
  {
    var empty := EmptyTables(resources);
    CreateMeaning(empty, user, id, start, end, now);
    var after := Create(empty, user, id, start, end, now).0;
    assert after.bookings.Keys == {0};
  }

  lemma CancelledBooking(db: Db, row: Booking, actor: nat, text: string, now: int)
    requires db.bookings == map[0 := row] && text != ""
    ensures var after := AdminCancel(db, actor, 0, text, now).0;
      after.bookings == map[0 := Withdrawn(row, actor, Given(text))]
      && after.nextId == db.nextId && after.resources == db.resources && after.blocks == db.blocks
  {
  }

  /** A cancelled booking is in nobody's way. */
  lemma BookAgain(resources: map<nat, Resource>, db: Db, row: Booking, user: User, id: nat, start: int, end: int,
                  now: int)
    requires Create(EmptyTables(resources), user, id, start, end, now).1.Ok? && id in resources
    requires row == NewBooking(resources[id], id, user, start, end)
    requires 0 in db.bookings && db.bookings.Keys == {0} && db.bookings[0].status.Cancelled?
    requires db.bookings[0].resource == row.resource && db.bookings[0].start == start && db.bookings[0].end == end
    requires db.resources == resources && db.blocks == map[] && db.nextId == 1
    ensures var after := Create(db, user, id, start, end, now).0;
      after.bookings == map[0 := db.bookings[0], 1 := row]
  {
    var empty := EmptyTables(resources);
    assert Overlapping(db.bookings, id, start, end) == {} == Overlapping(empty.bookings, id, start, end);
    assert ActiveBookings(db.bookings, user.id, now) == {} == ActiveBookings(empty.bookings, user.id, now);
    assert CheckCreate(db, user, id, start, end, now) == CheckCreate(empty, user, id, start, end, now);
    CreateMeaning(db, user, id, start, end, now);
    var after := Create(db, user, id, start, end, now).0;
    assert after.bookings.Keys == {0, 1};
  }

  // ---------- saving a row that was read earlier ----------

  /** A PATCH of the description reads the row, and saves all of it after other requests have run: exactly then is the
      allocation still sound, when the row was not confirmed at the reading, or its slot is still free and unblocked. */
  lemma StaleSaveKeepsAllocated(atRead: Db, between: seq<(Event, int)>, id: nat)
    requires Sound(atRead) && id in atRead.bookings
    ensures var (row, db) := (atRead.bookings[id], Run(atRead, between));
      Allocated(Save(db, id, row))
      <==> (row.status.Confirmed? ==>
              Free(db.bookings, id, row.resource, row.start, row.end)
              && !Blocked(db.blocks, row.resource, row.start, row.end))
  {
    RunKeepsSound(atRead, between);
    SaveKeepsAllocated(Run(atRead, between), id, atRead.bookings[id]);
  }

  /** It revives a booking exactly when the row was confirmed at the reading and is not any more. */
  lemma StaleSaveRevives(atRead: Db, between: seq<(Event, int)>, id: nat)
    requires Sound(atRead) && id in atRead.bookings
    ensures var (row, db) := (atRead.bookings[id], Run(atRead, between));
      NeverRevives(db, Save(db, id, row))
      <==> (row.status.Confirmed? ==> id in db.bookings && db.bookings[id].status.Confirmed?)
  {
    RunKeepsSound(atRead, between);
    var db := Run(atRead, between);
    assert id < db.nextId;
    assert Save(db, id, atRead.bookings[id]).bookings[id] == atRead.bookings[id];
  }

  /** While the booking itself stays confirmed in its slot, whatever else happens, the save is harmless. */
  lemma UntouchedSlotStaysSound(atRead: Db, between: seq<(Event, int)>, id: nat)
    requires Sound(atRead) && id in atRead.bookings && id in Run(atRead, between).bookings
    requires var (row, now) := (atRead.bookings[id], Run(atRead, between).bookings[id]);
      now.status.Confirmed? && now.resource == row.resource && now.start == row.start && now.end == row.end
    ensures var after := Save(Run(atRead, between), id, atRead.bookings[id]);
      Allocated(after) && NeverRevives(Run(atRead, between), after)
  {
    var (row, db) := (atRead.bookings[id], Run(atRead, between));
    RunKeepsSound(atRead, between);
    StaleSaveRevives(atRead, between, id);
    if row.status.Confirmed? {
      assert Holds(db.bookings, id, row.resource);
      assert Free(db.bookings, id, row.resource, row.start, row.end);
      assert !Blocked(db.blocks, row.resource, row.start, row.end);
    }
    SaveKeepsAllocated(db, id, row);
  }

  /** A booking is read for a PATCH of its description, displaced by one of higher priority, and saved: both are
      confirmed for the same slot. */
  lemma StaleSaveCanDoubleBook(resources: map<nat, Resource>, user: User, other: User, id: nat, start: int, end: int,
                               now: int)
    requires Create(EmptyTables(resources), user, id, start, end, now).1.Ok?
    requires Create(Create(EmptyTables(resources), user, id, start, end, now).0, other, id, start, end, now).1.Ok?
    ensures var atRead := Run(EmptyTables(resources), [(CreateEvent(user, id, start, end), now)]);
      var db := Run(atRead, [(CreateEvent(other, id, start, end), now)]);
      0 in atRead.bookings && Sound(db) && !Allocated(Save(db, 0, atRead.bookings[0]))
  {
    var empty := EmptyTables(resources);
    var (first, second) := (CreateEvent(user, id, start, end), CreateEvent(other, id, start, end));
    var atRead := Create(empty, user, id, start, end, now).0;
    RunOfOne(empty, first, now);
    NextOfCreate(empty, first, now);
    RunOfOne(atRead, second, now);
    NextOfCreate(atRead, second, now);
    EveryReachableStateIsSound(resources, [(first, now)]);
    RunKeepsSound(atRead, [(second, now)]);
    DisplacedThenSaved(resources, atRead, user, other, id, start, end, now);
  }

  /** Such requests exist: on any date two companies of different plans ask for the same hour of a meeting room. */
  lemma DisplacementHappens(date: int)
    ensures var room := Resource(MeetingRoom, None, None, true, {}, 0, 1439, 30, 0, 0, 0);
      var (low, high) := (User(1, Employee, Some(7), Basic), User(2, Employee, Some(8), Premium));
      var (start, end, now) := (Combine(date, 600), Combine(date, 660), Combine(date, 0));
      var booked := Create(EmptyTables(map[0 := room]), low, 0, start, end, now);
      booked.1.Ok? && Create(booked.0, high, 0, start, end, now).1.Ok?
  {
    var room := Resource(MeetingRoom, None, None, true, {}, 0, 1439, 30, 0, 0, 0);
    var (low, high) := (User(1, Employee, Some(7), Basic), User(2, Employee, Some(8), Premium));
    var (start, end, now) := (Combine(date, 600), Combine(date, 660), Combine(date, 0));
    var empty := EmptyTables(map[0 := room]);
    CombineRoundTrip(start, date, 600);
    CombineRoundTrip(end, date, 660);
    CombineRoundTrip(now, date, 0);
    RoomIsFree(empty, low, room, start, end, now);
    FirstBooking(map[0 := room], low, 0, start, end, now);
    RoomIsFree(Create(empty, low, 0, start, end, now).0, high, room, start, end, now);
  }

  lemma RoomIsFree(db: Db, user: User, room: Resource, start: int, end: int, now: int)
    requires 0 in db.resources && db.resources[0] == room && db.blocks == map[]
    requires room == Resource(MeetingRoom, None, None, true, {}, 0, 1439, 30, 0, 0, 0) && end == start + 60
    requires LocalDate(start) == LocalDate(end) == LocalDate(now) && start > now + PRIORITY_OVERRIDE_MINUTES
    requires LocalMinute(start) >= 0 && LocalMinute(end) <= 1439
    requires forall k :: k in db.bookings ==>
               var row := db.bookings[k]; row.user != user.id && row.priority < Priority(user) && row.start == start
    ensures Create(db, user, 0, start, end, now).1.Ok?
  {
    NoConflictsMeaning(db.bookings, db.blocks, 0, start, end, None, Some(user), now);
    assert ActiveBookings(db.bookings, user.id, now) == {};
  }

  lemma DisplacedThenSaved(resources: map<nat, Resource>, atRead: Db, user: User, other: User, id: nat, start: int,
                           end: int, now: int)
    requires Create(EmptyTables(resources), user, id, start, end, now).1.Ok?
    requires atRead == Create(EmptyTables(resources), user, id, start, end, now).0
    requires Create(atRead, other, id, start, end, now).1.Ok?
    ensures 0 in atRead.bookings
    ensures !Allocated(Save(Create(atRead, other, id, start, end, now).0, 0, atRead.bookings[0]))
  {
    FirstBooking(resources, user, id, start, end, now);
    CreateMeaning(atRead, other, id, start, end, now);
    TwoInOneSlot(Save(Create(atRead, other, id, start, end, now).0, 0, atRead.bookings[0]));
  }

  // ---------- saving a series ----------

  /** A PATCH of a series keeps the tables sound exactly when the template still ends after it starts. */
  lemma EditKeepsSound(db: Db, id: nat, t: Template)
    requires Sound(db) && EditSeries(db, id, t).1.None?
    ensures Sound(EditSeries(db, id, t).0) <==> t.startMinute < t.endMinute
  {
    if t.startMinute < t.endMinute {
      EditingKeepsSound(db, id, t);
    } else {
      var s := EditSeries(db, id, t).0.series[id];
      assert s.startMinute == t.startMinute && s.endMinute == t.endMinute;
    }
  }

  /** What the periodic job does with the edited series: it keeps the allocation exactly when the template ends after
      it starts, or the one date of the next period is over, taken, or booked already. */
  lemma GenerateAfterEdit(db: Db, id: nat, t: Template, now: int) returns (d: int)
    requires Sound(db) && EditSeries(db, id, t).1.None? && t.validUntil.Some?
    ensures MatchingDates(t.pattern, t.validUntil.value + 1, t.validUntil.value + AdvanceDays(t.pattern)) == [d]
    ensures var (edited, s) := (EditSeries(db, id, t).0, Edited(db.series[id], t));
      Allocated(Generate(edited, [id], now)) <==> t.startMinute < t.endMinute || PassedOver(edited, s, id, d, now)
  {
    var (edited, s) := (EditSeries(db, id, t).0, Edited(db.series[id], t));
    d := NextDate(t.pattern, t.validUntil.value);
    GenerateOne(edited, id, now);
    ExtensionOfOneDate(edited, id, d, now);
    OneDateAllocates(edited, s, id, d, now);
  }

  lemma OneDateAllocates(db: Db, s: Series, id: nat, d: int, now: int)
    requires Allocated(db) && Fresh(db)
    ensures var out := Materialise(db, s, id, [d], now);
      (out.Crashed? || Allocated(out.db)) <==> s.startMinute < s.endMinute || PassedOver(db, s, id, d, now)
  {
    OneDateDecides(db, s, id, d, now);
    MaterialiseKeepsSound(db, s, id, [d], now);
    MaterialiseGrows(db, s, id, [d], now);
  }

  /** No row is inserted for the date. */
  predicate PassedOver(db: Db, s: Series, id: nat, d: int, now: int) {
    EndOn(s, d) <= now || CheckOccurrence(db, s, d, now).Err? || OccurrenceRows(db.bookings, s, id, d) != {}
  }

  lemma OneDateDecides(db: Db, s: Series, id: nat, d: int, now: int)
    requires Fresh(db)
    ensures var out := Materialise(db, s, id, [d], now);
      PassedOver(db, s, id, d, now) <==> out.Crashed? || out.db.bookings == db.bookings
  {
    var first := MaterialiseDate(db, s, id, d, now);
    assert [d][1..] == [];
    if first.Done? {
      assert Materialise(first.db, s, id, [], now) == Done(first.db, []);
    }
    assert db.nextId !in db.bookings;
  }

  lemma ExtensionOfOneDate(db: Db, id: nat, d: int, now: int)
    requires id in db.series && db.series[id].validUntil.Some?
    requires var (s, until) := (db.series[id], db.series[id].validUntil.value);
      MatchingDates(s.pattern, until + 1, until + AdvanceDays(s.pattern)) == [d]
    ensures var (out, after) := (Materialise(db, db.series[id], id, [d], now), ExtendedOnce(db, id, now).0);
      if out.Done? then after.bookings == out.db.bookings && after.blocks == out.db.blocks else after == db
  {
  }

  /** The one date of the next period. */
  lemma NextDate(p: Pattern, until: int) returns (d: int)
    ensures until < d && MatchingDates(p, until + 1, until + AdvanceDays(p)) == [d]
  {
    if p.Weekly? {
      OnePerWeek(p, until + 1);
      d := FirstMatchingWeekday(p.dayOfWeek, until + 1);
    } else {
      assert StepDates(p, until + 2, until + 1) == [];
      d := until + 1;
    }
  }

  /** The tables hold nothing that reaches beyond the last day of the series, which is not over yet. */
  ghost predicate NothingAfter(db: Db, until: int, now: int) {
    && LocalDate(now) <= until && db.blocks == map[]
    && forall k :: k in db.bookings ==>
         db.bookings[k].start < db.bookings[k].end && db.bookings[k].end < Combine(until + 1, 0)
  }

  /** Then its next period is booked as the template says. */
  lemma NextPeriodIsBooked(db: Db, id: nat, now: int) returns (d: int)
    requires id in db.series && db.series[id].validUntil.Some?
    requires ValidMinute(db.series[id].startMinute) && ValidMinute(db.series[id].endMinute)
    requires NothingAfter(db, db.series[id].validUntil.value, now)
    ensures Generate(db, [id], now).bookings == db.bookings[db.nextId := Occurrence(db.series[id], id, d)]
  {
    var s := db.series[id];
    d := NextDate(s.pattern, s.validUntil.value);
    DateIsBooked(db, s, id, s.validUntil.value, d, now);
    OneDateRun(db, s, id, d, now);
    GenerateOne(db, id, now);
    ExtensionBooks(db, id, d, now);
  }

  lemma ExtensionBooks(db: Db, id: nat, d: int, now: int)
    requires id in db.series && db.series[id].validUntil.Some?
    requires var (s, until) := (db.series[id], db.series[id].validUntil.value);
      && MatchingDates(s.pattern, until + 1, until + AdvanceDays(s.pattern)) == [d]
      && Materialise(db, s, id, [d], now) == Done(InsertOccurrence(db, s, id, d), [])
    ensures ExtendedOnce(db, id, now).0.bookings == db.bookings[db.nextId := Occurrence(db.series[id], id, d)]
  {
  }

  lemma OneDateRun(db: Db, s: Series, id: nat, d: int, now: int)
    requires MaterialiseDate(db, s, id, d, now) == Done(InsertOccurrence(db, s, id, d), [])
    ensures Materialise(db, s, id, [d], now) == Done(InsertOccurrence(db, s, id, d), [])
  {
    assert [d][1..] == [];
    assert Materialise(InsertOccurrence(db, s, id, d), s, id, [], now) == Done(InsertOccurrence(db, s, id, d), []);
  }

  lemma GenerateOne(db: Db, id: nat, now: int)
    requires id in db.series && db.series[id].validUntil.Some?
    ensures Generate(db, [id], now) == ExtendedOnce(db, id, now).0
  {
    assert [id][1..] == [];
    assert Generate(ExtendedOnce(db, id, now).0, [], now) == ExtendedOnce(db, id, now).0;
  }

  lemma DateIsBooked(db: Db, s: Series, id: nat, until: int, d: int, now: int)
    requires until < d && NothingAfter(db, until, now) && ValidMinute(s.startMinute) && ValidMinute(s.endMinute)
    ensures MaterialiseDate(db, s, id, d, now) == Done(InsertOccurrence(db, s, id, d), [])
  {
    assert Combine(d, 0) >= Combine(until + 1, 0) > now;
    assert Overlapping(db.bookings, s.resource, StartOn(s, d), EndOn(s, d)) == {};
    assert OccurrenceRows(db.bookings, s, id, d) == {};
    NoConflictsMeaning(db.bookings, db.blocks, s.resource, StartOn(s, d), EndOn(s, d), None, None, now);
  }

  /** A series is created, its template edited to end no later than it starts, and the periodic job run: every such
      run confirms a booking that is empty or inverted. */
  lemma InvertedTemplateIsBooked(resources: map<nat, Resource>, user: User, id: nat, p: Pattern, startMinute: int,
                                 endMinute: int, until: int, now: int, t: Template)
    requires CreateSeries(EmptyTables(resources), user, id, p, startMinute, endMinute, until, now).1.Ok?
    requires ValidMinute(t.startMinute) && ValidMinute(t.endMinute) && t.endMinute <= t.startMinute
    requires t == Template(id, p, t.startMinute, t.endMinute, true, t.validFrom, Some(until))
    ensures var create := CreateSeriesEvent(user, id, p, startMinute, endMinute, until);
      var db := Run(EmptyTables(resources), [(create, now)]);
      var edited := EditSeries(db, 0, t).0;
      && Sound(db) && EditSeries(db, 0, t).1.None?
      && IsQueue(edited, [0], LocalDate(now)) && !NonEmpty(Generate(edited, [0], now).bookings)
  {
    var empty := EmptyTables(resources);
    var create := CreateSeriesEvent(user, id, p, startMinute, endMinute, until);
    RunOfOne(empty, create, now);
    NextOfCreateSeries(empty, create, now);
    EveryReachableStateIsSound(resources, [(create, now)]);
    var db := CreateSeries(empty, user, id, p, startMinute, endMinute, until, now).0;
    CreatedSeries(resources, user, id, p, startMinute, endMinute, until, now);
    EditedIsBooked(db, id, p, until, now, t);
  }

  lemma EditedIsBooked(db: Db, resource: nat, p: Pattern, until: int, now: int, t: Template)
    requires resource in db.resources && db.series.Keys == {0} && NothingAfter(db, until, now)
    requires ValidMinute(t.startMinute) && ValidMinute(t.endMinute) && t.endMinute <= t.startMinute
    requires t == Template(resource, p, t.startMinute, t.endMinute, true, t.validFrom, Some(until))
    ensures var edited := EditSeries(db, 0, t).0;
      && EditSeries(db, 0, t).1.None?
      && IsQueue(edited, [0], LocalDate(now)) && !NonEmpty(Generate(edited, [0], now).bookings)
  {
    var edited := EditSeries(db, 0, t).0;
    var d := NextPeriodIsBooked(edited, 0, now);
    assert Generate(edited, [0], now).bookings[edited.nextId] == Occurrence(edited.series[0], 0, d);
  }

  /** After the first series is created the tables hold it and its bookings up to its last day. */
  lemma CreatedSeries(resources: map<nat, Resource>, user: User, id: nat, p: Pattern, startMinute: int, endMinute: int,
                      until: int, now: int)
    requires CreateSeries(EmptyTables(resources), user, id, p, startMinute, endMinute, until, now).1.Ok?
    ensures var db := CreateSeries(EmptyTables(resources), user, id, p, startMinute, endMinute, until, now).0;
      id in resources && db.resources == resources && db.series.Keys == {0} && NothingAfter(db, until, now)
  {
    var empty := EmptyTables(resources);
    var s := NewSeries(resources[id], id, user, p, startMinute, endMinute, until, LocalDate(now));
    var inserted := empty.(series := map[0 := s], nextId := 1);
    var dates := MatchingDates(p, s.validFrom, until);
    assert empty.(series := empty.series[0 := s], nextId := 1) == inserted;
    InsertSeriesEnds(empty, s, dates, now);
    MaterialiseGrows(inserted, s, 0, dates, now);
    MatchingDatesExact(p, s.validFrom, until);
  }
}
