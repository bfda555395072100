/** Whole runs of the booking tables: what every reachable state satisfies. */
module BookingRuns {
  import opened Options
  import opened Calendar
  import opened Recurrence
  import opened BookingModel
  import opened Allocator
  import opened Materialisation
  import opened BookingSteps

  /** A template that ends after it starts. Saving any other one is no step here. */
  type ProperTemplate = t: Template | t.startMinute < t.endMinute
    witness Template(0, Daily, 0, 1, true, 0, None)

  datatype Event =
    | CreateEvent(user: User, resource: nat, start: int, end: int)
    | PatchEvent(caller: User, id: nat, start: int, end: int)
    | BlockEvent(admin: nat, resource: nat, start: int, end: int, text: string)
    | UnblockEvent(resource: nat, id: nat)
    | CancelEvent(actor: nat, id: nat, text: string)
    | AdminCancelEvent(actor: nat, id: nat, text: string)
    | BulkCancelEvent(caller: User, ids: seq<nat>, reachable: set<nat>, text: string)
    | CheckInEvent(id: nat)
    | ScanEvent(id: nat)
    | NoShowEvent
    | CompleteEvent
    | DeactivateEvent(admin: nat, resource: nat)
    | DeactivateCompanyEvent(company: nat)
    | CreateSeriesEvent(user: User, resource: nat, pattern: Pattern, startMinute: int, endMinute: int, until: int)
    | GenerateEvent(order: seq<nat>)
    | EditSeriesEvent(id: nat, template: ProperTemplate)
    | DeleteSeriesEvent(id: nat)
    | DeleteEvent(id: nat)

  /** The effect of one request or job at the moment `now`. */
  ghost function Next(db: Db, e: Event, now: int): Db {
    match e
    case CreateEvent(user, resource, start, end) => Create(db, user, resource, start, end, now).0
    case PatchEvent(caller, id, start, end) => PatchTimes(db, caller, id, start, end, now).0
    case BlockEvent(admin, resource, start, end, text) => AddBlock(db, admin, resource, start, end, text, now).0
    case UnblockEvent(resource, id) => RemoveBlock(db, resource, id).0
    case CancelEvent(actor, id, text) => Cancel(db, actor, id, text, now).0
    case AdminCancelEvent(actor, id, text) => AdminCancel(db, actor, id, text, now).0
    case BulkCancelEvent(caller, ids, reachable, text) => BulkCancel(db, caller, ids, reachable, text, now).0
    case CheckInEvent(id) => CheckIn(db, id, now).0
    case ScanEvent(id) => ScanCapsule(db, id, now).0
    case NoShowEvent => MarkNoShow(db, now)
    case CompleteEvent => AutoComplete(db, now)
    case DeactivateEvent(admin, resource) => Deactivate(db, admin, resource, now).0
    case DeactivateCompanyEvent(company) => DeactivateCompany(db, company)
    case CreateSeriesEvent(user, resource, p, startMinute, endMinute, until) =>
      CreateSeries(db, user, resource, p, startMinute, endMinute, until, now).0
    case GenerateEvent(order) => if IsQueue(db, order, LocalDate(now)) then Generate(db, order, now) else db
    case EditSeriesEvent(id, template) => EditSeries(db, id, template).0
    case DeleteSeriesEvent(id) => DeleteSeries(db, id, now).0
    case DeleteEvent(id) => DeleteBooking(db, id).0
  }

  /** Any list of requests and jobs, each at any moment. */
  ghost function Run(db: Db, trace: seq<(Event, int)>): Db
    decreases |trace|
  {
    if trace == [] then db else Run(Next(db, trace[0].0, trace[0].1), trace[1..])
  }

  function EmptyTables(resources: map<nat, Resource>): Db {
    Db(resources, map[], map[], map[], multiset{}, 0, History(map[], map[]))
  }

  // ---------- the invariant ----------

  ghost predicate Allocated(db: Db) {
    NonEmpty(db.bookings) && ConflictFree(db.bookings) && ClearOfBlocks(db.bookings, db.blocks)
  }

  ghost predicate IdsBelow(db: Db) {
    && Fresh(db)
    && (forall k :: k in db.blocks ==> k < db.nextId)
    && (forall k :: k in db.series ==> k < db.nextId)
    && (forall k :: k in db.history.priorityOf ==> k < db.nextId)
  }

  ghost predicate SeriesNonEmpty(db: Db) {
    forall k :: k in db.series ==> db.series[k].startMinute < db.series[k].endMinute
  }

  ghost predicate NoShowUnattended(bookings: Bookings) {
    forall id :: id in bookings && bookings[id].status.NoShow? ==> bookings[id].checkedInAt.None?
  }

  /** Priorities are the ones booked with, and a displaced booking is gone for one of higher priority. */
  ghost predicate Ranked(db: Db) {
    var h := db.history;
    && (forall id :: id in db.bookings ==> id in h.priorityOf && h.priorityOf[id] == db.bookings[id].priority)
    && (forall id :: id in h.priorityOf ==> 1 <= h.priorityOf[id] <= 3)
    && (forall id :: id in h.displacedBy ==>
          && id in h.priorityOf && h.displacedBy[id] in h.priorityOf
          && h.priorityOf[id] < h.priorityOf[h.displacedBy[id]]
          && !(id in db.bookings && db.bookings[id].status.Confirmed?))
  }

  ghost predicate Sound(db: Db) {
    Allocated(db) && IdsBelow(db) && SeriesNonEmpty(db) && NoShowUnattended(db.bookings) && Ranked(db)
  }

  /** No booking known before is confirmed after unless it was confirmed already. */
  ghost predicate NeverRevives(before: Db, after: Db) {
    && before.nextId <= after.nextId
    && forall id :: id < before.nextId && id in after.bookings && after.bookings[id].status.Confirmed?
         ==> id in before.bookings && before.bookings[id].status.Confirmed?
  }

  /** What every step achieves from a sound state. */
  ghost predicate Good(before: Db, after: Db) {
    Sound(after) && NeverRevives(before, after)
  }

  // ---------- steps that only cancel, close or remove ----------

  ghost predicate OnlyCloses(before: Db, after: Db) {
    && (forall id :: id in after.bookings ==>
          && id in before.bookings
          && var (x, y) := (before.bookings[id], after.bookings[id]);
             y.resource == x.resource && y.start == x.start && y.end == x.end && y.priority == x.priority
             && (y.status.Confirmed? ==> x.status.Confirmed?))
    && (forall k :: k in after.blocks ==> k in before.blocks && after.blocks[k] == before.blocks[k])
    && (forall k :: k in after.series ==> k in before.series && after.series[k] == before.series[k])
    && after.nextId == before.nextId && after.history == before.history
  }

  lemma ClosingKeepsSound(before: Db, after: Db)
    requires Sound(before) && OnlyCloses(before, after) && NoShowUnattended(after.bookings)
    ensures Good(before, after)
  {
    ShrinkingIsSafe(before.bookings, after.bookings, before.blocks);
  }

  // ---------- steps that place a row ----------

  /** Placing a row while cancelling everything it meets. */
  lemma DisplacingKeepsAllocated(db: Db, row: Booking, displaced: set<nat>, actor: nat)
    requires Allocated(db) && Fresh(db) && row.start < row.end
    requires forall k :: k in displaced <==> k in Overlapping(db.bookings, row.resource, row.start, row.end)
    requires !Blocked(db.blocks, row.resource, row.start, row.end)
    ensures var after := CancelAll(db.bookings[db.nextId := row], displaced, actor, DisplacedByPriority);
            NonEmpty(after) && ConflictFree(after) && ClearOfBlocks(after, db.blocks)
  {
    var cleared := CancelAll(db.bookings, displaced, actor, DisplacedByPriority);
    ShrinkingIsSafe(db.bookings, cleared, db.blocks);
    assert Free(cleared, db.nextId, row.resource, row.start, row.end);
    PlacingKeepsSound(cleared, db.blocks, db.nextId, row);
    assert CancelAll(db.bookings[db.nextId := row], displaced, actor, DisplacedByPriority) == cleared[db.nextId := row];
  }

  lemma DisplacingKeepsRanked(db: Db, after: Db, row: Booking, displaced: set<nat>, actor: nat)
    requires Ranked(db) && IdsBelow(db) && 1 <= row.priority <= 3
    requires forall k :: k in displaced ==> k in db.bookings && db.bookings[k].priority < row.priority
    requires after.bookings == CancelAll(db.bookings[db.nextId := row], displaced, actor, DisplacedByPriority)
    requires after.history == Record(db.history, db.nextId, row.priority, displaced)
    ensures Ranked(after)
  {
    forall k | k in after.history.displacedBy
      ensures DisplacementRanked(after, k)
    {
      DisplacedBelow(db, after, row, displaced, actor, k);
    }
  }

  ghost predicate DisplacementRanked(db: Db, k: nat)
    requires k in db.history.displacedBy
  {
    var h := db.history;
    && k in h.priorityOf && h.displacedBy[k] in h.priorityOf && h.priorityOf[k] < h.priorityOf[h.displacedBy[k]]
    && !(k in db.bookings && db.bookings[k].status.Confirmed?)
  }

  lemma DisplacedBelow(db: Db, after: Db, row: Booking, displaced: set<nat>, actor: nat, k: nat)
    requires Ranked(db) && IdsBelow(db) && 1 <= row.priority <= 3
    requires forall k :: k in displaced ==> k in db.bookings && db.bookings[k].priority < row.priority
    requires after.bookings == CancelAll(db.bookings[db.nextId := row], displaced, actor, DisplacedByPriority)
    requires after.history == Record(db.history, db.nextId, row.priority, displaced)
    requires k in after.history.displacedBy
    ensures DisplacementRanked(after, k)
  {
    if k !in displaced {
      assert k in db.history.displacedBy && db.history.displacedBy[k] in db.history.priorityOf;
    }
  }

  lemma CreateKeepsSound(db: Db, user: User, id: nat, start: int, end: int, now: int)
    requires Sound(db)
    ensures Good(db, Create(db, user, id, start, end, now).0)
  {
    var checked := CheckCreate(db, user, id, start, end, now);
    if checked.Ok? {
      var row := NewBooking(db.resources[id], id, user, start, end);
      CheckedCreate(db, user, id, start, end, now);
      NoConflictsMeaning(db.bookings, db.blocks, id, start, end, None, Some(user), now);
      DisplacingKeepsAllocated(db, row, checked.value, user.id);
      DisplacingKeepsRanked(db, Create(db, user, id, start, end, now).0, row, checked.value, user.id);
    }
  }

  lemma PatchKeepsSound(db: Db, caller: User, id: nat, start: int, end: int, now: int)
    requires Sound(db)
    ensures Good(db, PatchTimes(db, caller, id, start, end, now).0)
  {
    if CheckPatch(db, caller, id, start, end, now).None? {
      var row := db.bookings[id].(start := start, end := end);
      NoConflictsMeaning(db.bookings, db.blocks, row.resource, start, end, Some(id), None, now);
      forall k | k in db.bookings && k != id && Holds(db.bookings, k, row.resource)
        ensures !Meets(db.bookings[k].start, db.bookings[k].end, start, end)
      {
        assert k in Overlapping(db.bookings, row.resource, start, end)
           <==> Meets(db.bookings[k].start, db.bookings[k].end, start, end);
      }
      PlacingKeepsSound(db.bookings, db.blocks, id, row);
    }
  }

  lemma BlockKeepsSound(db: Db, admin: nat, resource: nat, start: int, end: int, text: string, now: int)
    requires Sound(db)
    ensures Good(db, AddBlock(db, admin, resource, start, end, text, now).0)
  {
    var (after, answer) := AddBlock(db, admin, resource, start, end, text, now);
    if answer.Ok? {
      BlockedIsGood(db, after, admin, resource, start, end, BlockReason(text));
    } else {
      NothingIsGood(db);
    }
  }

  lemma BlockedIsGood(db: Db, after: Db, admin: nat, resource: nat, start: int, end: int, reason: Reason)
    requires Sound(db)
    requires var hits := Overlapping(db.bookings, resource, start, end);
      after == db.(blocks := db.blocks[db.nextId := Block(resource, start, end)],
                   bookings := CancelAll(db.bookings, hits, admin, reason),
                   audits := after.audits,
                   nextId := db.nextId + 1)
    ensures Good(db, after)
  {
    var mid := db.(bookings := after.bookings, audits := after.audits);
    CancellingLeavesSound(db, mid, Overlapping(db.bookings, resource, start, end), admin, reason);
    BlockedRowsAreCancelled(db, after, admin, resource, start, end, reason);
    AddingKeepsSound(mid, after);
    GoodThenGood(db, mid, after);
  }

  lemma CancellingLeavesSound(db: Db, after: Db, ids: set<nat>, actor: nat, reason: Reason)
    requires Sound(db) && after == db.(bookings := CancelAll(db.bookings, ids, actor, reason), audits := after.audits)
    ensures Good(db, after)
  {
    ClosingKeepsSound(db, after);
  }

  /** Adding blocks that meet no confirmed booking. */
  lemma AddingKeepsSound(before: Db, after: Db)
    requires Sound(before) && ClearOfBlocks(before.bookings, after.blocks)
    requires after == before.(blocks := after.blocks, nextId := after.nextId) && before.nextId <= after.nextId
    requires forall k :: k in after.blocks ==> k < after.nextId
    ensures Good(before, after)
  {
  }

  lemma BlockedRowsAreCancelled(db: Db, after: Db, admin: nat, resource: nat, start: int, end: int, reason: Reason)
    requires ClearOfBlocks(db.bookings, db.blocks)
    requires after.blocks == db.blocks[db.nextId := Block(resource, start, end)]
    requires after.bookings
          == CancelAll(db.bookings, Overlapping(db.bookings, resource, start, end), admin, reason)
    ensures ClearOfBlocks(after.bookings, after.blocks)
  {
    forall i | i in after.bookings && after.bookings[i].status.Confirmed?
      ensures after.bookings[i] == db.bookings[i]
      ensures after.bookings[i].resource == resource
        ==> !Meets(after.bookings[i].start, after.bookings[i].end, start, end)
    {
      assert i !in Overlapping(db.bookings, resource, start, end);
    }
  }

  lemma MaterialiseKeepsAll(db: Db, s: Series, id: nat, dates: seq<int>, now: int)
    requires Sound(db) && s.startMinute < s.endMinute
    ensures var out := Materialise(db, s, id, dates, now);
            out.Done? ==> Good(db, out.db) && out.db.series == db.series
  {
    MaterialiseKeepsSound(db, s, id, dates, now);
    MaterialiseGrows(db, s, id, dates, now);
    MaterialiseKeepsRanked(db, s, id, dates, now);
  }

  lemma DateKeepsRanked(db: Db, s: Series, id: nat, date: int, now: int)
    requires Ranked(db) && IdsBelow(db)
    ensures var out := MaterialiseDate(db, s, id, date, now); out.Done? ==> Ranked(out.db) && IdsBelow(out.db)
  {
    InsertKeepsRanked(db, s, id, date);
    var out := MaterialiseDate(db, s, id, date, now);
    assert out.Crashed? || out.db == db || out.db == InsertOccurrence(db, s, id, date);
  }

  lemma InsertKeepsRanked(db: Db, s: Series, id: nat, date: int)
    requires Ranked(db) && IdsBelow(db)
    ensures var after := InsertOccurrence(db, s, id, date); Ranked(after) && IdsBelow(after)
  {
  }

  lemma {:induction false} MaterialiseKeepsRanked(db: Db, s: Series, id: nat, dates: seq<int>, now: int)
    requires Ranked(db) && IdsBelow(db)
    ensures var out := Materialise(db, s, id, dates, now); out.Done? ==> Ranked(out.db) && IdsBelow(out.db)
    decreases |dates|
  {
    if dates == [] {
    } else {
      var first := MaterialiseDate(db, s, id, dates[0], now);
      DateKeepsRanked(db, s, id, dates[0], now);
      if first.Done? {
        MaterialiseKeepsRanked(first.db, s, id, dates[1..], now);
      }
    }
  }

  lemma SeriesTableKeepsSound(before: Db, after: Db)
    requires Sound(before) && after == before.(series := after.series, nextId := after.nextId)
    requires before.nextId <= after.nextId && SeriesNonEmpty(after)
    requires forall k :: k in after.series ==> k < after.nextId
    ensures Good(before, after)
  {
  }

  lemma RevivalNeedsAStep(a: Db, b: Db, c: Db)
    requires NeverRevives(a, b) && NeverRevives(b, c)
    ensures NeverRevives(a, c)
  {
  }

  lemma CreateSeriesKeepsSound(db: Db, user: User, id: nat, p: Pattern, startMinute: int, endMinute: int, until: int,
                               now: int)
    requires Sound(db)
    ensures Good(db, CreateSeries(db, user, id, p, startMinute, endMinute, until, now).0)
  {
    if CheckSeries(db, user, id, p, startMinute, endMinute, until, now).None? {
      var s := NewSeries(db.resources[id], id, user, p, startMinute, endMinute, until, LocalDate(now));
      NewSeriesKeepsSound(db, s, MatchingDates(s.pattern, s.validFrom, until), now);
    }
  }

  lemma NewSeriesKeepsSound(db: Db, s: Series, dates: seq<int>, now: int)
    requires Sound(db) && s.startMinute < s.endMinute
    ensures Good(db, InsertSeries(db, s, dates, now).0)
  {
    var inserted := db.(series := db.series[db.nextId := s], nextId := db.nextId + 1);
    NewRowKeepsSound(db, s);
    RunAfterStepKeepsSound(db, inserted, s, db.nextId, dates, now);
    InsertSeriesEnds(db, s, dates, now);
  }

  lemma InsertSeriesEnds(db: Db, s: Series, dates: seq<int>, now: int)
    ensures var inserted := db.(series := db.series[db.nextId := s], nextId := db.nextId + 1);
            var out := Materialise(inserted, s, db.nextId, dates, now);
            InsertSeries(db, s, dates, now).0 == if out.Done? then out.db else db
  {
  }

  lemma NewRowKeepsSound(db: Db, s: Series)
    requires Sound(db) && s.startMinute < s.endMinute
    ensures var inserted := db.(series := db.series[db.nextId := s], nextId := db.nextId + 1);
            Good(db, inserted)
  {
    SeriesTableKeepsSound(db, db.(series := db.series[db.nextId := s], nextId := db.nextId + 1));
  }

  lemma RunAfterStepKeepsSound(db: Db, mid: Db, s: Series, id: nat, dates: seq<int>, now: int)
    requires Good(db, mid) && s.startMinute < s.endMinute
    ensures var out := Materialise(mid, s, id, dates, now);
            out.Done? ==> Good(db, out.db)
  {
    MaterialiseKeepsAll(mid, s, id, dates, now);
    var out := Materialise(mid, s, id, dates, now);
    if out.Done? {
      RevivalNeedsAStep(db, mid, out.db);
    }
  }

  lemma ExtendingKeepsSound(db: Db, id: nat, now: int)
    requires Sound(db) && id in db.series && db.series[id].validUntil.Some?
    ensures Good(db, ExtendedOnce(db, id, now).0)
  {
    var s := db.series[id];
    var (from, until) := (s.validUntil.value + 1, s.validUntil.value + AdvanceDays(s.pattern));
    MaterialiseKeepsAll(db, s, id, MatchingDates(s.pattern, from, until), now);
    var out := Materialise(db, s, id, MatchingDates(s.pattern, from, until), now);
    if out.Done? {
      MovingTheEndKeepsSound(db, out.db, id, until);
    } else {
      assert ExtendedOnce(db, id, now).0 == db;
    }
  }

  lemma MovingTheEndKeepsSound(db: Db, mid: Db, id: nat, until: int)
    requires Good(db, mid) && id in mid.series
    ensures var moved := mid.(series := mid.series[id := mid.series[id].(validUntil := Some(until))]);
            Good(db, moved)
  {
    var moved := mid.(series := mid.series[id := mid.series[id].(validUntil := Some(until))]);
    SeriesTableKeepsSound(mid, moved);
    RevivalNeedsAStep(db, mid, moved);
  }

  lemma {:induction false} GenerateKeepsSound(db: Db, order: seq<nat>, now: int)
    requires Sound(db)
    ensures Good(db, Generate(db, order, now))
    decreases |order|
  {
    if order == [] || order[0] !in db.series || db.series[order[0]].validUntil.None? {
      GenerateStops(db, order, now);
      NothingIsGood(db);
    } else {
      var (after, extended) := ExtendedOnce(db, order[0], now);
      GenerateUnfolds(db, order, now);
      ExtendingKeepsSound(db, order[0], now);
      if extended {
        GenerateKeepsSound(after, order[1..], now);
        GoodThenGood(db, after, Generate(after, order[1..], now));
      }
    }
  }

  lemma GenerateStops(db: Db, order: seq<nat>, now: int)
    requires order == [] || order[0] !in db.series || db.series[order[0]].validUntil.None?
    ensures Generate(db, order, now) == db
  {
  }

  lemma GenerateUnfolds(db: Db, order: seq<nat>, now: int)
    requires order != [] && order[0] in db.series && db.series[order[0]].validUntil.Some?
    ensures var (after, extended) := ExtendedOnce(db, order[0], now);
      Generate(db, order, now) == if extended then Generate(after, order[1..], now) else after
  {
  }

  lemma GoodThenGood(a: Db, b: Db, c: Db)
    requires Good(a, b) && Good(b, c)
    ensures Good(a, c)
  {
    RevivalNeedsAStep(a, b, c);
  }

  // ---------- every run ----------

  ghost predicate Closes(before: Db, after: Db) {
    OnlyCloses(before, after) && (NoShowUnattended(before.bookings) ==> NoShowUnattended(after.bookings))
  }

  lemma AuditedCancellationCloses(db: Db, ids: set<nat>, actor: nat, reason: Reason, now: int)
    ensures Closes(db, CancelWithAudit(db, ids, actor, reason, now))
  {
  }

  lemma CancellingCloses(db: Db, actor: nat, id: nat, text: string, now: int)
    ensures Closes(db, Cancel(db, actor, id, text, now).0)
    ensures Closes(db, AdminCancel(db, actor, id, text, now).0)
  {
    AuditedCancellationCloses(db, {id}, actor, Given(text), now);
  }

  lemma BulkCancellingCloses(db: Db, caller: User, ids: seq<nat>, reachable: set<nat>, text: string, now: int)
    ensures Closes(db, BulkCancel(db, caller, ids, reachable, text, now).0)
  {
  }

  lemma ResourceStepsClose(db: Db, admin: nat, resource: nat, id: nat, now: int)
    ensures Closes(db, Deactivate(db, admin, resource, now).0)
    ensures Closes(db, RemoveBlock(db, resource, id).0)
  {
  }

  lemma CompanyStepCloses(db: Db, company: nat)
    ensures Closes(db, DeactivateCompany(db, company))
  {
  }

  lemma AttendanceCloses(db: Db, id: nat, now: int)
    ensures Closes(db, CheckIn(db, id, now).0)
    ensures Closes(db, ScanCapsule(db, id, now).0)
  {
    CheckInCloses(db, id, now);
    ScanCloses(db, id, now);
  }

  lemma CheckInCloses(db: Db, id: nat, now: int)
    ensures Closes(db, CheckIn(db, id, now).0)
  {
  }

  lemma ScanCloses(db: Db, id: nat, now: int)
    ensures Closes(db, ScanCapsule(db, id, now).0)
  {
  }

  lemma JobsClose(db: Db, now: int)
    ensures Closes(db, MarkNoShow(db, now))
    ensures Closes(db, AutoComplete(db, now))
  {
  }

  lemma DeletingCloses(db: Db, id: nat, now: int)
    ensures Closes(db, DeleteSeries(db, id, now).0)
    ensures Closes(db, DeleteBooking(db, id).0)
  {
  }

  lemma EditingKeepsSound(db: Db, id: nat, t: Template)
    requires Sound(db) && t.startMinute < t.endMinute
    ensures Good(db, EditSeries(db, id, t).0)
  {
    var after := EditSeries(db, id, t).0;
    forall k | k in after.series
      ensures k < after.nextId && after.series[k].startMinute < after.series[k].endMinute
    {
    }
    SeriesTableKeepsSound(db, after);
  }

  // The steps that write are named before anything is proved of them.

  lemma NextOfCreateSeries(db: Db, e: Event, now: int)
    requires e.CreateSeriesEvent?
    ensures Next(db, e, now)
         == CreateSeries(db, e.user, e.resource, e.pattern, e.startMinute, e.endMinute, e.until, now).0
  {
  }

  lemma NextOfGenerate(db: Db, e: Event, now: int)
    requires e.GenerateEvent?
    ensures Next(db, e, now) == if IsQueue(db, e.order, LocalDate(now)) then Generate(db, e.order, now) else db
  {
  }

  lemma NextOfCreate(db: Db, e: Event, now: int)
    requires e.CreateEvent?
    ensures Next(db, e, now) == Create(db, e.user, e.resource, e.start, e.end, now).0
  {
  }

  lemma NextOfPatch(db: Db, e: Event, now: int)
    requires e.PatchEvent?
    ensures Next(db, e, now) == PatchTimes(db, e.caller, e.id, e.start, e.end, now).0
  {
  }

  lemma NextOfBlock(db: Db, e: Event, now: int)
    requires e.BlockEvent?
    ensures Next(db, e, now) == AddBlock(db, e.admin, e.resource, e.start, e.end, e.text, now).0
  {
  }

  lemma NextOfEdit(db: Db, e: Event, now: int)
    requires e.EditSeriesEvent?
    ensures Next(db, e, now) == EditSeries(db, e.id, e.template).0
  {
  }

  lemma NothingIsGood(db: Db)
    requires Sound(db)
    ensures Good(db, db)
  {
  }

  lemma CreateStepIsGood(db: Db, e: Event, now: int)
    requires Sound(db) && e.CreateEvent?
    ensures Good(db, Next(db, e, now))
  {
    NextOfCreate(db, e, now);
    CreateKeepsSound(db, e.user, e.resource, e.start, e.end, now);
  }

  lemma CreateSeriesStepIsGood(db: Db, e: Event, now: int)
    requires Sound(db) && e.CreateSeriesEvent?
    ensures Good(db, Next(db, e, now))
  {
    NextOfCreateSeries(db, e, now);
    CreateSeriesKeepsSound(db, e.user, e.resource, e.pattern, e.startMinute, e.endMinute, e.until, now);
  }

  lemma GenerateStepIsGood(db: Db, e: Event, now: int)
    requires Sound(db) && e.GenerateEvent?
    ensures Good(db, Next(db, e, now))
  {
    NextOfGenerate(db, e, now);
    GenerateKeepsSound(db, e.order, now);
    NothingIsGood(db);
  }

  lemma PatchStepIsGood(db: Db, e: Event, now: int)
    requires Sound(db) && e.PatchEvent?
    ensures Good(db, Next(db, e, now))
  {
    NextOfPatch(db, e, now);
    PatchKeepsSound(db, e.caller, e.id, e.start, e.end, now);
  }

  lemma BlockStepIsGood(db: Db, e: Event, now: int)
    requires Sound(db) && e.BlockEvent?
    ensures Good(db, Next(db, e, now))
  {
    NextOfBlock(db, e, now);
    BlockKeepsSound(db, e.admin, e.resource, e.start, e.end, e.text, now);
  }

  lemma EditStepIsGood(db: Db, e: Event, now: int)
    requires Sound(db) && e.EditSeriesEvent?
    ensures Good(db, Next(db, e, now))
  {
    NextOfEdit(db, e, now);
    EditingKeepsSound(db, e.id, e.template);
  }

  predicate OnlyClosing(e: Event) {
    !(e.CreateEvent? || e.PatchEvent? || e.BlockEvent? || e.CreateSeriesEvent? || e.GenerateEvent?
        || e.EditSeriesEvent?)
  }

  lemma ClosingStepCloses(db: Db, e: Event, now: int)
    requires OnlyClosing(e)
    ensures Closes(db, Next(db, e, now))
  {
    match e
    case CancelEvent(actor, id, text) => CancellingCloses(db, actor, id, text, now);
    case AdminCancelEvent(actor, id, text) => CancellingCloses(db, actor, id, text, now);
    case BulkCancelEvent(caller, ids, reachable, text) => BulkCancellingCloses(db, caller, ids, reachable, text, now);
    case DeactivateEvent(admin, resource) => ResourceStepsClose(db, admin, resource, 0, now);
    case DeactivateCompanyEvent(company) => CompanyStepCloses(db, company);
    case UnblockEvent(resource, id) => ResourceStepsClose(db, 0, resource, id, now);
    case CheckInEvent(id) => AttendanceCloses(db, id, now);
    case ScanEvent(id) => AttendanceCloses(db, id, now);
    case NoShowEvent => JobsClose(db, now);
    case CompleteEvent => JobsClose(db, now);
    case DeleteSeriesEvent(id) => DeletingCloses(db, id, now);
    case DeleteEvent(id) => DeletingCloses(db, id, now);
  }

  lemma ClosingStepIsGood(db: Db, e: Event, now: int)
    requires Sound(db) && OnlyClosing(e)
    ensures Good(db, Next(db, e, now))
  {
    ClosingStepCloses(db, e, now);
    ClosingKeepsSound(db, Next(db, e, now));
  }

  /** Every request and every job keeps the invariant and revives no booking. */
  lemma StepKeepsSound(db: Db, e: Event, now: int)
    requires Sound(db)
    ensures Good(db, Next(db, e, now))
  {
    match e
    case CreateEvent(_, _, _, _) => CreateStepIsGood(db, e, now);
    case PatchEvent(_, _, _, _) => PatchStepIsGood(db, e, now);
    case BlockEvent(_, _, _, _, _) => BlockStepIsGood(db, e, now);
    case CreateSeriesEvent(_, _, _, _, _, _) => CreateSeriesStepIsGood(db, e, now);
    case GenerateEvent(_) => GenerateStepIsGood(db, e, now);
    case EditSeriesEvent(_, _) => EditStepIsGood(db, e, now);
    case _ => ClosingStepIsGood(db, e, now);
  }

  /** In every reachable state confirmed bookings are non-empty, pairwise disjoint per resource and clear
      of blocks, and no booking marked as a no-show was ever checked in. */
  lemma {:induction false} RunKeepsSound(db: Db, trace: seq<(Event, int)>)
    requires Sound(db)
    ensures Good(db, Run(db, trace))
    decreases |trace|
  {
    if trace == [] {
    } else {
      var next := Next(db, trace[0].0, trace[0].1);
      StepKeepsSound(db, trace[0].0, trace[0].1);
      RunKeepsSound(next, trace[1..]);
      GoodThenGood(db, next, Run(next, trace[1..]));
      RunUnfolds(db, trace);
    }
  }

  lemma RunUnfolds(db: Db, trace: seq<(Event, int)>)
    requires trace != []
    ensures Run(db, trace) == Run(Next(db, trace[0].0, trace[0].1), trace[1..])
  {
  }

  lemma RunOfOne(db: Db, e: Event, now: int)
    ensures Run(db, [(e, now)]) == Next(db, e, now)
  {
    RunUnfolds(db, [(e, now)]);
    assert [(e, now)][1..] == [];
  }

  lemma RunFirst(db: Db, e: Event, now: int, rest: seq<(Event, int)>)
    ensures Run(db, [(e, now)] + rest) == Run(Next(db, e, now), rest)
  {
    RunUnfolds(db, [(e, now)] + rest);
    assert ([(e, now)] + rest)[1..] == rest;
  }

  lemma EveryReachableStateIsSound(resources: map<nat, Resource>, trace: seq<(Event, int)>)
    ensures Sound(Run(EmptyTables(resources), trace))
  {
    RunKeepsSound(EmptyTables(resources), trace);
  }

  // ---------- displacement ----------

  /** Each booking of the chain was displaced by the next one. */
  ghost predicate DisplacementChain(db: Db, chain: seq<nat>) {
    forall i :: 0 <= i < |chain| - 1
      ==> chain[i] in db.history.displacedBy && db.history.displacedBy[chain[i]] == chain[i + 1]
  }

  lemma {:induction false} ChainClimbs(db: Db, chain: seq<nat>)
    requires Ranked(db) && DisplacementChain(db, chain) && |chain| >= 2
    ensures forall id :: id in chain ==> id in db.history.priorityOf
    ensures db.history.priorityOf[chain[|chain| - 1]] >= |chain|
  {
    var last := |chain| - 1;
    assert chain[last - 1] in db.history.displacedBy;
    assert db.history.displacedBy[chain[last - 1]] == chain[last];
    if |chain| > 2 {
      var front := chain[..last];
      assert DisplacementChain(db, front) by {
        forall i | 0 <= i < |front| - 1
          ensures front[i] in db.history.displacedBy && db.history.displacedBy[front[i]] == front[i + 1]
        {
          assert chain[i] in db.history.displacedBy && db.history.displacedBy[chain[i]] == chain[i + 1];
        }
      }
      ChainClimbs(db, front);
      assert forall id :: id in chain ==> id in front || id == chain[last];
    } else {
      assert forall id :: id in chain ==> id == chain[0] || id == chain[1];
    }
  }

  /** Over any run a displacement strictly raises the priority, a booking of the top tier is never
      displaced, and no chain has more than two displacements. */
  lemma DisplacementIsBounded(resources: map<nat, Resource>, trace: seq<(Event, int)>, chain: seq<nat>)
    ensures var db := Run(EmptyTables(resources), trace);
      && (forall id :: id in db.history.displacedBy ==>
            && id in db.history.priorityOf && db.history.displacedBy[id] in db.history.priorityOf
            && db.history.priorityOf[id] < db.history.priorityOf[db.history.displacedBy[id]]
            && db.history.priorityOf[id] != 3)
      && (DisplacementChain(db, chain) ==> |chain| <= 3)
  {
    var db := Run(EmptyTables(resources), trace);
    EveryReachableStateIsSound(resources, trace);
    if DisplacementChain(db, chain) && |chain| >= 2 {
      ChainClimbs(db, chain);
      assert db.history.priorityOf[chain[|chain| - 1]] <= 3;
    }
  }

  // ---------- no-show and completion ----------

  /** The two jobs never select the same booking, at whatever moments they are run in a row. */
  lemma SelectionsNeverShare(db: Db, id: nat, now: int, later: int)
    ensures !(IsNoShow(db, id, now) && IsOver(db, id, now))
    ensures IsNoShow(db, id, now) ==> !IsOver(MarkNoShow(db, now), id, later)
    ensures IsOver(db, id, now) ==> !IsNoShow(AutoComplete(db, now), id, later)
  {
  }

  // ---------- repeated extension ----------

  lemma {:induction false} MaterialiseIgnoresSeries(db: Db, other: map<nat, Series>, s: Series, id: nat,
                                                    dates: seq<int>, now: int)
    ensures Materialise(db.(series := other), s, id, dates, now)
         == match Materialise(db, s, id, dates, now)
            case Crashed => Crashed
            case Done(after, skipped) => Done(after.(series := other), skipped)
    decreases |dates|
  {
    if dates == [] {
    } else {
      var first := MaterialiseDate(db, s, id, dates[0], now);
      var shifted := MaterialiseDate(db.(series := other), s, id, dates[0], now);
      if first.Done? {
        assert shifted == Done(first.db.(series := other), first.skipped);
        MaterialiseIgnoresSeries(first.db, other, s, id, dates[1..], now);
      }
    }
  }

  lemma {:induction false} MaterialiseKeepsOtherTables(db: Db, s: Series, id: nat, dates: seq<int>, now: int)
    ensures var out := Materialise(db, s, id, dates, now);
            out.Done? ==> out.db == db.(bookings := out.db.bookings, nextId := out.db.nextId, history := out.db.history)
    decreases |dates|
  {
    if dates == [] {
    } else {
      var first := MaterialiseDate(db, s, id, dates[0], now);
      if first.Done? {
        MaterialiseKeepsOtherTables(first.db, s, id, dates[1..], now);
      }
    }
  }

  lemma {:induction false} MaterialiseIgnoresValidity(db: Db, s: Series, s1: Series, id: nat, dates: seq<int>, now: int)
    requires s1 == s.(validUntil := s1.validUntil)
    ensures Materialise(db, s1, id, dates, now) == Materialise(db, s, id, dates, now)
    decreases |dates|
  {
    if dates == [] {
    } else {
      assert OccurrenceRows(db.bookings, s1, id, dates[0]) == OccurrenceRows(db.bookings, s, id, dates[0]);
      var first := MaterialiseDate(db, s, id, dates[0], now);
      if first.Done? {
        MaterialiseIgnoresValidity(first.db, s, s1, id, dates[1..], now);
      }
    }
  }

  function WithSeries(out: Outcome, other: map<nat, Series>): Outcome {
    match out
    case Crashed => Crashed
    case Done(db, skipped) => Done(db.(series := other), skipped)
  }

  lemma ExtendIgnoresSeries(db: Db, other: map<nat, Series>, s: Series, s1: Series, id: nat, until: int, now: int)
    requires s1 == s.(validUntil := s1.validUntil)
    ensures Extend(db.(series := other), s1, id, until, now) == WithSeries(Extend(db, s, id, until, now), other)
  {
    var dates := MatchingDates(s.pattern, until + 1, until + AdvanceDays(s.pattern));
    MaterialiseIgnoresSeries(db, other, s, id, dates, now);
    MaterialiseIgnoresValidity(db.(series := other), s, s1, id, dates, now);
  }

  function ExtendedSeries(s: Series, until: int, times: nat): Series {
    s.(validUntil := Some(ExtendedUntil(s.pattern, until, times)))
  }

  lemma OnePassExtends(db: Db, s: Series, id: nat, until: int, now: int)
    requires id in db.series && db.series[id] == s && s.validUntil == Some(until)
    requires Extend(db, s, id, until, now).Done?
    ensures Generate(db, [id], now)
         == Extend(db, s, id, until, now).db.(series := db.series[id := ExtendedSeries(s, until, 1)])
  {
    MaterialiseKeepsOtherTables(db, s, id, MatchingDates(s.pattern, until + 1, until + AdvanceDays(s.pattern)), now);
    assert Generate(Generate(db, [id], now), [], now) == Generate(db, [id], now);
  }

  ghost function WholeRun(db: Db, s: Series, id: nat, until: int, times: nat, now: int): Outcome {
    Materialise(db, s, id, MatchingDates(s.pattern, s.validFrom, ExtendedUntil(s.pattern, until, times)), now)
  }

  function ThenExtend(out: Outcome, s: Series, id: nat, until: int, now: int): Outcome {
    match out
    case Crashed => Crashed
    case Done(db, skipped) => After(skipped, Extend(db, s, id, until, now))
  }

  lemma ExtendAfterRun(db: Db, s: Series, id: nat, dates: seq<int>, until: int, now: int)
    ensures Materialise(db, s, id, dates + MatchingDates(s.pattern, until + 1, until + AdvanceDays(s.pattern)), now)
         == ThenExtend(Materialise(db, s, id, dates, now), s, id, until, now)
  {
    MaterialiseSplit(db, s, id, dates, MatchingDates(s.pattern, until + 1, until + AdvanceDays(s.pattern)), now);
  }

  lemma WholeRunGrows(db: Db, s: Series, id: nat, until: int, times: nat, now: int)
    requires s.validFrom - 1 <= until && times > 0
    ensures WholeRun(db, s, id, until, times, now)
         == ThenExtend(WholeRun(db, s, id, until, times - 1, now), s, id, ExtendedUntil(s.pattern, until, times - 1),
                       now)
  {
    var reached := ExtendedUntil(s.pattern, until, times - 1);
    assert ExtendedUntil(s.pattern, until, times) == reached + AdvanceDays(s.pattern);
    MatchingDatesSplit(s.pattern, s.validFrom, reached, reached + AdvanceDays(s.pattern));
    ExtendAfterRun(db, s, id, MatchingDates(s.pattern, s.validFrom, reached), reached, now);
  }

  /** Creating a series and then running the periodic job any number of times at the same moment, when it
      picks up no other series, leaves exactly the tables of one creation over the whole extended range. */
  lemma {:induction false} PassesAreOneRun(db: Db, s: Series, id: nat, until: int, states: seq<Db>, n: nat, now: int)
    requires id in db.series && db.series[id] == s && s.validUntil == Some(until) && s.validFrom - 1 <= until
    requires n < |states| && WholeRun(db, s, id, until, n, now).Done?
    requires WholeRun(db, s, id, until, 0, now).Done? ==> states[0] == WholeRun(db, s, id, until, 0, now).db
    requires forall i :: 0 < i < |states| ==> states[i] == Generate(states[i - 1], [id], now)
    ensures states[n] == WholeRun(db, s, id, until, n, now).db.(series := db.series[id := ExtendedSeries(s, until, n)])
    decreases n
  {
    if n == 0 {
      MaterialiseKeepsOtherTables(db, s, id, MatchingDates(s.pattern, s.validFrom, until), now);
      assert db.series[id := s] == db.series;
    } else {
      WholeRunGrows(db, s, id, until, n, now);
      PassesAreOneRun(db, s, id, until, states, n - 1, now);
      OneMorePass(db, s, id, until, n, states[n - 1], now);
    }
  }

  lemma OneMorePass(db: Db, s: Series, id: nat, until: int, n: nat, state: Db, now: int)
    requires s.validFrom - 1 <= until && n > 0 && WholeRun(db, s, id, until, n, now).Done?
    requires var shorter := WholeRun(db, s, id, until, n - 1, now);
      shorter.Done? && state == shorter.db.(series := db.series[id := ExtendedSeries(s, until, n - 1)])
    ensures Generate(state, [id], now)
         == WholeRun(db, s, id, until, n, now).db.(series := db.series[id := ExtendedSeries(s, until, n)])
  {
    WholeRunGrows(db, s, id, until, n, now);
    PassExtends(WholeRun(db, s, id, until, n - 1, now).db, db.series, s, id, until, n, now);
  }

  lemma PassExtends(mid: Db, series: map<nat, Series>, s: Series, id: nat, until: int, n: nat, now: int)
    requires n > 0 && Extend(mid, s, id, ExtendedUntil(s.pattern, until, n - 1), now).Done?
    ensures Generate(mid.(series := series[id := ExtendedSeries(s, until, n - 1)]), [id], now)
         == Extend(mid, s, id, ExtendedUntil(s.pattern, until, n - 1), now).db
              .(series := series[id := ExtendedSeries(s, until, n)])
  {
    var reached := ExtendedUntil(s.pattern, until, n - 1);
    var s1 := ExtendedSeries(s, until, n - 1);
    var moved := series[id := s1];
    var (state, out) := (mid.(series := moved), Extend(mid, s, id, reached, now));
    ExtendIgnoresSeries(mid, moved, s, s1, id, reached, now);
    assert Extend(state, s1, id, reached, now) == WithSeries(out, moved);
    OnePassExtends(state, s1, id, reached, now);
    ExtendedTwice(s, until, n);
    assert moved[id := ExtendedSeries(s, until, n)] == series[id := ExtendedSeries(s, until, n)];
  }

  lemma ExtendedTwice(s: Series, until: int, n: nat)
    requires n > 0
    ensures ExtendedSeries(ExtendedSeries(s, until, n - 1), ExtendedUntil(s.pattern, until, n - 1), 1)
         == ExtendedSeries(s, until, n)
  {
  }
}
