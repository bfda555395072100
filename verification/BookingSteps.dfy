/** The other requests and jobs that write the booking tables
    (apps/bookings/views.py, apps/bookings/tasks.py), each as one atomic step. */
module BookingSteps {
  import opened Options
  import opened Calendar
  import opened Recurrence
  import opened BookingModel
  import opened Allocator
  import opened Materialisation

  // ---------- changing the times ----------

  function CheckPatch(db: Db, caller: User, id: nat, start: int, end: int, now: int): Option<Error> {
    if id !in db.bookings then Some(NotFound)
    else if start >= end then Some(StartBeforeEnd)
    else if db.bookings[id].resource !in db.resources then Some(ResourceNotFound)
    else
      var resourceId := db.bookings[id].resource;
      var resource := db.resources[resourceId];
      var window := CheckWindow(resource, start, end);
      if window.Some? then window else
      var kind := CheckType(resource, start, end, now);
      if kind.Some? then kind else
      var conflicts := EnsureNoConflicts(db.bookings, db.blocks, resourceId, start, end, Some(id), None, now);
      if conflicts.Err? then Some(conflicts.error)
      else if DeskOverlap(db, caller.id, resource, start, end, Some(id)) then Some(DeskUserOverlap)
      else None
  }

  function PatchTimes(db: Db, caller: User, id: nat, start: int, end: int, now: int): (Db, Option<Error>) {
    var error := CheckPatch(db, caller, id, start, end, now);
    if error.Some? then (db, error)
    else (db.(bookings := db.bookings[id := db.bookings[id].(start := start, end := end)]), None)
  }

  // ---------- blocks ----------

  function AuditRows(ids: set<nat>, actor: nat, reason: Reason, now: int): multiset<Audit> {
    multiset(set id | id in ids :: Audit(id, actor, reason, now))
  }

  function BlockReason(text: string): Reason {
    if text == "" then ResourceBlocked else Given(text)
  }

  function AddBlock(db: Db, admin: nat, resource: nat, start: int, end: int, text: string, now: int)
    : (Db, Result<nat>)
  {
    if resource !in db.resources then (db, Err(NotFound))
    else if start >= end then (db, Err(StartBeforeEnd))
    else
      var hit := Overlapping(db.bookings, resource, start, end);
      (db.(blocks := db.blocks[db.nextId := Block(resource, start, end)],
           bookings := CancelAll(db.bookings, hit, admin, BlockReason(text)),
           audits := db.audits + AuditRows(hit, admin, BlockReason(text), now),
           nextId := db.nextId + 1),
       Ok(db.nextId))
  }

  function RemoveBlock(db: Db, resource: nat, block: nat): (Db, Option<Error>) {
    if block in db.blocks && db.blocks[block].resource == resource
    then (db.(blocks := db.blocks - {block}), None)
    else (db, Some(NotFound))
  }

  // ---------- cancellations ----------

  function CheckCancel(db: Db, id: nat, now: int): Option<Error> {
    if id !in db.bookings then Some(NotFound)
    else
      var booking := db.bookings[id];
      if booking.status.Cancelled? then Some(AlreadyCancelled)
      else if booking.start <= now then Some(AlreadyStarted)
      else if booking.resource !in db.resources then Some(ResourceNotFound)
      else if booking.start - now < db.resources[booking.resource].minCancel then Some(CancelWindowPassed)
      else None
  }

  function CancelWithAudit(db: Db, ids: set<nat>, actor: nat, reason: Reason, now: int): Db {
    db.(bookings := CancelAll(db.bookings, ids, actor, reason),
        audits := db.audits + AuditRows(ids, actor, reason, now))
  }

  function Cancel(db: Db, caller: nat, id: nat, text: string, now: int): (Db, Option<Error>) {
    var error := CheckCancel(db, id, now);
    if error.Some? then (db, error) else (CancelWithAudit(db, {id}, caller, Given(text), now), None)
  }

  function AdminCancel(db: Db, caller: nat, id: nat, text: string, now: int): (Db, Option<Error>) {
    if id !in db.bookings then (db, Some(NotFound))
    else if text == "" then (db, Some(ReasonRequired))
    else (CancelWithAudit(db, {id}, caller, Given(text), now), None)
  }

  predicate BulkEligible(booking: Booking, caller: User, now: int) {
    && !booking.status.Cancelled?
    && booking.start > now
    && (caller.role.SuperAdmin? || caller.role.CompanyAdmin? || booking.user == caller.id)
  }

  /** The listed bookings that a bulk request cancels; `reachable` is what the caller may see. */
  function BulkTargets(bookings: Bookings, ids: seq<nat>, reachable: set<nat>, caller: User, now: int): set<nat> {
    set id | id in ids && id in reachable && id in bookings && BulkEligible(bookings[id], caller, now)
  }

  /** Every listed id except the first occurrence of each target. */
  function BulkSkipped(ids: seq<nat>, targets: set<nat>): seq<nat> {
    if ids == [] then []
    else
      var (before, last) := (ids[..|ids| - 1], ids[|ids| - 1]);
      BulkSkipped(before, targets) + (if last in targets && last !in before then [] else [last])
  }

  datatype BulkAnswer = BulkAnswer(cancelled: nat, skipped: nat, skippedIds: seq<nat>)

  function BulkCancel(db: Db, caller: User, ids: seq<nat>, reachable: set<nat>, text: string, now: int)
    : (Db, Result<BulkAnswer>)
  {
    if !(1 <= |ids| <= 50) || 0 in ids then (db, Err(InvalidIds))
    else
      var targets := BulkTargets(db.bookings, ids, reachable, caller, now);
      var skipped := BulkSkipped(ids, targets);
      (CancelWithAudit(db, targets, caller.id, Given(text), now),
       Ok(BulkAnswer(|targets|, |skipped|, skipped)))
  }

  ghost function Listed(ids: seq<nat>, targets: set<nat>): set<nat> {
    set id | id in ids && id in targets
  }

  /** Each listed id is counted once: as a cancellation at the first occurrence of a target, or as skipped. */
  lemma {:induction false} BulkCountsAdd(ids: seq<nat>, targets: set<nat>)
    ensures |Listed(ids, targets)| + |BulkSkipped(ids, targets)| == |ids|
  {
    if ids == [] {
    } else {
      var (before, last) := (ids[..|ids| - 1], ids[|ids| - 1]);
      BulkCountsAdd(before, targets);
      assert ids == before + [last];
      if last in targets && last !in before {
        assert Listed(ids, targets) == Listed(before, targets) + {last};
      } else {
        assert Listed(ids, targets) == Listed(before, targets);
      }
    }
  }

  lemma BulkCancelMeaning(db: Db, caller: User, ids: seq<nat>, reachable: set<nat>, text: string, now: int)
    requires 1 <= |ids| <= 50 && 0 !in ids
    ensures var (after, answer) := BulkCancel(db, caller, ids, reachable, text, now);
      && answer.Ok?
      && answer.value.cancelled + answer.value.skipped == |ids|
      && after.bookings.Keys == db.bookings.Keys
      && (forall id :: id in db.bookings ==>
            var hit := id in ids && id in reachable && BulkEligible(db.bookings[id], caller, now);
            && after.audits[Audit(id, caller.id, Given(text), now)]
               == db.audits[Audit(id, caller.id, Given(text), now)] + (if hit then 1 else 0)
            && after.bookings[id] == (if hit
                 then db.bookings[id].(status := Cancelled, cancelledBy := Some(caller.id), cancelReason := Given(text))
                 else db.bookings[id]))
  {
    var targets := BulkTargets(db.bookings, ids, reachable, caller, now);
    BulkCountsAdd(ids, targets);
    assert targets == Listed(ids, targets);
  }

  // ---------- attendance ----------

  function CheckIn(db: Db, id: nat, now: int): (Db, Option<Error>) {
    if id !in db.bookings then (db, Some(NotFound))
    else if now < db.bookings[id].start then (db, Some(CheckInBeforeStart))
    else if !db.bookings[id].status.Confirmed? then (db, Some(NotConfirmed))
    else if db.bookings[id].checkedInAt.Some? then (db, Some(AlreadyCheckedIn))
    else (db.(bookings := db.bookings[id := db.bookings[id].(checkedInAt := Some(now))]), None)
  }

  predicate ScanAccepted(db: Db, id: nat, now: int) {
    id in db.bookings
    && db.bookings[id].resource in db.resources && db.resources[db.bookings[id].resource].kind.Capsule?
    && db.bookings[id].status.Confirmed? && db.bookings[id].start <= now <= db.bookings[id].end
  }

  /** The reception desk scans a capsule booking: the first accepted scan checks it in. */
  function ScanCapsule(db: Db, id: nat, now: int): (Db, bool) {
    if !ScanAccepted(db, id, now) then (db, false)
    else if db.bookings[id].checkedInAt.Some? then (db, true)
    else (db.(bookings := db.bookings[id := db.bookings[id].(checkedInAt := Some(now))]), true)
  }

  predicate IsNoShow(db: Db, id: nat, now: int) {
    id in db.bookings
    && db.bookings[id].resource in db.resources && db.resources[db.bookings[id].resource].kind.MeetingRoom?
    && db.bookings[id].status.Confirmed?
    && db.bookings[id].start <= now - NO_SHOW_MINUTES && db.bookings[id].end > now
    && db.bookings[id].checkedInAt.None?
  }

  predicate IsOver(db: Db, id: nat, now: int) {
    id in db.bookings && db.bookings[id].status.Confirmed? && db.bookings[id].end < now
  }

  function NoShows(db: Db, now: int): set<nat> {
    set id | id in db.bookings && IsNoShow(db, id, now)
  }

  function Finished(db: Db, now: int): set<nat> {
    set id | id in db.bookings && IsOver(db, id, now)
  }

  function MarkNoShow(db: Db, now: int): Db {
    db.(bookings := map id | id in db.bookings ::
          if IsNoShow(db, id, now) then db.bookings[id].(status := NoShow) else db.bookings[id])
  }

  function AutoComplete(db: Db, now: int): Db {
    db.(bookings := map id | id in db.bookings ::
          if IsOver(db, id, now) then db.bookings[id].(status := Completed) else db.bookings[id])
  }

  // ---------- resources and companies ----------

  predicate OfCompany(booking: Booking, company: nat) {
    booking.company == Some(company) && booking.status.Confirmed?
  }

  /** Deactivating a company cancels its confirmed bookings, past ones too, without a reason and without audit rows. */
  function DeactivateCompany(db: Db, company: nat): Db {
    db.(bookings := map id | id in db.bookings ::
          if OfCompany(db.bookings[id], company) then db.bookings[id].(status := Cancelled) else db.bookings[id])
  }

  function FutureBookings(bookings: Bookings, resource: nat, now: int): set<nat> {
    set id | id in bookings && Holds(bookings, id, resource) && bookings[id].end > now
  }

  function Deactivate(db: Db, admin: nat, resource: nat, now: int): (Db, Option<Error>) {
    if resource !in db.resources then (db, Some(NotFound))
    else if !db.resources[resource].isActive then (db, None)
    else (db.(resources := db.resources[resource := db.resources[resource].(isActive := false)],
              bookings := CancelAll(db.bookings, FutureBookings(db.bookings, resource, now), admin,
                                  ResourceDeactivated)),
          None)
  }

  // ---------- series ----------

  predicate Duplicates(other: Series, s: Series, today: int) {
    && other.isActive && other.resource == s.resource
    && other.startMinute == s.startMinute && other.endMinute == s.endMinute
    && other.pattern == s.pattern
    && s.validUntil.Some? && other.validFrom <= s.validUntil.value
    && (other.validUntil.None? || other.validUntil.value >= today)
  }

  function NewSeries(resource: Resource, id: nat, user: User, p: Pattern, startMinute: int, endMinute: int,
                     until: int, today: int): Series {
    Series(id, user.id, if user.company.Some? then user.company else resource.assignedCompany, p,
           startMinute, endMinute, true, FirstDate(p, today), Some(until))
  }

  predicate ValidMinute(m: int) { 0 <= m < MINUTES_PER_DAY }

  function CheckSeries(db: Db, user: User, id: nat, p: Pattern, startMinute: int, endMinute: int,
                       until: int, now: int): Option<Error> {
    var today := LocalDate(now);
    if id !in db.resources then Some(ResourceNotFound)
    else if !ValidMinute(startMinute) || !ValidMinute(endMinute) then Some(InvalidTime)
    else if p.Weekly? && !(0 <= p.dayOfWeek <= 6) then Some(InvalidDayOfWeek)
    else
      var resource := db.resources[id];
      var series := NewSeries(resource, id, user, p, startMinute, endMinute, until, today);
      var access := CheckAccess(resource, user);
      if startMinute >= endMinute then Some(StartBeforeEnd)
      else if until < today then Some(RepeatUntilInPast)
      else if access.Some? then access
      else if p.Weekly? && resource.availableDays != {} && p.dayOfWeek !in resource.availableDays
      then Some(UnavailableDay)
      else if startMinute < resource.availableFrom || endMinute > resource.availableUntil
      then Some(OutsideOperatingHours)
      else if exists k :: k in db.series && Duplicates(db.series[k], series, today) then Some(DuplicateSeries)
      else if !HasCreatableOccurrence(p, endMinute, today, until, now) then Some(NoCreatableDates)
      else if series.company.None? && !user.role.SuperAdmin? && !user.role.Guest? then Some(WrongCompany)
      else None
  }

  function CreateSeries(db: Db, user: User, id: nat, p: Pattern, startMinute: int, endMinute: int,
                        until: int, now: int): (Db, Result<seq<int>>) {
    var error := CheckSeries(db, user, id, p, startMinute, endMinute, until, now);
    if error.Some? then (db, Err(error.value))
    else
      var s := NewSeries(db.resources[id], id, user, p, startMinute, endMinute, until, LocalDate(now));
      InsertSeries(db, s, MatchingDates(s.pattern, s.validFrom, until), now)
  }

  /** The series and its bookings are inserted in one transaction. */
  function InsertSeries(db: Db, s: Series, dates: seq<int>, now: int): (Db, Result<seq<int>>) {
    var inserted := db.(series := db.series[db.nextId := s], nextId := db.nextId + 1);
    match Materialise(inserted, s, db.nextId, dates, now)
    case Crashed => (db, Err(SeveralMatchingRows))
    case Done(after, skipped) => (after, Ok(skipped))
  }

  predicate Due(s: Series, today: int) {
    s.isActive && s.validUntil.Some? && s.validUntil.value >= today
  }

  /** The due series, each once, in whatever order the query returns them. */
  ghost predicate IsQueue(db: Db, order: seq<nat>, today: int) {
    && (forall id :: id in order <==> id in db.series && Due(db.series[id], today))
    && (forall i, j :: 0 <= i < j < |order| ==> order[i] != order[j])
  }

  /** What the pass does to one series, and whether it goes on. */
  function ExtendedOnce(db: Db, id: nat, now: int): (Db, bool)
    requires id in db.series && db.series[id].validUntil.Some?
  {
    var s := db.series[id];
    match Extend(db, s, id, s.validUntil.value, now)
    case Crashed => (db, false)
    case Done(after, _) =>
      (after.(series := after.series[id := s.(validUntil := Some(s.validUntil.value + AdvanceDays(s.pattern)))]), true)
  }

  /** One pass of the periodic job. A crash ends the pass; the series before it keep their extension. */
  function Generate(db: Db, order: seq<nat>, now: int): Db
    decreases |order|
  {
    if order == [] || order[0] !in db.series || db.series[order[0]].validUntil.None? then db
    else
      var (after, extended) := ExtendedOnce(db, order[0], now);
      if extended then Generate(after, order[1..], now) else after
  }

  /** The fields of a series that a PATCH may write. */
  datatype Template = Template(
    resource: nat, pattern: Pattern, startMinute: int, endMinute: int, isActive: bool, validFrom: int,
    validUntil: Option<int>)

  function Edited(s: Series, t: Template): Series {
    s.(resource := t.resource, pattern := t.pattern, startMinute := t.startMinute, endMinute := t.endMinute,
       isActive := t.isActive, validFrom := t.validFrom, validUntil := t.validUntil)
  }

  /** A PATCH of a series saves its fields as they come; those it does not send keep their values. */
  function EditSeries(db: Db, id: nat, t: Template): (Db, Option<Error>) {
    if id !in db.series then (db, Some(NotFound))
    else if t.resource !in db.resources then (db, Some(ResourceNotFound))
    else if !ValidMinute(t.startMinute) || !ValidMinute(t.endMinute) then (db, Some(InvalidTime))
    else (db.(series := db.series[id := Edited(db.series[id], t)]), None)
  }

  /** Deleting a series removes its bookings that have not started; the others lose the link. */
  function DeleteSeries(db: Db, id: nat, now: int): (Db, Option<Error>) {
    if id !in db.series then (db, Some(NotFound))
    else
      (db.(series := db.series - {id},
           bookings := map k | k in db.bookings && !(db.bookings[k].series == Some(id) && db.bookings[k].start > now) ::
             if db.bookings[k].series == Some(id) then db.bookings[k].(series := None) else db.bookings[k]),
       None)
  }

  function DeleteBooking(db: Db, id: nat): (Db, Option<Error>) {
    if id !in db.bookings then (db, Some(NotFound)) else (db.(bookings := db.bookings - {id}), None)
  }
}
