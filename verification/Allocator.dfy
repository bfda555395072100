/** One-off bookings: the checks and the effect of BookingCreateSerializer (apps/bookings/serializers.py). */
module Allocator {
  import opened Options
  import opened Calendar
  import opened BookingModel

  function Priority(user: User): nat {
    if user.role.SuperAdmin? then 3
    else if user.company.None? then 1
    else match user.plan { case Premium => 3 case Standard => 2 case _ => 1 }
  }

  function CheckAccess(resource: Resource, user: User): Option<Error> {
    if user.role.SuperAdmin? || resource.assignedCompany.None? then None
    else if user.company != resource.assignedCompany then Some(WrongCompany)
    else if user.plan != Standard && user.plan != Premium then Some(RequiresPremium)
    else None
  }

  predicate ParkingWholeDay(resource: Resource, start: int, end: int) {
    resource.kind.Parking? && LocalMinute(start) == 0 && LocalMinute(end) == 0
  }

  function CheckWindow(resource: Resource, start: int, end: int): Option<Error> {
    var wholeDay := ParkingWholeDay(resource, start, end);
    if !wholeDay && LocalDate(start) != LocalDate(end) then Some(SameDayOnly)
    else if resource.availableDays != {} && Weekday(LocalDate(start)) !in resource.availableDays
    then Some(UnavailableDay)
    else if !wholeDay && (LocalMinute(start) < resource.availableFrom || LocalMinute(end) > resource.availableUntil)
    then Some(OutsideOperatingHours)
    else None
  }

  function CheckType(resource: Resource, start: int, end: int, now: int): Option<Error> {
    var duration := end - start;
    if LocalDate(start) > LocalDate(now) + resource.advanceDays then Some(AdvanceDaysExceeded)
    else match resource.kind {
      case MeetingRoom =>
        if duration < 30 then Some(DurationTooShort) else if duration > 240 then Some(DurationTooLong) else None
      case Parking =>
        if LocalMinute(start) == 0
           && (LocalMinute(end) == 1439 || (LocalMinute(end) == 0 && LocalDate(end) > LocalDate(start)))
        then None else Some(ParkingWholeDayOnly)
      case Capsule =>
        if duration < 60 then Some(DurationTooShort) else if duration > 480 then Some(DurationTooLong) else None
      case Desk => None
    }
  }

  function CheckDuration(resource: Resource, start: int, end: int): Option<Error> {
    if resource.kind.Parking? then None
    else if resource.minDuration != 0 && end - start < resource.minDuration then Some(DurationTooShort)
    else if resource.maxDuration != 0 && end - start > resource.maxDuration then Some(DurationTooLong)
    else None
  }

  predicate Displaceable(booking: Booking, user: User, now: int) {
    booking.priority < Priority(user) && booking.start > now + PRIORITY_OVERRIDE_MINUTES
  }

  /** The bookings to displace, or a conflict. Without a user nothing can be displaced. */
  function EnsureNoConflicts(bookings: Bookings, blocks: Blocks, resource: nat, start: int, end: int,
                             exclude: Option<nat>, user: Option<User>, now: int): Result<set<nat>> {
    var overlap := Overlapping(bookings, resource, start, end) - (if exclude.Some? then {exclude.value} else {});
    if overlap != {} && (user.None? || exists id :: id in overlap && !Displaceable(bookings[id], user.value, now))
    then Err(Conflict)
    else if Blocked(blocks, resource, start, end) then Err(Conflict)
    else Ok(overlap)
  }

  predicate DeskOverlap(db: Db, user: nat, resource: Resource, start: int, end: int, exclude: Option<nat>) {
    resource.kind.Desk? &&
    exists id :: id in db.bookings && exclude != Some(id)
      && db.bookings[id].user == user && db.bookings[id].status.Confirmed?
      && db.bookings[id].resource in db.resources && db.resources[db.bookings[id].resource].kind.Desk?
      && Meets(db.bookings[id].start, db.bookings[id].end, start, end)
  }

  function ActiveBookings(bookings: Bookings, user: nat, now: int): set<nat> {
    set id | id in bookings && bookings[id].user == user && bookings[id].status.Confirmed? && bookings[id].end > now
  }

  /** Every check of a create request, in the order in which the request makes them. */
  function CheckCreate(db: Db, user: User, id: nat, start: int, end: int, now: int): Result<set<nat>> {
    if id !in db.resources then Err(ResourceNotFound)
    else
      var resource := db.resources[id];
      if start >= end then Err(StartBeforeEnd)
      else if start <= now then Err(StartMustBeFuture)
      else
        var kind := CheckType(resource, start, end, now);
        if kind.Some? then Err(kind.value) else
        var access := CheckAccess(resource, user);
        if access.Some? then Err(access.value) else
        var conflicts := EnsureNoConflicts(db.bookings, db.blocks, id, start, end, None, Some(user), now);
        if conflicts.Err? then conflicts
        else if DeskOverlap(db, user.id, resource, start, end, None) then Err(DeskUserOverlap)
        else
          var window := CheckWindow(resource, start, end);
          if window.Some? then Err(window.value) else
          var duration := CheckDuration(resource, start, end);
          if duration.Some? then Err(duration.value)
          else if |ActiveBookings(db.bookings, user.id, now)| >= MAX_ACTIVE_BOOKINGS then Err(ActiveLimitExceeded)
          else conflicts
  }

  function NewBooking(resource: Resource, id: nat, user: User, start: int, end: int): Booking {
    var company := if user.role.Guest? then None
                   else if user.company.Some? then user.company else resource.assignedCompany;
    Booking(id, user.id, company, None, start, end, Confirmed, Priority(user), None, NoReason, None)
  }

  function CancelAll(bookings: Bookings, ids: set<nat>, actor: nat, reason: Reason): Bookings {
    map id | id in bookings :: if id in ids then Withdrawn(bookings[id], actor, reason) else bookings[id]
  }

  function Withdrawn(row: Booking, actor: nat, reason: Reason): Booking {
    row.(status := Cancelled, cancelledBy := Some(actor), cancelReason := reason)
  }

  function Record(history: History, made: nat, priority: nat, displaced: set<nat>): History {
    History(history.priorityOf[made := priority],
            map id | id in history.displacedBy.Keys + displaced ::
              if id in displaced then made else history.displacedBy[id])
  }

  function Place(db: Db, user: User, id: nat, start: int, end: int, displaced: set<nat>): Db
    requires id in db.resources
  {
    var inserted := db.bookings[db.nextId := NewBooking(db.resources[id], id, user, start, end)];
    db.(bookings := CancelAll(inserted, displaced, user.id, DisplacedByPriority),
        nextId := db.nextId + 1,
        history := Record(db.history, db.nextId, Priority(user), displaced))
  }

  /** The tables after a create request, and its answer: the new booking's id or the first failing check. */
  function Create(db: Db, user: User, id: nat, start: int, end: int, now: int): (Db, Result<nat>) {
    var checked := CheckCreate(db, user, id, start, end, now);
    if checked.Err? then (db, Err(checked.error))
    else (Place(db, user, id, start, end, checked.value), Ok(db.nextId))
  }

  /** What a passed conflict check means: exactly the overlapping bookings are returned,
      each of them displaceable, and no block is in the way. */
  lemma NoConflictsMeaning(bookings: Bookings, blocks: Blocks, resource: nat, start: int, end: int,
                           exclude: Option<nat>, user: Option<User>, now: int)
    ensures var r := EnsureNoConflicts(bookings, blocks, resource, start, end, exclude, user, now);
            r.Ok? <==>
              && !Blocked(blocks, resource, start, end)
              && forall id :: id in Overlapping(bookings, resource, start, end) && exclude != Some(id)
                   ==> user.Some? && Displaceable(bookings[id], user.value, now)
    ensures var r := EnsureNoConflicts(bookings, blocks, resource, start, end, exclude, user, now);
            r.Ok? ==> forall id :: id in r.value <==>
              id in Overlapping(bookings, resource, start, end) && exclude != Some(id)
  {
    var overlap := Overlapping(bookings, resource, start, end) - (if exclude.Some? then {exclude.value} else {});
    forall id
      ensures id in overlap <==> id in Overlapping(bookings, resource, start, end) && exclude != Some(id)
    {
    }
    if overlap != {} {
      var some :| some in overlap;
    }
  }

  /** What the rest of a create request may rely on once its checks have passed. */
  lemma CheckedCreate(db: Db, user: User, id: nat, start: int, end: int, now: int)
    requires CheckCreate(db, user, id, start, end, now).Ok?
    ensures id in db.resources && now < start < end
    ensures CheckCreate(db, user, id, start, end, now).value <= db.bookings.Keys
    ensures CheckCreate(db, user, id, start, end, now)
         == EnsureNoConflicts(db.bookings, db.blocks, id, start, end, None, Some(user), now)
  {
  }

  /** A create request changes nothing, or confirms one booking and cancels exactly the confirmed
      bookings it overlaps, all of strictly lower priority and more than the override lead away. */
  lemma CreateMeaning(db: Db, user: User, id: nat, start: int, end: int, now: int)
    requires db.nextId !in db.bookings
    ensures var (after, answer) := Create(db, user, id, start, end, now);
      && (answer.Err? ==> after == db)
      && (answer.Ok? ==>
            && start < end && now < start && id in db.resources
            && after.bookings.Keys == db.bookings.Keys + {answer.value} && answer.value !in db.bookings
            && after.bookings[answer.value] == NewBooking(db.resources[id], id, user, start, end)
            && after.resources == db.resources && after.blocks == db.blocks && after.series == db.series
            && after.audits == db.audits
            && (forall k :: k in db.bookings && !(Holds(db.bookings, k, id)
                              && Meets(db.bookings[k].start, db.bookings[k].end, start, end))
                  ==> after.bookings[k] == db.bookings[k])
            && (forall k :: k in db.bookings && Holds(db.bookings, k, id)
                              && Meets(db.bookings[k].start, db.bookings[k].end, start, end)
                  ==> && after.bookings[k] == db.bookings[k].(status := Cancelled, cancelledBy := Some(user.id),
                                                              cancelReason := DisplacedByPriority)
                      && db.bookings[k].priority < Priority(user)
                      && db.bookings[k].start > now + PRIORITY_OVERRIDE_MINUTES))
  {
    if CheckCreate(db, user, id, start, end, now).Ok? {
      CheckedCreate(db, user, id, start, end, now);
      NoConflictsMeaning(db.bookings, db.blocks, id, start, end, None, Some(user), now);
    }
  }

  lemma CancelOneMore(bookings: Bookings, ids: set<nat>, id: nat, actor: nat, reason: Reason)
    requires id in bookings && id !in ids
    ensures CancelAll(bookings, ids + {id}, actor, reason)
         == CancelAll(bookings, ids, actor, reason)[id := Withdrawn(bookings[id], actor, reason)]
  {
  }
}
