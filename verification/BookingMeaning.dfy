/** When each booking request goes through and what it does, said of the rows, times and users themselves. */
module BookingMeaning {
  import opened Options
  import opened Calendar
  import opened Recurrence
  import opened BookingModel
  import opened Allocator
  import opened Materialisation
  import opened BookingSteps

  // ---------- vocabulary ----------

  /** A confirmed booking of the resource that starts before the end and ends after the start. */
  predicate Crosses(row: Booking, resource: nat, start: int, end: int) {
    row.status.Confirmed? && row.resource == resource && row.start < end && row.end > start
  }

  predicate Bars(block: Block, resource: nat, start: int, end: int) {
    block.resource == resource && block.start < end && block.end > start
  }

  /** Superadmins and members of premium companies. */
  predicate Top(user: User) {
    user.role.SuperAdmin? || (user.company.Some? && user.plan.Premium?)
  }

  /** Members of standard companies who are not superadmins. */
  predicate Middle(user: User) {
    !user.role.SuperAdmin? && user.company.Some? && user.plan.Standard?
  }

  predicate IsToday(today: int, now: int) {
    Combine(today, 0) <= now < Combine(today + 1, 0)
  }

  lemma TodayIsLocalDate(today: int, now: int)
    requires IsToday(today, now)
    ensures LocalDate(now) == today
  {
    CombineRoundTrip(now, LocalDate(now), LocalMinute(now));
  }

  lemma CrossingMeaning(bookings: Bookings, resource: nat, start: int, end: int)
    ensures forall k :: k in Overlapping(bookings, resource, start, end)
                   <==> k in bookings && Crosses(bookings[k], resource, start, end)
  {
  }

  lemma BarringMeaning(blocks: Blocks, resource: nat, start: int, end: int)
    ensures Blocked(blocks, resource, start, end) <==> exists b :: b in blocks && Bars(blocks[b], resource, start, end)
  {
    if b :| b in blocks && Bars(blocks[b], resource, start, end) {
      assert blocks[b].resource == resource && Meets(blocks[b].start, blocks[b].end, start, end);
    }
    if b :| b in blocks && blocks[b].resource == resource && Meets(blocks[b].start, blocks[b].end, start, end) {
      assert Bars(blocks[b], resource, start, end);
    }
  }

  // ---------- who may displace whom ----------

  /** The booking may be displaced for the user: it starts more than two hours ahead and its tier is lower. */
  predicate GivesWay(row: Booking, user: User, now: int) {
    row.start > now + 120 && row.priority < (if Top(user) then 3 else if Middle(user) then 2 else 1)
  }

  lemma GivingWayMeaning(row: Booking, user: User, now: int)
    ensures Displaceable(row, user, now) <==> GivesWay(row, user, now)
  {
  }

  /** The conflict check of a request, for every table. */
  lemma ConflictCheckMeaning(bookings: Bookings, blocks: Blocks, resource: nat, start: int, end: int,
                             exclude: Option<nat>, user: Option<User>, now: int)
    ensures EnsureNoConflicts(bookings, blocks, resource, start, end, exclude, user, now).Ok?
      <==> ((forall b :: b in blocks ==> !Bars(blocks[b], resource, start, end))
            && (forall k :: k in bookings && exclude != Some(k) && Crosses(bookings[k], resource, start, end)
                  ==> user.Some? && GivesWay(bookings[k], user.value, now)))
  {
    NoConflictsMeaning(bookings, blocks, resource, start, end, exclude, user, now);
    CrossingMeaning(bookings, resource, start, end);
    BarringMeaning(blocks, resource, start, end);
    forall k | k in bookings && user.Some?
      ensures Displaceable(bookings[k], user.value, now) <==> GivesWay(bookings[k], user.value, now)
    {
      GivingWayMeaning(bookings[k], user.value, now);
    }
  }

  /** A request over a booking that the holder made, and over nothing else, far enough ahead, passes the conflict check
      exactly when the requester is a superadmin or of a premium company and the holder is neither, or the requester
      is of a standard company and the holder is no superadmin and of no standard or premium company. */
  lemma DisplacementByPlan(db: Db, holder: User, user: User, id: nat, start: int, end: int, now: int,
                           from: int, to: int, later: int)
    requires Create(db, holder, id, start, end, now).1.Ok? && db.nextId !in db.bookings
    requires var booked := Create(db, holder, id, start, end, now).0;
      && (forall k :: k in booked.bookings && k != db.nextId ==> !Crosses(booked.bookings[k], id, from, to))
      && (forall b :: b in booked.blocks ==> !Bars(booked.blocks[b], id, from, to))
    requires start < to && end > from && start > later + 120
    ensures var booked := Create(db, holder, id, start, end, now).0;
      EnsureNoConflicts(booked.bookings, booked.blocks, id, from, to, None, Some(user), later).Ok?
      <==> (((user.role.SuperAdmin? || (user.company.Some? && user.plan.Premium?))
             && !(holder.role.SuperAdmin? || (holder.company.Some? && holder.plan.Premium?)))
            || (!user.role.SuperAdmin? && user.company.Some? && user.plan.Standard?
                && !holder.role.SuperAdmin?
                && !(holder.company.Some? && (holder.plan.Standard? || holder.plan.Premium?))))
  {
    var booked := Create(db, holder, id, start, end, now).0;
    CreateMeaning(db, holder, id, start, end, now);
    ConflictCheckMeaning(booked.bookings, booked.blocks, id, from, to, None, Some(user), later);
    assert booked.bookings[db.nextId] == NewBooking(db.resources[id], id, holder, start, end);
    assert Crosses(booked.bookings[db.nextId], id, from, to);
    assert GivesWay(booked.bookings[db.nextId], user, later)
      <==> booked.bookings[db.nextId].priority < (if Top(user) then 3 else if Middle(user) then 2 else 1);
  }

  /** The row that a create request makes. */
  lemma CreatedRow(db: Db, user: User, id: nat, start: int, end: int, now: int)
    requires Create(db, user, id, start, end, now).1.Ok? && db.nextId !in db.bookings
    ensures var (after, answer) := Create(db, user, id, start, end, now);
      && answer.value in after.bookings && id in db.resources
      && var row := after.bookings[answer.value];
      && row.resource == id && row.user == user.id && row.start == start && row.end == end
      && row.status.Confirmed? && row.series.None? && row.checkedInAt.None? && row.cancelledBy.None?
      && row.company == (if user.role.Guest? then None
                         else if user.company.None? then db.resources[id].assignedCompany else user.company)
      && row.priority == (if Top(user) then 3 else if Middle(user) then 2 else 1)
  {
    CreateMeaning(db, user, id, start, end, now);
  }

  /** What the history keeps of a create request: the tier of the new booking, and that it displaced exactly the
      confirmed bookings of the resource that it crosses. */
  lemma CreateIsRecorded(db: Db, user: User, id: nat, start: int, end: int, now: int)
    requires Create(db, user, id, start, end, now).1.Ok?
    ensures var (after, answer) := Create(db, user, id, start, end, now);
      && after.history.priorityOf
         == db.history.priorityOf[answer.value := if Top(user) then 3 else if Middle(user) then 2 else 1]
      && forall k ::
           var displaced := k in db.bookings && Crosses(db.bookings[k], id, start, end);
           && (k in after.history.displacedBy <==> displaced || k in db.history.displacedBy)
           && (k in after.history.displacedBy ==>
                 after.history.displacedBy[k] == if displaced then answer.value else db.history.displacedBy[k])
  {
    CheckedCreate(db, user, id, start, end, now);
    NoConflictsMeaning(db.bookings, db.blocks, id, start, end, None, Some(user), now);
    CrossingMeaning(db.bookings, id, start, end);
  }

  // ---------- when a create request is accepted ----------

  /** The user may book the resource: it is nobody's, or the user is a superadmin, or of the company it is assigned to
      on a standard or premium plan. */
  predicate MayUse(resource: Resource, user: User) {
    || resource.assignedCompany.None? || user.role.SuperAdmin?
    || (user.company == resource.assignedCompany && (user.plan.Standard? || user.plan.Premium?))
  }

  /** Both ends of the interval are at local midnight. */
  ghost predicate MidnightToMidnight(start: int, end: int) {
    exists a, b :: start == Combine(a, 0) && end == Combine(b, 0)
  }

  /** From midnight of a day to 23:59 of some day, or to midnight of a later one. */
  ghost predicate WholeDays(start: int, end: int) {
    exists a, b :: start == Combine(a, 0) && (end == Combine(b, 1439) || (end == Combine(b, 0) && a < b))
  }

  /** The length and the ends suit the kind of the resource. */
  ghost predicate SuitsKind(resource: Resource, start: int, end: int) {
    match resource.kind
    case MeetingRoom => 30 <= end - start <= 240
    case Capsule => 60 <= end - start <= 480
    case Parking => WholeDays(start, end)
    case Desk => true
  }

  predicate OpenOn(resource: Resource, date: int) {
    resource.availableDays == {} || Weekday(date) in resource.availableDays
  }

  /** Within one local day that is open, in the opening hours; a parking space may go from midnight to midnight, and
      then only the first day must be open. */
  ghost predicate SuitsHours(resource: Resource, start: int, end: int) {
    if resource.kind.Parking? && MidnightToMidnight(start, end)
    then exists a :: start == Combine(a, 0) && OpenOn(resource, a)
    else exists d, m, n :: 0 <= m < 1440 && 0 <= n < 1440 && start == Combine(d, m) && end == Combine(d, n)
                        && OpenOn(resource, d) && resource.availableFrom <= m && n <= resource.availableUntil
  }

  predicate SuitsLimits(resource: Resource, start: int, end: int) {
    resource.kind.Parking? ||
    ((resource.minDuration == 0 || resource.minDuration <= end - start)
     && (resource.maxDuration == 0 || end - start <= resource.maxDuration))
  }

  /** A booked desk of the user crosses the interval. */
  predicate HasDesk(db: Db, user: nat, start: int, end: int, exclude: Option<nat>) {
    exists k :: k in db.bookings && exclude != Some(k) && db.bookings[k].user == user
      && db.bookings[k].resource in db.resources && db.resources[db.bookings[k].resource].kind.Desk?
      && Crosses(db.bookings[k], db.bookings[k].resource, start, end)
  }

  lemma AccessMeaning(resource: Resource, user: User)
    ensures CheckAccess(resource, user).None? <==> MayUse(resource, user)
  {
  }

  lemma LocalParts(t: int, date: int, minute: int)
    requires 0 <= minute < 1440
    ensures t == Combine(date, minute) <==> LocalDate(t) == date && LocalMinute(t) == minute
  {
    CombineRoundTrip(t, date, minute);
  }

  lemma MidnightMeaning(start: int, end: int)
    ensures MidnightToMidnight(start, end) <==> LocalMinute(start) == 0 && LocalMinute(end) == 0
  {
    LocalParts(start, LocalDate(start), 0);
    LocalParts(end, LocalDate(end), 0);
    if MidnightToMidnight(start, end) {
      var a, b :| start == Combine(a, 0) && end == Combine(b, 0);
      LocalParts(start, a, 0);
      LocalParts(end, b, 0);
    }
  }

  lemma WholeDaysMeaning(start: int, end: int)
    ensures WholeDays(start, end) <==>
      LocalMinute(start) == 0
      && (LocalMinute(end) == 1439 || (LocalMinute(end) == 0 && LocalDate(end) > LocalDate(start)))
  {
    LocalParts(start, LocalDate(start), 0);
    LocalParts(end, LocalDate(end), 0);
    LocalParts(end, LocalDate(end), 1439);
    if WholeDays(start, end) {
      var a, b :| start == Combine(a, 0) && (end == Combine(b, 1439) || (end == Combine(b, 0) && a < b));
      LocalParts(start, a, 0);
      LocalParts(end, b, 0);
      LocalParts(end, b, 1439);
    }
  }

  lemma KindMeaning(resource: Resource, start: int, end: int, today: int, now: int)
    requires IsToday(today, now)
    ensures CheckType(resource, start, end, now).None?
      <==> start < Combine(today + resource.advanceDays + 1, 0) && SuitsKind(resource, start, end)
  {
    TodayIsLocalDate(today, now);
    WholeDaysMeaning(start, end);
    CombineRoundTrip(start, LocalDate(start), LocalMinute(start));
  }

  lemma HoursMeaning(resource: Resource, start: int, end: int)
    ensures CheckWindow(resource, start, end).None? <==> SuitsHours(resource, start, end)
  {
    MidnightMeaning(start, end);
    var (d, m, n) := (LocalDate(start), LocalMinute(start), LocalMinute(end));
    LocalParts(start, d, m);
    LocalParts(start, d, 0);
    if resource.kind.Parking? && MidnightToMidnight(start, end) {
      if a :| start == Combine(a, 0) && OpenOn(resource, a) {
        LocalParts(start, a, 0);
      }
    } else {
      LocalParts(end, LocalDate(end), n);
      if SuitsHours(resource, start, end) {
        var e, p, q :| 0 <= p < 1440 && 0 <= q < 1440 && start == Combine(e, p) && end == Combine(e, q)
          && OpenOn(resource, e) && resource.availableFrom <= p && q <= resource.availableUntil;
        LocalParts(start, e, p);
        LocalParts(end, e, q);
      }
    }
  }

  lemma LimitsMeaning(resource: Resource, start: int, end: int)
    ensures CheckDuration(resource, start, end).None? <==> SuitsLimits(resource, start, end)
  {
  }

  lemma DeskMeaning(db: Db, user: nat, resource: Resource, start: int, end: int, exclude: Option<nat>)
    ensures DeskOverlap(db, user, resource, start, end, exclude)
      <==> resource.kind.Desk? && HasDesk(db, user, start, end, exclude)
  {
  }

  /** Everything that a create request asks of the tables, the user and the interval. */
  ghost predicate Bookable(db: Db, user: User, id: nat, start: int, end: int, today: int, now: int) {
    && id in db.resources && now < start < end
    && start < Combine(today + db.resources[id].advanceDays + 1, 0)
    && SuitsKind(db.resources[id], start, end) && MayUse(db.resources[id], user)
    && SuitsHours(db.resources[id], start, end) && SuitsLimits(db.resources[id], start, end)
    && (forall b :: b in db.blocks ==> !Bars(db.blocks[b], id, start, end))
    && (forall k :: k in db.bookings && Crosses(db.bookings[k], id, start, end) ==> GivesWay(db.bookings[k], user, now))
    && (db.resources[id].kind.Desk? ==> !HasDesk(db, user.id, start, end, None))
    && |set k | k in db.bookings && db.bookings[k].user == user.id && db.bookings[k].status.Confirmed?
               && now < db.bookings[k].end| < 5
  }

  lemma CreateIsAccepted(db: Db, user: User, id: nat, start: int, end: int, today: int, now: int)
    requires IsToday(today, now)
    ensures Create(db, user, id, start, end, now).1.Ok? <==> Bookable(db, user, id, start, end, today, now)
  {
    if id in db.resources {
      var resource := db.resources[id];
      AccessMeaning(resource, user);
      KindMeaning(resource, start, end, today, now);
      HoursMeaning(resource, start, end);
      LimitsMeaning(resource, start, end);
      DeskMeaning(db, user.id, resource, start, end, None);
      ConflictCheckMeaning(db.bookings, db.blocks, id, start, end, None, Some(user), now);
      ActiveMeaning(db.bookings, user.id, now);
    }
  }

  lemma ActiveMeaning(bookings: Bookings, user: nat, now: int)
    ensures ActiveBookings(bookings, user, now)
         == set k | k in bookings && bookings[k].user == user && bookings[k].status.Confirmed? && now < bookings[k].end
  {
  }

  // ---------- changing the times ----------

  /** When a change of times is accepted, and what it writes. Nobody is displaced for it, and the desk test is about the
      caller. */
  lemma PatchMeaning(db: Db, caller: User, id: nat, start: int, end: int, today: int, now: int)
    requires IsToday(today, now)
    ensures var (after, error) := PatchTimes(db, caller, id, start, end, now);
      && (error.None?
          <==> (id in db.bookings && start < end && db.bookings[id].resource in db.resources
                && var (r, resource) := (db.bookings[id].resource, db.resources[db.bookings[id].resource]);
                && start < Combine(today + resource.advanceDays + 1, 0)
                && SuitsKind(resource, start, end) && SuitsHours(resource, start, end)
                && (forall b :: b in db.blocks ==> !Bars(db.blocks[b], r, start, end))
                && (forall k :: k in db.bookings && k != id ==> !Crosses(db.bookings[k], r, start, end))
                && (resource.kind.Desk? ==> !HasDesk(db, caller.id, start, end, Some(id)))))
      && after == (if error.None? then db.(bookings := db.bookings[id := db.bookings[id].(start := start, end := end)])
                   else db)
  {
    if id in db.bookings && db.bookings[id].resource in db.resources {
      var resource := db.resources[db.bookings[id].resource];
      KindMeaning(resource, start, end, today, now);
      HoursMeaning(resource, start, end);
      DeskMeaning(db, caller.id, resource, start, end, Some(id));
      ConflictCheckMeaning(db.bookings, db.blocks, db.bookings[id].resource, start, end, Some(id), None, now);
    }
  }

  // ---------- blocks ----------

  /** A block is answered Ok exactly for a resource that exists and an interval that is not empty. Then one row is
      added, and exactly the confirmed bookings of the resource that cross it are cancelled, each with one audit row
      more. */
  lemma BlockMeaning(db: Db, admin: nat, resource: nat, start: int, end: int, text: string, now: int)
    requires db.nextId !in db.blocks
    ensures var (after, answer) := AddBlock(db, admin, resource, start, end, text, now);
      var reason := if text == "" then ResourceBlocked else Given(text);
      && (answer.Ok? <==> resource in db.resources && start < end)
      && (answer.Err? ==> after == db)
      && (answer.Ok? ==>
            && answer.value !in db.blocks && after.blocks == db.blocks[answer.value := Block(resource, start, end)]
            && after.bookings.Keys == db.bookings.Keys
            && (forall k :: k in db.bookings ==>
                  var row := db.bookings[k];
                  after.bookings[k] ==
                    if row.status.Confirmed? && row.resource == resource && row.start < end && row.end > start
                    then row.(status := Cancelled, cancelledBy := Some(admin), cancelReason := reason) else row)
            && (forall row: Audit ::
                  after.audits[row] == db.audits[row]
                    + (if row.booking in db.bookings && row == Audit(row.booking, admin, reason, now)
                          && Crosses(db.bookings[row.booking], resource, start, end) then 1 else 0))
            && after.resources == db.resources && after.series == db.series && after.history == db.history)
  {
    CrossingMeaning(db.bookings, resource, start, end);
    AuditRowsMeaning(Overlapping(db.bookings, resource, start, end), admin, BlockReason(text), now);
  }

  lemma AuditRowsMeaning(ids: set<nat>, actor: nat, reason: Reason, now: int)
    ensures forall row: Audit ::
              AuditRows(ids, actor, reason, now)[row]
              == if row.booking in ids && row == Audit(row.booking, actor, reason, now) then 1 else 0
  {
    var rows := set id | id in ids :: Audit(id, actor, reason, now);
    forall row: Audit
      ensures multiset(rows)[row]
           == if row.booking in ids && row == Audit(row.booking, actor, reason, now) then 1 else 0
    {
      assert row in rows <==> row.booking in ids && row == Audit(row.booking, actor, reason, now);
    }
  }

  lemma UnblockMeaning(db: Db, resource: nat, block: nat)
    ensures var (after, error) := RemoveBlock(db, resource, block);
      && (error.None? <==> block in db.blocks && db.blocks[block].resource == resource)
      && after == (if error.None? then db.(blocks := db.blocks - {block}) else db)
  {
  }

  // ---------- cancellations ----------

  /** One row is cancelled and audited; nothing else changes. */
  predicate CancelsOne(db: Db, after: Db, id: nat, actor: nat, reason: Reason, now: int) {
    && id in db.bookings
    && after == db.(
         bookings := db.bookings[id :=
           db.bookings[id].(status := Cancelled, cancelledBy := Some(actor), cancelReason := reason)],
         audits := db.audits + multiset{Audit(id, actor, reason, now)})
  }

  lemma CancelOneMeaning(db: Db, id: nat, actor: nat, reason: Reason, now: int)
    requires id in db.bookings
    ensures CancelsOne(db, CancelWithAudit(db, {id}, actor, reason, now), id, actor, reason, now)
  {
    assert AuditRows({id}, actor, reason, now) == multiset{Audit(id, actor, reason, now)} by {
      assert (set k | k in {id} :: Audit(k, actor, reason, now)) == {Audit(id, actor, reason, now)};
    }
    assert CancelAll(db.bookings, {id}, actor, reason)
        == db.bookings[id := db.bookings[id].(status := Cancelled, cancelledBy := Some(actor), cancelReason := reason)];
  }

  /** A user cancels a booking that is not cancelled, has not started, and is far enough ahead. */
  lemma CancelMeaning(db: Db, caller: nat, id: nat, text: string, now: int)
    ensures var (after, error) := Cancel(db, caller, id, text, now);
      && (error.None? <==>
            (id in db.bookings && !db.bookings[id].status.Cancelled? && now < db.bookings[id].start
             && db.bookings[id].resource in db.resources
             && now + db.resources[db.bookings[id].resource].minCancel <= db.bookings[id].start))
      && (error.Some? ==> after == db)
      && (error.None? ==> CancelsOne(db, after, id, caller, Given(text), now))
  {
    if id in db.bookings {
      CancelOneMeaning(db, id, caller, Given(text), now);
    }
  }

  lemma AdminCancelMeaning(db: Db, caller: nat, id: nat, text: string, now: int)
    ensures var (after, error) := AdminCancel(db, caller, id, text, now);
      && (error.None? <==> id in db.bookings && text != "")
      && (error.Some? ==> after == db)
      && (error.None? ==> CancelsOne(db, after, id, caller, Given(text), now))
  {
    if id in db.bookings {
      CancelOneMeaning(db, id, caller, Given(text), now);
    }
  }

  /** What a bulk request cancels: a listed booking that the caller may see, is not cancelled and has not started; an
      admin anybody's, another user their own. */
  predicate Hit(db: Db, caller: User, ids: seq<nat>, reachable: set<nat>, now: int, id: nat)
    requires id in db.bookings
  {
    && id in ids && id in reachable && !db.bookings[id].status.Cancelled? && now < db.bookings[id].start
    && (caller.role.SuperAdmin? || caller.role.CompanyAdmin? || db.bookings[id].user == caller.id)
  }

  /** The skipped list holds every listed id, but a target once less than it was listed. */
  lemma {:induction false} SkippedMeaning(ids: seq<nat>, targets: set<nat>, id: nat)
    ensures multiset(BulkSkipped(ids, targets))[id]
         == multiset(ids)[id] - (if id in ids && id in targets then 1 else 0)
  {
    if ids == [] {
    } else {
      var (before, last) := (ids[..|ids| - 1], ids[|ids| - 1]);
      assert ids == before + [last];
      SkippedMeaning(before, targets, id);
    }
  }

  lemma BulkMeaning(db: Db, caller: User, ids: seq<nat>, reachable: set<nat>, text: string, now: int)
    ensures var (after, answer) := BulkCancel(db, caller, ids, reachable, text, now);
      && (answer.Ok? <==> 1 <= |ids| <= 50 && 0 !in ids)
      && (answer.Err? ==> after == db)
      && (answer.Ok? ==>
            && after == db.(bookings := after.bookings, audits := after.audits)
            && after.bookings.Keys == db.bookings.Keys
            && (forall id :: id in db.bookings ==>
                  var row := db.bookings[id];
                  after.bookings[id] ==
                    if Hit(db, caller, ids, reachable, now, id)
                    then row.(status := Cancelled, cancelledBy := Some(caller.id), cancelReason := Given(text))
                    else row)
            && answer.value.cancelled == |set id | id in db.bookings && Hit(db, caller, ids, reachable, now, id)|
            && answer.value.cancelled + answer.value.skipped == |ids|
            && (forall id :: multiset(answer.value.skippedIds)[id]
                  == multiset(ids)[id]
                     - (if id in db.bookings && Hit(db, caller, ids, reachable, now, id) then 1 else 0)))
  {
    if 1 <= |ids| <= 50 && 0 !in ids {
      BulkCancelMeaning(db, caller, ids, reachable, text, now);
      var targets := BulkTargets(db.bookings, ids, reachable, caller, now);
      assert targets == set id | id in db.bookings && Hit(db, caller, ids, reachable, now, id);
      forall id: nat
        ensures multiset(BulkSkipped(ids, targets))[id]
             == multiset(ids)[id]
                - (if id in db.bookings && Hit(db, caller, ids, reachable, now, id) then 1 else 0)
      {
        SkippedMeaning(ids, targets, id);
      }
    }
  }

  // ---------- attendance and the jobs ----------

  lemma CheckInMeaning(db: Db, id: nat, now: int)
    ensures var (after, error) := CheckIn(db, id, now);
      && (error.None? <==>
            (id in db.bookings && db.bookings[id].start <= now && db.bookings[id].status.Confirmed?
             && db.bookings[id].checkedInAt.None?))
      && after == (if error.Some? then db
                   else db.(bookings := db.bookings[id := db.bookings[id].(checkedInAt := Some(now))]))
  {
  }

  lemma ScanMeaning(db: Db, id: nat, now: int)
    ensures var (after, valid) := ScanCapsule(db, id, now);
      && (valid <==>
            (id in db.bookings && db.bookings[id].status.Confirmed?
             && db.bookings[id].start <= now && now <= db.bookings[id].end
             && db.bookings[id].resource in db.resources && db.resources[db.bookings[id].resource].kind == Capsule))
      && after == (if valid && db.bookings[id].checkedInAt.None?
                   then db.(bookings := db.bookings[id := db.bookings[id].(checkedInAt := Some(now))]) else db)
  {
  }

  /** The no-show job closes the unattended meeting-room bookings that started a quarter of an hour ago or earlier and
      have not ended. */
  lemma NoShowMeaning(db: Db, now: int)
    ensures var after := MarkNoShow(db, now);
      && after == db.(bookings := after.bookings) && after.bookings.Keys == db.bookings.Keys
      && forall id :: id in db.bookings ==>
           var row := db.bookings[id];
           after.bookings[id] ==
             if row.status == Confirmed && row.checkedInAt == None && row.start + 15 <= now && now < row.end
                && row.resource in db.resources && db.resources[row.resource].kind == MeetingRoom
             then row.(status := NoShow) else row
  {
  }

  lemma CompleteMeaning(db: Db, now: int)
    ensures var after := AutoComplete(db, now);
      && after == db.(bookings := after.bookings) && after.bookings.Keys == db.bookings.Keys
      && forall id :: id in db.bookings ==>
           var row := db.bookings[id];
           after.bookings[id] == if row.status == Confirmed && row.end < now then row.(status := Completed) else row
  {
  }

  // ---------- resources and companies ----------

  lemma DeactivateMeaning(db: Db, admin: nat, resource: nat, now: int)
    ensures var (after, error) := Deactivate(db, admin, resource, now);
      && (error.None? <==> resource in db.resources)
      && (resource !in db.resources || !db.resources[resource].isActive ==> after == db)
      && (resource in db.resources && db.resources[resource].isActive ==>
            && after == db.(bookings := after.bookings,
                            resources := db.resources[resource := db.resources[resource].(isActive := false)])
            && after.bookings.Keys == db.bookings.Keys
            && forall id :: id in db.bookings ==>
                 var row := db.bookings[id];
                 after.bookings[id] ==
                   if row.resource == resource && row.status == Confirmed && now < row.end
                   then row.(status := Cancelled, cancelledBy := Some(admin), cancelReason := ResourceDeactivated)
                   else row)
  {
  }

  lemma CompanyDeactivationMeaning(db: Db, company: nat)
    ensures var after := DeactivateCompany(db, company);
      && after == db.(bookings := after.bookings) && after.bookings.Keys == db.bookings.Keys
      && forall id :: id in db.bookings ==>
           var row := db.bookings[id];
           after.bookings[id] ==
             if row.company == Some(company) && row.status == Confirmed then row.(status := Cancelled) else row
  {
  }
}
