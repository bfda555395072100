/** Over whole runs: who may displace a booking is decided by who made it, and the top tier is never displaced. */
module BookingTiers {
  import opened Options
  import opened Calendar
  import opened Recurrence
  import opened BookingModel
  import opened Allocator
  import opened Materialisation
  import opened BookingSteps
  import opened BookingRuns
  import opened BookingMeaning

  /** The booking keeps the priority it was made with, and is displaced only if that is below the top. */
  ghost predicate Respects(before: Db, after: Db, made: nat) {
    && before.nextId <= after.nextId
    && (made in after.bookings ==>
          && made in before.bookings && after.bookings[made].priority == before.bookings[made].priority
          && (after.bookings[made].cancelReason.DisplacedByPriority? ==>
                before.bookings[made].cancelReason.DisplacedByPriority? || before.bookings[made].priority < 3))
    && (made in after.history.displacedBy ==>
          made in before.history.displacedBy || (made in before.bookings && before.bookings[made].priority < 3))
  }

  ghost predicate RankedAt(db: Db, made: nat, priority: nat) {
    made < db.nextId && (made in db.bookings ==> db.bookings[made].priority == priority)
  }

  ghost predicate Undisplaced(db: Db, made: nat) {
    && made !in db.history.displacedBy
    && (made in db.bookings ==> !db.bookings[made].cancelReason.DisplacedByPriority?)
  }

  // ---------- every step ----------

  lemma CreateRespects(db: Db, user: User, id: nat, start: int, end: int, now: int, made: nat)
    requires made < db.nextId && Fresh(db)
    ensures Respects(db, Create(db, user, id, start, end, now).0, made)
  {
    var checked := CheckCreate(db, user, id, start, end, now);
    if checked.Ok? {
      CheckedCreate(db, user, id, start, end, now);
      NoConflictsMeaning(db.bookings, db.blocks, id, start, end, None, Some(user), now);
      assert made in checked.value ==> db.bookings[made].priority < Priority(user) <= 3;
    }
  }

  lemma CancellingRespects(db: Db, after: Db, ids: set<nat>, actor: nat, reason: Reason, made: nat)
    requires !reason.DisplacedByPriority? && db.nextId <= after.nextId && after.history == db.history
    requires after.bookings == CancelAll(db.bookings, ids, actor, reason)
    ensures Respects(db, after, made)
  {
  }

  lemma BlockRespects(db: Db, admin: nat, resource: nat, start: int, end: int, text: string, now: int, made: nat)
    ensures Respects(db, AddBlock(db, admin, resource, start, end, text, now).0, made)
  {
    var (after, answer) := AddBlock(db, admin, resource, start, end, text, now);
    if answer.Ok? {
      var hits := Overlapping(db.bookings, resource, start, end);
      CancellingRespects(db, after, hits, admin, BlockReason(text), made);
    }
  }

  lemma RunRespects(db: Db, s: Series, id: nat, dates: seq<int>, now: int, made: nat)
    requires made < db.nextId && Fresh(db)
    ensures var out := Materialise(db, s, id, dates, now);
      out.Done? ==> Respects(db, out.db, made) && Fresh(out.db)
  {
    MaterialiseGrows(db, s, id, dates, now);
    RunDisplacesNothing(db, s, id, dates, now);
  }

  lemma {:induction false} RunDisplacesNothing(db: Db, s: Series, id: nat, dates: seq<int>, now: int)
    ensures var out := Materialise(db, s, id, dates, now);
      out.Done? ==> out.db.history.displacedBy == db.history.displacedBy
    decreases |dates|
  {
    if dates == [] {
    } else {
      var first := MaterialiseDate(db, s, id, dates[0], now);
      if first.Done? {
        assert first.db.history.displacedBy == db.history.displacedBy;
        RunDisplacesNothing(first.db, s, id, dates[1..], now);
      }
    }
  }

  lemma CreateSeriesRespects(db: Db, e: Event, now: int, made: nat)
    requires made < db.nextId && Fresh(db) && e.CreateSeriesEvent?
    ensures Respects(db, Next(db, e, now), made)
  {
    NextOfCreateSeries(db, e, now);
    if CheckSeries(db, e.user, e.resource, e.pattern, e.startMinute, e.endMinute, e.until, now).None? {
      var s := NewSeries(db.resources[e.resource], e.resource, e.user, e.pattern, e.startMinute, e.endMinute, e.until,
                         LocalDate(now));
      InsertRespects(db, s, MatchingDates(s.pattern, s.validFrom, e.until), now, made);
    }
  }

  lemma InsertRespects(db: Db, s: Series, dates: seq<int>, now: int, made: nat)
    requires made < db.nextId && Fresh(db)
    ensures Respects(db, InsertSeries(db, s, dates, now).0, made)
  {
    var inserted := db.(series := db.series[db.nextId := s], nextId := db.nextId + 1);
    RunRespects(inserted, s, db.nextId, dates, now, made);
    InsertSeriesEnds(db, s, dates, now);
  }

  lemma ExtendingRespects(db: Db, id: nat, now: int, made: nat)
    requires made < db.nextId && Fresh(db) && id in db.series && db.series[id].validUntil.Some?
    ensures var after := ExtendedOnce(db, id, now).0; Respects(db, after, made) && Fresh(after)
  {
    var s := db.series[id];
    var (from, until) := (s.validUntil.value + 1, s.validUntil.value + AdvanceDays(s.pattern));
    RunRespects(db, s, id, MatchingDates(s.pattern, from, until), now, made);
  }

  lemma {:induction false} PassRespects(db: Db, order: seq<nat>, now: int, made: nat)
    requires made < db.nextId && Fresh(db)
    ensures Respects(db, Generate(db, order, now), made)
    decreases |order|
  {
    if order == [] || order[0] !in db.series || db.series[order[0]].validUntil.None? {
      GenerateStops(db, order, now);
    } else {
      var (after, extended) := ExtendedOnce(db, order[0], now);
      GenerateUnfolds(db, order, now);
      ExtendingRespects(db, order[0], now, made);
      if extended {
        PassRespects(after, order[1..], now, made);
      }
    }
  }

  lemma CancelStepRespects(db: Db, e: Event, now: int, made: nat)
    requires e.CancelEvent? || e.AdminCancelEvent? || e.BulkCancelEvent? || e.DeactivateEvent?
    ensures Respects(db, Next(db, e, now), made)
  {
  }

  lemma OtherStepRespects(db: Db, e: Event, now: int, made: nat)
    requires OnlyClosing(e)
    requires !(e.CancelEvent? || e.AdminCancelEvent? || e.BulkCancelEvent? || e.DeactivateEvent?)
    ensures Respects(db, Next(db, e, now), made)
  {
  }

  lemma StepRespects(db: Db, e: Event, now: int, made: nat)
    requires made < db.nextId && Fresh(db)
    ensures Respects(db, Next(db, e, now), made)
  {
    match e
    case CreateEvent(user, resource, start, end) => {
      NextOfCreate(db, e, now);
      CreateRespects(db, user, resource, start, end, now, made);
    }
    case PatchEvent(_, _, _, _) => NextOfPatch(db, e, now);
    case BlockEvent(admin, resource, start, end, text) => {
      NextOfBlock(db, e, now);
      BlockRespects(db, admin, resource, start, end, text, now, made);
    }
    case CreateSeriesEvent(_, _, _, _, _, _) => CreateSeriesRespects(db, e, now, made);
    case GenerateEvent(order) => {
      NextOfGenerate(db, e, now);
      PassRespects(db, order, now, made);
    }
    case EditSeriesEvent(_, _) => NextOfEdit(db, e, now);
    case CancelEvent(_, _, _) => CancelStepRespects(db, e, now, made);
    case AdminCancelEvent(_, _, _) => CancelStepRespects(db, e, now, made);
    case BulkCancelEvent(_, _, _, _) => CancelStepRespects(db, e, now, made);
    case DeactivateEvent(_, _) => CancelStepRespects(db, e, now, made);
    case _ => OtherStepRespects(db, e, now, made);
  }

  // ---------- every run ----------

  lemma {:induction false} RankStays(db: Db, trace: seq<(Event, int)>, made: nat, priority: nat)
    requires Sound(db) && RankedAt(db, made, priority)
    ensures RankedAt(Run(db, trace), made, priority)
    ensures priority == 3 && Undisplaced(db, made) ==> Undisplaced(Run(db, trace), made)
    decreases |trace|
  {
    if trace == [] {
    } else {
      var next := Next(db, trace[0].0, trace[0].1);
      StepKeepsSound(db, trace[0].0, trace[0].1);
      StepRespects(db, trace[0].0, trace[0].1, made);
      RankStays(next, trace[1..], made, priority);
      RunUnfolds(db, trace);
    }
  }

  /** The tables after a create request that comes at some point of a run, and the rest of that run. */
  ghost function AfterCreate(resources: map<nat, Resource>, before: seq<(Event, int)>, holder: User, id: nat,
                             start: int, end: int, now: int, rest: seq<(Event, int)>): Db {
    Run(Create(Run(EmptyTables(resources), before), holder, id, start, end, now).0, rest)
  }

  lemma MadeIsRanked(resources: map<nat, Resource>, before: seq<(Event, int)>, holder: User, id: nat, start: int,
                     end: int, now: int, rest: seq<(Event, int)>)
    requires Create(Run(EmptyTables(resources), before), holder, id, start, end, now).1.Ok?
    ensures var made := Create(Run(EmptyTables(resources), before), holder, id, start, end, now).1.value;
      var last := AfterCreate(resources, before, holder, id, start, end, now, rest);
      && RankedAt(last, made, if Top(holder) then 3 else if Middle(holder) then 2 else 1)
      && (Top(holder) ==> Undisplaced(last, made))
  {
    var db := Run(EmptyTables(resources), before);
    var (booked, answer) := Create(db, holder, id, start, end, now);
    EveryReachableStateIsSound(resources, before);
    CreateKeepsSound(db, holder, id, start, end, now);
    CreatedRow(db, holder, id, start, end, now);
    CreatedIsUndisplaced(db, holder, id, start, end, now);
    RankStays(booked, rest, answer.value, if Top(holder) then 3 else if Middle(holder) then 2 else 1);
  }

  lemma CreatedIsUndisplaced(db: Db, holder: User, id: nat, start: int, end: int, now: int)
    requires Sound(db) && Create(db, holder, id, start, end, now).1.Ok?
    ensures var (booked, answer) := Create(db, holder, id, start, end, now);
      answer.value == db.nextId < booked.nextId && Undisplaced(booked, answer.value)
  {
    CheckedCreate(db, holder, id, start, end, now);
    assert db.nextId !in db.bookings;
    assert db.nextId !in db.history.displacedBy;
  }

  /** Over every run, from empty tables, the booking of a superadmin or of a user of a premium company is never
      displaced: no state after it says so, in the row or in the history. */
  lemma TopIsNeverDisplaced(resources: map<nat, Resource>, before: seq<(Event, int)>, holder: User, id: nat, start: int,
                            end: int, now: int, rest: seq<(Event, int)>)
    requires holder.role.SuperAdmin? || (holder.company.Some? && holder.plan.Premium?)
    requires Create(Run(EmptyTables(resources), before), holder, id, start, end, now).1.Ok?
    ensures var made := Create(Run(EmptyTables(resources), before), holder, id, start, end, now).1.value;
      var last := AfterCreate(resources, before, holder, id, start, end, now, rest);
      && made !in last.history.displacedBy
      && (made in last.bookings ==> last.bookings[made].cancelReason != DisplacedByPriority)
  {
    MadeIsRanked(resources, before, holder, id, start, end, now, rest);
  }

  /** In every state after a booking was made, a request over it and over nothing else, far enough ahead, passes the
      conflict check exactly when the requester is a superadmin or of a premium company and the holder is neither, or
      the requester is of a standard company and the holder is no superadmin and of no standard or premium company. */
  lemma DisplacementInEveryState(resources: map<nat, Resource>, before: seq<(Event, int)>, holder: User, id: nat,
                                 start: int, end: int, now: int, rest: seq<(Event, int)>,
                                 user: User, resource: nat, from: int, to: int, later: int)
    requires Create(Run(EmptyTables(resources), before), holder, id, start, end, now).1.Ok?
    requires var made := Create(Run(EmptyTables(resources), before), holder, id, start, end, now).1.value;
      var last := AfterCreate(resources, before, holder, id, start, end, now, rest);
      && made in last.bookings && Crosses(last.bookings[made], resource, from, to)
      && last.bookings[made].start > later + 120
      && (forall k :: k in last.bookings && k != made ==> !Crosses(last.bookings[k], resource, from, to))
      && (forall b :: b in last.blocks ==> !Bars(last.blocks[b], resource, from, to))
    ensures var last := AfterCreate(resources, before, holder, id, start, end, now, rest);
      EnsureNoConflicts(last.bookings, last.blocks, resource, from, to, None, Some(user), later).Ok?
      <==> (((user.role.SuperAdmin? || (user.company.Some? && user.plan.Premium?))
             && !(holder.role.SuperAdmin? || (holder.company.Some? && holder.plan.Premium?)))
            || (!user.role.SuperAdmin? && user.company.Some? && user.plan.Standard?
                && !holder.role.SuperAdmin?
                && !(holder.company.Some? && (holder.plan.Standard? || holder.plan.Premium?))))
  {
    var made := Create(Run(EmptyTables(resources), before), holder, id, start, end, now).1.value;
    var last := AfterCreate(resources, before, holder, id, start, end, now, rest);
    MadeIsRanked(resources, before, holder, id, start, end, now, rest);
    ConflictCheckMeaning(last.bookings, last.blocks, resource, from, to, None, Some(user), later);
    assert GivesWay(last.bookings[made], user, later)
      <==> last.bookings[made].priority < (if Top(user) then 3 else if Middle(user) then 2 else 1);
  }
}
