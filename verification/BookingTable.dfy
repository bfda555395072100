/** The booking tables updated in place, one method per request or job; each does what its step specifies. */
module BookingTable {
  import opened Options
  import opened Calendar
  import opened Recurrence
  import opened BookingModel
  import opened Allocator
  import opened Materialisation
  import opened BookingSteps

  class Tables {
    var resources: map<nat, Resource>
    var bookings: Bookings
    var blocks: Blocks
    var series: map<nat, Series>
    var audits: multiset<Audit>
    var nextId: nat
    var history: History

    function State(): Db
      reads this
    {
      Db(resources, bookings, blocks, series, audits, nextId, history)
    }

    constructor (resources: map<nat, Resource>)
      ensures State() == Db(resources, map[], map[], map[], multiset{}, 0, History(map[], map[]))
    {
      this.resources, bookings, blocks, series := resources, map[], map[], map[];
      audits, nextId, history := multiset{}, 0, History(map[], map[]);
    }

    method CancelEach(ids: set<nat>, actor: nat, reason: Reason)
      requires ids <= bookings.Keys
      modifies this`bookings
      ensures bookings == CancelAll(old(bookings), ids, actor, reason)
    {
      var todo := ids;
      while todo != {}
        invariant todo <= ids
        invariant bookings == CancelAll(old(bookings), ids - todo, actor, reason)
        decreases |todo|
      {
        var id :| id in todo;
        CancelNext(old(bookings), ids, todo, id, actor, reason);
        bookings := bookings[id := Withdrawn(bookings[id], actor, reason)];
        todo := todo - {id};
      }
      assert ids - {} == ids;
    }

    method CreateBooking(user: User, id: nat, start: int, end: int, now: int) returns (answer: Result<nat>)
      modifies this
      ensures (State(), answer) == Create(old(State()), user, id, start, end, now)
    {
      var checked := CheckCreate(State(), user, id, start, end, now);
      if checked.Err? {
        return Err(checked.error);
      }
      CheckedCreate(State(), user, id, start, end, now);
      var made := nextId;
      bookings := bookings[made := NewBooking(resources[id], id, user, start, end)];
      nextId := made + 1;
      history := Record(history, made, Priority(user), checked.value);
      CancelEach(checked.value, user.id, DisplacedByPriority);
      assert State() == Place(old(State()), user, id, start, end, checked.value);
      answer := Ok(made);
    }

    method PatchBookingTimes(caller: User, id: nat, start: int, end: int, now: int) returns (error: Option<Error>)
      modifies this`bookings
      ensures (State(), error) == PatchTimes(old(State()), caller, id, start, end, now)
    {
      error := CheckPatch(State(), caller, id, start, end, now);
      if error.None? {
        bookings := bookings[id := bookings[id].(start := start, end := end)];
      }
    }

    /** Cancels one row and writes its audit row. */
    method CancelRow(id: nat, actor: nat, reason: Reason, now: int)
      requires id in bookings
      modifies this`bookings, this`audits
      ensures State() == CancelledRow(old(State()), id, actor, reason, now)
    {
      bookings := bookings[id := Withdrawn(bookings[id], actor, reason)];
      audits := audits + multiset{Audit(id, actor, reason, now)};
    }

    method CancelEachWithAudit(ids: set<nat>, actor: nat, reason: Reason, now: int)
      requires ids <= bookings.Keys
      modifies this`bookings, this`audits
      ensures State() == CancelWithAudit(old(State()), ids, actor, reason, now)
    {
      var todo := ids;
      CancelNone(State(), actor, reason, now);
      while todo != {}
        invariant todo <= ids
        invariant State() == CancelWithAudit(old(State()), ids - todo, actor, reason, now)
        decreases |todo|
      {
        var id :| id in todo;
        AuditNext(old(State()), ids, todo, id, actor, reason, now);
        CancelRow(id, actor, reason, now);
        todo := todo - {id};
      }
      assert ids - {} == ids;
    }

    method BlockResource(admin: nat, resource: nat, start: int, end: int, text: string, now: int)
      returns (answer: Result<nat>)
      modifies this
      ensures (State(), answer) == AddBlock(old(State()), admin, resource, start, end, text, now)
    {
      if resource !in resources {
        return Err(NotFound);
      }
      if start >= end {
        return Err(StartBeforeEnd);
      }
      answer := Ok(nextId);
      blocks, nextId := blocks[nextId := Block(resource, start, end)], nextId + 1;
      CancelEachWithAudit(Overlapping(bookings, resource, start, end), admin, BlockReason(text), now);
    }

    method UnblockResource(resource: nat, block: nat) returns (error: Option<Error>)
      modifies this`blocks
      ensures (State(), error) == RemoveBlock(old(State()), resource, block)
    {
      if block !in blocks || blocks[block].resource != resource {
        return Some(NotFound);
      }
      blocks := blocks - {block};
      error := None;
    }

    method CancelBooking(caller: nat, id: nat, text: string, now: int) returns (error: Option<Error>)
      modifies this`bookings, this`audits
      ensures (State(), error) == Cancel(old(State()), caller, id, text, now)
    {
      error := CheckCancel(State(), id, now);
      if error.None? {
        CancelAlone(State(), id, caller, Given(text), now);
        CancelRow(id, caller, Given(text), now);
      }
    }

    method AdminCancelBooking(caller: nat, id: nat, text: string, now: int) returns (error: Option<Error>)
      modifies this`bookings, this`audits
      ensures (State(), error) == AdminCancel(old(State()), caller, id, text, now)
    {
      if id !in bookings {
        return Some(NotFound);
      }
      if text == "" {
        return Some(ReasonRequired);
      }
      CancelAlone(State(), id, caller, Given(text), now);
      CancelRow(id, caller, Given(text), now);
      error := None;
    }

    method BulkCancelBookings(caller: User, ids: seq<nat>, reachable: set<nat>, text: string, now: int)
      returns (answer: Result<BulkAnswer>)
      modifies this`bookings, this`audits
      ensures (State(), answer) == BulkCancel(old(State()), caller, ids, reachable, text, now)
    {
      if !(1 <= |ids| <= 50) || 0 in ids {
        return Err(InvalidIds);
      }
      ghost var targets := BulkTargets(bookings, ids, reachable, caller, now);
      var cancelledIds: seq<nat>, skippedIds: seq<nat> := [], [];
      CancelNone(State(), caller.id, Given(text), now);
      for i := 0 to |ids|
        invariant State() == CancelWithAudit(old(State()), Listed(ids[..i], targets), caller.id, Given(text), now)
        invariant skippedIds == BulkSkipped(ids[..i], targets)
        invariant |cancelledIds| == |Listed(ids[..i], targets)|
      {
        var id := ids[i];
        BulkStep(old(State()), ids, i, reachable, caller, Given(text), now);
        if id !in reachable || id !in bookings
           || bookings[id].status.Cancelled?
           || bookings[id].start <= now
           || !(caller.role.SuperAdmin? || caller.role.CompanyAdmin? || bookings[id].user == caller.id)
        {
          skippedIds := skippedIds + [id];
        } else {
          CancelRow(id, caller.id, Given(text), now);
          cancelledIds := cancelledIds + [id];
        }
      }
      assert ids[..|ids|] == ids && Listed(ids, targets) == targets;
      answer := Ok(BulkAnswer(|cancelledIds|, |skippedIds|, skippedIds));
    }

    method CheckInBooking(id: nat, now: int) returns (error: Option<Error>)
      modifies this`bookings
      ensures (State(), error) == CheckIn(old(State()), id, now)
    {
      if id !in bookings {
        return Some(NotFound);
      }
      if now < bookings[id].start {
        return Some(CheckInBeforeStart);
      }
      if !bookings[id].status.Confirmed? {
        return Some(NotConfirmed);
      }
      if bookings[id].checkedInAt.Some? {
        return Some(AlreadyCheckedIn);
      }
      bookings := bookings[id := bookings[id].(checkedInAt := Some(now))];
      error := None;
    }

    method ScanCapsuleCode(id: nat, now: int) returns (valid: bool)
      modifies this`bookings
      ensures (State(), valid) == ScanCapsule(old(State()), id, now)
    {
      if !ScanAccepted(State(), id, now) {
        return false;
      }
      if bookings[id].checkedInAt.None? {
        bookings := bookings[id := bookings[id].(checkedInAt := Some(now))];
      }
      valid := true;
    }

    method MarkNoShowBookings(now: int) returns (count: nat)
      modifies this`bookings
      ensures State() == MarkNoShow(old(State()), now)
      ensures count == |NoShows(old(State()), now)|
    {
      var selected := NoShows(State(), now);
      bookings := map id | id in bookings :: if id in selected then bookings[id].(status := NoShow) else bookings[id];
      count := |selected|;
    }

    method AutoCompleteBookings(now: int) returns (count: nat)
      modifies this`bookings
      ensures State() == AutoComplete(old(State()), now)
      ensures count == |Finished(old(State()), now)|
    {
      var selected := Finished(State(), now);
      var todo := selected;
      count := 0;
      while todo != {}
        invariant todo <= selected && count == |selected| - |todo|
        invariant bookings == Completing(old(bookings), selected - todo)
        decreases |todo|
      {
        var id :| id in todo;
        CompleteOneMore(old(bookings), selected, todo, id);
        bookings := bookings[id := bookings[id].(status := Completed)];
        todo := todo - {id};
        count := count + 1;
      }
      CompletingAll(old(State()), now);
    }

    method DeactivateResource(admin: nat, resource: nat, now: int) returns (error: Option<Error>)
      modifies this`resources, this`bookings
      ensures (State(), error) == Deactivate(old(State()), admin, resource, now)
    {
      if resource !in resources {
        return Some(NotFound);
      }
      if resources[resource].isActive {
        resources := resources[resource := resources[resource].(isActive := false)];
        CancelEach(FutureBookings(bookings, resource, now), admin, ResourceDeactivated);
      }
      error := None;
    }

    /** The body of the loop below for one date; false means that several rows were found. */
    method DeactivateCompanyBookings(company: nat)
      modifies this`bookings
      ensures State() == DeactivateCompany(old(State()), company)
    {
      var selected := set id | id in bookings && OfCompany(bookings[id], company);
      bookings := map id | id in bookings ::
        if id in selected then bookings[id].(status := Cancelled) else bookings[id];
    }

    method TryOccurrence(s: Series, id: nat, date: int, now: int) returns (found: bool, skipped: seq<int>)
      modifies this`bookings, this`nextId, this`history
      ensures MaterialiseDate(old(State()), s, id, date, now) == if found then Done(State(), skipped) else Crashed
    {
      var (startTime, endTime) := (Combine(date, s.startMinute), Combine(date, s.endMinute));
      if endTime <= now {
        return true, [];
      }
      var checked := EnsureNoConflicts(bookings, blocks, s.resource, startTime, endTime, None, None, now);
      if checked.Err? {
        return true, [date];
      }
      var rows := OccurrenceRows(bookings, s, id, date);
      if |rows| > 1 {
        return false, [];
      }
      if |rows| == 0 {
        bookings := bookings[nextId := Occurrence(s, id, date)];
        history := Record(history, nextId, 1, {});
        nextId := nextId + 1;
      }
      return true, [];
    }

    /** One locked transaction: a lookup that finds several rows rolls everything back. */
    method CreateBookingsForRecurring(s: Series, id: nat, start: int, end: int, now: int)
      returns (skippedDates: Option<seq<int>>)
      modifies this`bookings, this`nextId, this`history
      ensures Materialise(old(State()), s, id, MatchingDates(s.pattern, start, end), now)
           == if skippedDates.Some? then Done(State(), skippedDates.value) else Crashed
      ensures skippedDates.None? ==> State() == old(State())
    {
      var (bookings0, nextId0, history0) := (bookings, nextId, history);
      if start > end {
        return Some([]);
      }
      var dates := ListMatchingDates(s.pattern, start, end);
      var skipped := [];
      for i := 0 to |dates|
        invariant Materialise(old(State()), s, id, dates, now)
               == After(skipped, Materialise(State(), s, id, dates[i..], now))
      {
        MaterialiseFrom(State(), s, id, dates, i, now);
        ghost var before := State();
        var found, more := TryOccurrence(s, id, dates[i], now);
        if !found {
          bookings, nextId, history := bookings0, nextId0, history0;
          return None;
        }
        AfterAfter(skipped, more, Materialise(State(), s, id, dates[i + 1..], now));
        skipped := skipped + more;
      }
      assert dates[|dates|..] == [];
      skippedDates := Some(skipped);
    }

    method CreateRecurringBooking(user: User, id: nat, p: Pattern, startMinute: int, endMinute: int, until: int,
                                  now: int)
      returns (answer: Result<seq<int>>)
      modifies this
      ensures (State(), answer) == CreateSeries(old(State()), user, id, p, startMinute, endMinute, until, now)
    {
      var error := CheckSeries(State(), user, id, p, startMinute, endMinute, until, now);
      if error.Some? {
        return Err(error.value);
      }
      var s := NewSeries(resources[id], id, user, p, startMinute, endMinute, until, LocalDate(now));
      answer := InsertSeriesRow(s, until, now);
    }

    method InsertSeriesRow(s: Series, until: int, now: int) returns (answer: Result<seq<int>>)
      modifies this
      ensures (State(), answer) == InsertSeries(old(State()), s, MatchingDates(s.pattern, s.validFrom, until), now)
    {
      var (series0, made) := (series, nextId);
      series, nextId := series[made := s], made + 1;
      var skipped := CreateBookingsForRecurring(s, made, s.validFrom, until, now);
      if skipped.None? {
        series, nextId := series0, made;
        return Err(SeveralMatchingRows);
      }
      answer := Ok(skipped.value);
    }

    /** One series of the pass below; false means that its transaction was rolled back. */
    method ExtendSeries(id: nat, now: int) returns (extended: bool)
      requires id in series && series[id].validUntil.Some?
      modifies this
      ensures State() == ExtendedOnce(old(State()), id, now).0 && extended == ExtendedOnce(old(State()), id, now).1
      ensures forall k :: k in old(series) && k != id ==> k in series && series[k] == old(series)[k]
    {
      var s := series[id];
      var nextPeriodEnd := s.validUntil.value + AdvanceDays(s.pattern);
      var skipped := CreateBookingsForRecurring(s, id, s.validUntil.value + 1, nextPeriodEnd, now);
      extended := skipped.Some?;
      if extended {
        series := series[id := s.(validUntil := Some(nextPeriodEnd))];
      }
    }

    method GenerateRecurringBookings(order: seq<nat>, now: int)
      requires IsQueue(State(), order, LocalDate(now))
      modifies this
      ensures State() == Generate(old(State()), order, now)
    {
      for i := 0 to |order|
        invariant Generate(old(State()), order, now) == Generate(State(), order[i..], now)
        invariant forall j :: i <= j < |order| ==> order[j] in series && series[order[j]].validUntil.Some?
      {
        GenerateFrom(State(), order, i, now);
        var extended := ExtendSeries(order[i], now);
        if !extended {
          return;
        }
      }
      assert order[|order|..] == [];
    }

    method EditRecurringBooking(id: nat, t: Template) returns (error: Option<Error>)
      modifies this`series
      ensures (State(), error) == EditSeries(old(State()), id, t)
    {
      if id !in series {
        return Some(NotFound);
      }
      if t.resource !in resources {
        return Some(ResourceNotFound);
      }
      if !ValidMinute(t.startMinute) || !ValidMinute(t.endMinute) {
        return Some(InvalidTime);
      }
      series := series[id := Edited(series[id], t)];
      error := None;
    }

    method DeleteRecurringBooking(id: nat, now: int) returns (error: Option<Error>)
      modifies this`series, this`bookings
      ensures (State(), error) == DeleteSeries(old(State()), id, now)
    {
      if id !in series {
        return Some(NotFound);
      }
      bookings := map k | k in bookings && !(bookings[k].series == Some(id) && bookings[k].start > now) :: bookings[k];
      bookings := map k | k in bookings ::
        if bookings[k].series == Some(id) then bookings[k].(series := None) else bookings[k];
      series := series - {id};
      assert bookings == DeleteSeries(old(State()), id, now).0.bookings;
      error := None;
    }

    method DeleteBookingRow(id: nat) returns (error: Option<Error>)
      modifies this`bookings
      ensures (State(), error) == DeleteBooking(old(State()), id)
    {
      if id !in bookings {
        return Some(NotFound);
      }
      bookings := bookings - {id};
      error := None;
    }
  }

  function CancelledRow(db: Db, id: nat, actor: nat, reason: Reason, now: int): Db
    requires id in db.bookings
  {
    db.(bookings := db.bookings[id := Withdrawn(db.bookings[id], actor, reason)],
        audits := db.audits + multiset{Audit(id, actor, reason, now)})
  }

  lemma CancelNext(bookings: Bookings, ids: set<nat>, todo: set<nat>, id: nat, actor: nat, reason: Reason)
    requires todo <= ids <= bookings.Keys && id in todo
    ensures var before := CancelAll(bookings, ids - todo, actor, reason);
      && id in before && before[id] == bookings[id]
      && CancelAll(bookings, ids - (todo - {id}), actor, reason) == before[id := Withdrawn(bookings[id], actor, reason)]
  {
    assert ids - (todo - {id}) == (ids - todo) + {id};
    CancelOneMore(bookings, ids - todo, id, actor, reason);
  }

  lemma AuditNext(db: Db, ids: set<nat>, todo: set<nat>, id: nat, actor: nat, reason: Reason, now: int)
    requires todo <= ids <= db.bookings.Keys && id in todo
    ensures var before := CancelWithAudit(db, ids - todo, actor, reason, now);
      && id in before.bookings
      && CancelWithAudit(db, ids - (todo - {id}), actor, reason, now) == CancelledRow(before, id, actor, reason, now)
  {
    assert ids - (todo - {id}) == (ids - todo) + {id};
    AuditOneMore(db, ids - todo, id, actor, reason, now);
  }

  function Completing(bookings: Bookings, ids: set<nat>): Bookings {
    map k | k in bookings :: if k in ids then bookings[k].(status := Completed) else bookings[k]
  }

  lemma CompleteOneMore(bookings: Bookings, selected: set<nat>, todo: set<nat>, id: nat)
    requires id in bookings && id in todo && todo <= selected
    ensures id in Completing(bookings, selected - todo)
    ensures Completing(bookings, selected - (todo - {id}))
         == Completing(bookings, selected - todo)[id := Completing(bookings, selected - todo)[id].(status := Completed)]
  {
    var (before, after) := (Completing(bookings, selected - todo), Completing(bookings, selected - (todo - {id})));
    assert forall k :: k != id ==> (k in selected - (todo - {id}) <==> k in selected - todo);
    assert after.Keys == before[id := before[id].(status := Completed)].Keys;
  }

  lemma CompletingAll(db: Db, now: int)
    ensures Completing(db.bookings, Finished(db, now) - {}) == AutoComplete(db, now).bookings
  {
    forall k | k in db.bookings
      ensures k in Finished(db, now) - {} <==> IsOver(db, k, now)
    {
    }
  }

  lemma AddAuditRow(ids: set<nat>, id: nat, actor: nat, reason: Reason, now: int)
    requires id !in ids
    ensures AuditRows(ids + {id}, actor, reason, now)
         == AuditRows(ids, actor, reason, now) + multiset{Audit(id, actor, reason, now)}
  {
    var (some, all) := (set k | k in ids :: Audit(k, actor, reason, now),
                        set k | k in ids + {id} :: Audit(k, actor, reason, now));
    var row := Audit(id, actor, reason, now);
    assert all == some + {row} && row !in some;
    assert multiset(some + {row}) == multiset(some) + multiset{row};
  }

  lemma CancelNone(db: Db, actor: nat, reason: Reason, now: int)
    ensures CancelWithAudit(db, {}, actor, reason, now) == db
  {
    assert CancelAll(db.bookings, {}, actor, reason) == db.bookings;
    assert AuditRows({}, actor, reason, now) == multiset{};
  }

  lemma AuditOneMore(db: Db, ids: set<nat>, id: nat, actor: nat, reason: Reason, now: int)
    requires id in db.bookings && id !in ids
    ensures CancelWithAudit(db, ids + {id}, actor, reason, now)
         == CancelledRow(CancelWithAudit(db, ids, actor, reason, now), id, actor, reason, now)
  {
    CancelOneMore(db.bookings, ids, id, actor, reason);
    AddAuditRow(ids, id, actor, reason, now);
  }

  lemma CancelAlone(db: Db, id: nat, actor: nat, reason: Reason, now: int)
    requires id in db.bookings
    ensures CancelWithAudit(db, {id}, actor, reason, now) == CancelledRow(db, id, actor, reason, now)
  {
    CancelNone(db, actor, reason, now);
    AuditOneMore(db, {}, id, actor, reason, now);
    assert {} + {id} == {id};
  }

  lemma ListOneMore(ids: seq<nat>, i: nat, targets: set<nat>)
    requires i < |ids|
    ensures var (id, more) := (ids[i], ids[..i + 1]);
            if id in targets && id !in Listed(ids[..i], targets)
            then (Listed(more, targets) == Listed(ids[..i], targets) + {id}
                  && BulkSkipped(more, targets) == BulkSkipped(ids[..i], targets))
            else (Listed(more, targets) == Listed(ids[..i], targets)
                  && BulkSkipped(more, targets) == BulkSkipped(ids[..i], targets) + [id])
  {
    var more := ids[..i + 1];
    assert more[..i] == ids[..i] && more == ids[..i] + [ids[i]];
  }

  /** One turn of the bulk loop. */
  lemma BulkStep(db: Db, ids: seq<nat>, i: nat, reachable: set<nat>, caller: User, reason: Reason, now: int)
    requires i < |ids|
    ensures var (id, targets) := (ids[i], BulkTargets(db.bookings, ids, reachable, caller, now));
      var (done, more) := (Listed(ids[..i], targets), Listed(ids[..i + 1], targets));
      var s := CancelWithAudit(db, done, caller.id, reason, now);
      if id in reachable && id in s.bookings && BulkEligible(s.bookings[id], caller, now)
      then (|more| == |done| + 1 && BulkSkipped(ids[..i + 1], targets) == BulkSkipped(ids[..i], targets)
            && CancelWithAudit(db, more, caller.id, reason, now) == CancelledRow(s, id, caller.id, reason, now))
      else more == done && BulkSkipped(ids[..i + 1], targets) == BulkSkipped(ids[..i], targets) + [id]
  {
    var (id, targets) := (ids[i], BulkTargets(db.bookings, ids, reachable, caller, now));
    var done := Listed(ids[..i], targets);
    ListOneMore(ids, i, targets);
    BulkRowDecides(db, ids, i, reachable, caller, reason, now);
    if id in targets && id !in done {
      AuditOneMore(db, done, id, caller.id, reason, now);
    }
  }

  /** An id repeated after its cancellation is not eligible any more. */
  lemma BulkRowDecides(db: Db, ids: seq<nat>, i: nat, reachable: set<nat>, caller: User, reason: Reason, now: int)
    requires i < |ids|
    ensures var (id, targets) := (ids[i], BulkTargets(db.bookings, ids, reachable, caller, now));
            var done := Listed(ids[..i], targets);
            var rows := CancelWithAudit(db, done, caller.id, reason, now).bookings;
            id in reachable && id in rows && BulkEligible(rows[id], caller, now) <==> id in targets && id !in done
  {
  }

  lemma AfterAfter(a: seq<int>, b: seq<int>, out: Outcome)
    ensures After(a, After(b, out)) == After(a + b, out)
  {
    if out.Done? {
      assert a + (b + out.skipped) == a + b + out.skipped;
    }
  }

  lemma GenerateFrom(db: Db, order: seq<nat>, i: nat, now: int)
    requires i < |order| && order[i] in db.series && db.series[order[i]].validUntil.Some?
    ensures var (after, extended) := ExtendedOnce(db, order[i], now);
            Generate(db, order[i..], now) == if extended then Generate(after, order[i + 1..], now) else after
  {
    assert order[i..][1..] == order[i + 1..];
  }
}
