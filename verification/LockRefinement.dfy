/** Transactions that meet no other request have exactly the effect of the atomic steps. */
module LockRefinement {
  import opened Options
  import opened BookingModel
  import opened Allocator
  import opened Materialisation
  import opened BookingSteps
  import opened LockProtocol

  /** The booking tables with no request under way. */
  function Quiescent(db: Db, home: map<nat, nat>): System {
    System(db.bookings, db.blocks, map[], map[], home, db.nextId)
  }

  // ---------- a change of times ----------

  /** A time change that meets no other request has exactly the effect of the atomic one. */
  lemma UncontendedPatchIsAtomic(db: Db, caller: User, id: nat, start: int, end: int, now: int, home: map<nat, nat>)
    requires PatchTimes(db, caller, id, start, end, now).1.None?
    ensures id in db.bookings
    ensures var row := db.bookings[id].(start := start, end := end);
      var actions := [Begin(0, row.resource, [PatchSlot(id, row)]), Lock(0), Check(0, now), Write(0), Commit(0)];
      Run(Quiescent(db, home), actions).committed == PatchTimes(db, caller, id, start, end, now).0.bookings
  {
    var row := db.bookings[id].(start := start, end := end);
    var slot := PatchSlot(id, row);
    var conflicts := EnsureNoConflicts(db.bookings, db.blocks, row.resource, start, end, Some(id), None, now);
    NoConflictsMeaning(db.bookings, db.blocks, row.resource, start, end, Some(id), None, now);
    assert conflicts.Ok? && conflicts.value == {};
    PatchRun(Quiescent(db, home), id, slot, now);
  }

  lemma PatchRun(s: System, id: nat, slot: Slot, now: int)
    requires s.txns == map[] && slot == PatchSlot(id, slot.row) && slot.row.start < slot.row.end
    requires id in s.committed && s.committed[id].resource == slot.row.resource
    requires EnsureNoConflicts(s.committed, s.blocks, slot.row.resource, slot.row.start, slot.row.end,
                               Some(id), None, now) == Ok({})
    ensures Run(s, [Begin(0, slot.row.resource, [slot]), Lock(0), Check(0, now), Write(0), Commit(0)]).committed
         == s.committed[id := slot.row]
  {
    var resource := slot.row.resource;
    var locked := With(s, 0, Txn(resource, true, [slot], None, map[]));
    var checked := With(s, 0, Txn(resource, true, [slot], Some({}), map[]));
    BeginAndLock(s, resource, [slot]);
    PatchVerdict(locked, id, slot, now);
    CheckedAgain(s, slot);
    PatchWrite(checked, id, slot);
    FiveStepsBy(s, locked, checked, Next(Next(checked, Write(0)), Commit(0)),
                Begin(0, resource, [slot]), Lock(0), Check(0, now), Write(0), Commit(0));
  }

  lemma CheckedAgain(s: System, slot: Slot)
    ensures var x := Txn(slot.row.resource, true, [slot], Some({}), map[]);
      With(With(s, 0, x.(verdict := None)), 0, x) == With(s, 0, x)
  {
    assert s.txns[0 := Txn(slot.row.resource, true, [slot], None, map[])]
              [0 := Txn(slot.row.resource, true, [slot], Some({}), map[])]
        == s.txns[0 := Txn(slot.row.resource, true, [slot], Some({}), map[])];
  }

  lemma PatchVerdict(s: System, id: nat, slot: Slot, now: int)
    requires 0 in s.txns && s.txns[0] == Txn(slot.row.resource, true, [slot], None, map[])
    requires slot == PatchSlot(id, slot.row)
    requires EnsureNoConflicts(s.committed, s.blocks, slot.row.resource, slot.row.start, slot.row.end,
                               Some(id), None, now) == Ok({})
    ensures Next(s, Check(0, now)) == With(s, 0, Txn(slot.row.resource, true, [slot], Some({}), map[]))
  {
    assert s.committed + map[] == s.committed;
  }

  lemma PatchWrite(s: System, id: nat, slot: Slot)
    requires 0 in s.txns && s.txns[0] == Txn(slot.row.resource, true, [slot], Some({}), map[])
    requires slot == PatchSlot(id, slot.row)
    ensures Next(Next(s, Write(0)), Commit(0)).committed == s.committed[id := slot.row]
  {
    assert s.committed + map[] == s.committed;
    assert Written(s.committed, map[], id, slot.row, {}) == map[id := slot.row];
    assert s.committed + map[id := slot.row] == s.committed[id := slot.row];
  }

  // ---------- a recurring run ----------

  /** The slots of the dates that have not ended. */
  function Slots(s: Series, id: nat, dates: seq<int>, now: int): seq<Slot> {
    if dates == [] then []
    else (if EndOn(s, dates[0]) <= now then [] else [RecurringSlot(Occurrence(s, id, dates[0]))])
         + Slots(s, id, dates[1..], now)
  }

  /** A check and a write for every slot. */
  function CheckAndWrite(n: nat, now: int): seq<Action> {
    if n == 0 then [] else [Check(0, now), Write(0)] + CheckAndWrite(n - 1, now)
  }

  /** The transaction of the run is under way and sees what the atomic run has made so far. */
  ghost predicate Tracks(sys: System, s: Series, slots: seq<Slot>, db: Db) {
    && 0 in sys.txns && sys.txns[0].locked && sys.txns[0].verdict.None? && sys.txns[0].resource == s.resource
    && sys.txns[0].todo == slots && Visible(sys, 0) == db.bookings
    && sys.blocks == db.blocks && sys.nextId == db.nextId
  }

  lemma {:induction false} SlotsOnResource(s: Series, id: nat, dates: seq<int>, now: int)
    requires s.startMinute < s.endMinute
    ensures forall i :: 0 <= i < |Slots(s, id, dates, now)| ==>
              var slot := Slots(s, id, dates, now)[i];
              slot.row.resource == s.resource && slot.row.start < slot.row.end && slot.target.None?
  {
    if dates == [] {
    } else {
      SlotsOnResource(s, id, dates[1..], now);
    }
  }

  lemma RunTogether(sys: System, a: Action, b: Action, rest: seq<Action>)
    ensures Run(sys, [a, b] + rest) == Run(Next(Next(sys, a), b), rest)
  {
    assert ([a, b] + rest)[1..] == [b] + rest && ([b] + rest)[1..] == rest;
    assert Run(sys, [a, b] + rest) == Run(Next(sys, a), [b] + rest);
  }

  lemma {:induction false} RunSplit(sys: System, a: seq<Action>, b: seq<Action>)
    ensures Run(sys, a + b) == Run(Run(sys, a), b)
    decreases |a|
  {
    if a == [] {
      assert a + b == b;
    } else {
      assert (a + b)[1..] == a[1..] + b;
      RunSplit(Next(sys, a[0]), a[1..], b);
    }
  }

  lemma SlotChecked(sys: System, s: Series, id: nat, date: int, rest: seq<Slot>, db: Db, now: int)
    requires Tracks(sys, s, [RecurringSlot(Occurrence(s, id, date))] + rest, db)
    ensures var (x, verdict) := (sys.txns[0], CheckOccurrence(db, s, date, now));
      && (verdict.Ok? ==> verdict.value == {})
      && Next(sys, Check(0, now)) == With(sys, 0, if verdict.Ok? then x.(verdict := Some({})) else x.(todo := rest))
  {
    var (x, row) := (sys.txns[0], Occurrence(s, id, date));
    assert x.todo[0] == RecurringSlot(row) && x.todo[1..] == rest;
    NoConflictsMeaning(db.bookings, db.blocks, s.resource, row.start, row.end, None, None, now);
  }

  lemma SlotWritten(sys: System, s: Series, id: nat, date: int, rest: seq<Slot>, db: Db)
    requires 0 in sys.txns && sys.txns[0].locked && sys.txns[0].verdict == Some({})
             && sys.txns[0].resource == s.resource
    requires sys.txns[0].todo == [RecurringSlot(Occurrence(s, id, date))] + rest
    requires Visible(sys, 0) == db.bookings && sys.blocks == db.blocks && sys.nextId == db.nextId
    ensures var found := OccurrenceRows(db.bookings, s, id, date) != {};
      Tracks(Next(sys, Write(0)), s, rest, if found then db else InsertOccurrence(db, s, id, date))
  {
    var (x, row) := (sys.txns[0], Occurrence(s, id, date));
    assert x.todo[0] == RecurringSlot(row) && x.todo[1..] == rest;
    SameRowIsOccurrence(db.bookings, s, id, date);
    InsertedView(sys.committed, x.pending, sys.nextId, row);
  }

  lemma SameRowIsOccurrence(bookings: Bookings, s: Series, id: nat, date: int)
    ensures SameRow(bookings, Occurrence(s, id, date)) == OccurrenceRows(bookings, s, id, date)
  {
  }

  lemma InsertedView(committed: Bookings, pending: Bookings, id: nat, row: Booking)
    ensures Written(committed + pending, pending, id, row, {}) == pending[id := row]
    ensures committed + pending[id := row] == (committed + pending)[id := row]
  {
  }

  /** One slot: checked and then skipped, found again or inserted, as one date of the atomic run. */
  lemma OneSlot(sys: System, s: Series, id: nat, date: int, rest: seq<Slot>, db: Db, now: int)
    requires EndOn(s, date) > now && MaterialiseDate(db, s, id, date, now).Done?
    requires Tracks(sys, s, [RecurringSlot(Occurrence(s, id, date))] + rest, db)
    ensures Tracks(Next(Next(sys, Check(0, now)), Write(0)), s, rest, MaterialiseDate(db, s, id, date, now).db)
  {
    SlotChecked(sys, s, id, date, rest, db, now);
    if CheckOccurrence(db, s, date, now).Ok? {
      SlotWritten(Next(sys, Check(0, now)), s, id, date, rest, db);
    }
  }

  lemma {:induction false} AllSlots(sys: System, s: Series, id: nat, dates: seq<int>, db: Db, now: int)
    requires Materialise(db, s, id, dates, now).Done?
    requires Tracks(sys, s, Slots(s, id, dates, now), db)
    ensures var steps := CheckAndWrite(|Slots(s, id, dates, now)|, now);
      Tracks(Run(sys, steps), s, [], Materialise(db, s, id, dates, now).db)
    decreases |dates|
  {
    if dates == [] {
    } else {
      var (slots, later) := (Slots(s, id, dates, now), Slots(s, id, dates[1..], now));
      var first := MaterialiseDate(db, s, id, dates[0], now);
      if EndOn(s, dates[0]) <= now {
        assert slots == later;
        AllSlots(sys, s, id, dates[1..], db, now);
      } else {
        OneSlot(sys, s, id, dates[0], later, db, now);
        var next := Next(Next(sys, Check(0, now)), Write(0));
        AllSlots(next, s, id, dates[1..], first.db, now);
        RunTogether(sys, Check(0, now), Write(0), CheckAndWrite(|later|, now));
      }
    }
  }

  lemma BeginAndLock(sys: System, resource: nat, slots: seq<Slot>)
    requires sys.txns == map[] && forall i :: 0 <= i < |slots| ==> Admissible(sys, resource, slots[i])
    ensures Next(Next(sys, Begin(0, resource, slots)), Lock(0)) == With(sys, 0, Txn(resource, true, slots, None, map[]))
  {
    assert Next(sys, Begin(0, resource, slots)) == With(sys, 0, Txn(resource, false, slots, None, map[]));
  }

  /** A recurring run that meets no other request has exactly the effect of the atomic run. */
  lemma UncontendedRecurringRunIsAtomic(db: Db, s: Series, id: nat, dates: seq<int>, now: int, home: map<nat, nat>)
    requires Materialise(db, s, id, dates, now).Done? && s.startMinute < s.endMinute
    ensures var slots := Slots(s, id, dates, now);
      var actions := [Begin(0, s.resource, slots), Lock(0)] + (CheckAndWrite(|slots|, now) + [Commit(0)]);
      var (after, out) := (Run(Quiescent(db, home), actions), Materialise(db, s, id, dates, now).db);
      after.committed == out.bookings && after.nextId == out.nextId && after.txns == map[]
  {
    var slots := Slots(s, id, dates, now);
    var sys := Quiescent(db, home);
    var locked := With(sys, 0, Txn(s.resource, true, slots, None, map[]));
    SlotsOnResource(s, id, dates, now);
    BeginAndLock(sys, s.resource, slots);
    assert db.bookings + map[] == db.bookings;
    AllSlots(locked, s, id, dates, db, now);
    RunTogether(sys, Begin(0, s.resource, slots), Lock(0), CheckAndWrite(|slots|, now) + [Commit(0)]);
    RunSplit(locked, CheckAndWrite(|slots|, now), [Commit(0)]);
    var ready := Run(locked, CheckAndWrite(|slots|, now));
    assert Run(ready, [Commit(0)]) == Run(Next(ready, Commit(0)), []);
    ChecksAndWrites(|slots|, now);
    OnlyOwnTxn(locked, CheckAndWrite(|slots|, now));
  }

  lemma {:induction false} OnlyOwnTxn(sys: System, actions: seq<Action>)
    requires sys.txns.Keys <= {0}
    requires forall i :: 0 <= i < |actions| ==> (actions[i].Check? && actions[i].t == 0) || actions[i] == Write(0)
    ensures Run(sys, actions).txns.Keys <= {0}
    decreases |actions|
  {
    if actions == [] {
    } else {
      OnlyOwnTxn(Next(sys, actions[0]), actions[1..]);
    }
  }

  lemma {:induction false} ChecksAndWrites(n: nat, now: int)
    ensures forall i :: 0 <= i < |CheckAndWrite(n, now)| ==>
              CheckAndWrite(n, now)[i] == Check(0, now) || CheckAndWrite(n, now)[i] == Write(0)
  {
    if n == 0 {
    } else {
      ChecksAndWrites(n - 1, now);
    }
  }

  // ---------- a block ----------

  /** A block whose selection and publication meet no other request has exactly the effect of the atomic one, by an
      unnamed admin without a reason of their own. */
  lemma UncontendedBlockIsAtomic(db: Db, b: nat, resource: nat, start: int, end: int, now: int, home: map<nat, nat>)
    requires AddBlock(db, 0, resource, start, end, "", now).1.Ok?
    ensures var (after, out) := (Run(Quiescent(db, home), [Select(b, resource, start, end), Publish(b)]),
                                 AddBlock(db, 0, resource, start, end, "", now).0);
      after == Quiescent(out, home)
  {
    var sys := Quiescent(db, home);
    var selected := Next(sys, Select(b, resource, start, end));
    RunTogether(sys, Select(b, resource, start, end), Publish(b), []);
    assert [Select(b, resource, start, end), Publish(b)] + [] == [Select(b, resource, start, end), Publish(b)];
    var hits := Overlapping(db.bookings, resource, start, end);
    assert selected.blocking == map[b := BlockRequest(resource, start, end, hits)];
    assert selected.blocking - {b} == map[];
  }
}
