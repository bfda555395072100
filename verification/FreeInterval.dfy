/** The catalogue's free-interval filter and busy slots (apps/bookings/filters.py, apps/bookings/schedule.py)
    against the checks that a booking has to pass. */
module FreeInterval {
  import opened Options
  import opened Calendar
  import opened BookingModel
  import opened Allocator
  import opened BookingMeaning
  import opened Sorting

  function RequestedDays(from: int, to: int): set<int> {
    set d | LocalDate(from) <= d <= LocalDate(to) :: Weekday(d)
  }

  method CollectRequestedDays(from: int, to: int) returns (days: set<int>)
    ensures days == RequestedDays(from, to)
  {
    days := {};
    var current, endDate := LocalDate(from), LocalDate(to);
    while current <= endDate
      invariant current >= LocalDate(from) && (current <= endDate + 1 || current == LocalDate(from))
      invariant days == set d | LocalDate(from) <= d < current && d <= endDate :: Weekday(d)
    {
      days := days + {Weekday(current)};
      current := current + 1;
    }
  }

  predicate DaysOpen(resource: Resource, days: set<int>) {
    resource.availableDays == {} || days <= resource.availableDays
  }

  predicate HoursOpen(resource: Resource, from: int, to: int) {
    resource.availableFrom <= LocalMinute(from) && LocalMinute(to) <= resource.availableUntil
  }

  predicate NoOverlap(db: Db, id: nat, from: int, to: int) {
    Overlapping(db.bookings, id, from, to) == {} && !Blocked(db.blocks, id, from, to)
  }

  method FilterFreeInterval(db: Db, candidates: set<nat>, interval: Option<(int, int)>) returns (kept: set<nat>)
    requires candidates <= db.resources.Keys
    ensures interval.None? ==> kept == candidates
    ensures interval.Some? ==> kept == set id | id in candidates && Keeps(db, id, interval.value.0, interval.value.1)
  {
    if interval.None? {
      return candidates;
    }
    var (from, to) := interval.value;
    if from >= to {
      return {};
    }
    kept := set id | id in candidates && NoOverlap(db, id, from, to);
    var requestedDays := CollectRequestedDays(from, to);
    kept := set id | id in kept && DaysOpen(db.resources[id], requestedDays);
    if LocalDate(from) == LocalDate(to) {
      kept := set id | id in kept && HoursOpen(db.resources[id], from, to);
    }
  }

  /** The filter keeps the resource for [from, to). */
  predicate Keeps(db: Db, id: nat, from: int, to: int)
    requires id in db.resources
  {
    && from < to
    && NoOverlap(db, id, from, to)
    && DaysOpen(db.resources[id], RequestedDays(from, to))
    && (LocalDate(from) == LocalDate(to) ==> HoursOpen(db.resources[id], from, to))
  }

  /** The closed interval touches the local day. */
  predicate Touches(date: int, from: int, to: int) {
    Combine(date, 0) <= to && from < Combine(date + 1, 0)
  }

  lemma TouchingMeaning(date: int, from: int, to: int)
    ensures Touches(date, from, to) <==> LocalDate(from) <= date <= LocalDate(to)
  {
  }

  lemma DaysOpenMeaning(resource: Resource, from: int, to: int)
    ensures DaysOpen(resource, RequestedDays(from, to)) <==> forall d :: Touches(d, from, to) ==> OpenOn(resource, d)
  {
    if DaysOpen(resource, RequestedDays(from, to)) {
      forall d | Touches(d, from, to)
        ensures OpenOn(resource, d)
      {
        TouchingMeaning(d, from, to);
        assert Weekday(d) in RequestedDays(from, to);
      }
    }
    if forall d :: Touches(d, from, to) ==> OpenOn(resource, d) {
      forall w | w in RequestedDays(from, to)
        ensures resource.availableDays == {} || w in resource.availableDays
      {
        var d :| LocalDate(from) <= d <= LocalDate(to) && w == Weekday(d);
        TouchingMeaning(d, from, to);
        assert Touches(d, from, to);
      }
    }
  }

  lemma HoursOpenMeaning(resource: Resource, from: int, to: int)
    ensures (LocalDate(from) == LocalDate(to) ==> HoursOpen(resource, from, to)) <==>
      forall d, m, n :: 0 <= m < 1440 && 0 <= n < 1440 && from == Combine(d, m) && to == Combine(d, n)
                    ==> resource.availableFrom <= m && n <= resource.availableUntil
  {
    var (d, m, n) := (LocalDate(from), LocalMinute(from), LocalMinute(to));
    LocalParts(from, d, m);
    LocalParts(to, LocalDate(to), n);
    forall e, p, q | 0 <= p < 1440 && 0 <= q < 1440 && from == Combine(e, p) && to == Combine(e, q)
      ensures e == d == LocalDate(to) && p == m && q == n
    {
      LocalParts(from, e, p);
      LocalParts(to, e, q);
    }
  }

  /** What the filter keeps: a resource with no confirmed booking and no block across the interval, open on the weekday
      of every day that the interval touches and, if it stays within one day, with both ends in the opening hours. */
  lemma KeepsMeaning(db: Db, id: nat, from: int, to: int)
    requires id in db.resources
    ensures Keeps(db, id, from, to) <==>
      (from < to
       && (forall k :: k in db.bookings ==> !Crosses(db.bookings[k], id, from, to))
       && (forall b :: b in db.blocks ==> !Bars(db.blocks[b], id, from, to))
       && (forall d :: Touches(d, from, to) ==> OpenOn(db.resources[id], d))
       && (forall d, m, n :: 0 <= m < 1440 && 0 <= n < 1440 && from == Combine(d, m) && to == Combine(d, n)
             ==> db.resources[id].availableFrom <= m && n <= db.resources[id].availableUntil))
  {
    FreeMeaning(db, id, from, to);
    DaysOpenMeaning(db.resources[id], from, to);
    HoursOpenMeaning(db.resources[id], from, to);
  }

  lemma FreeMeaning(db: Db, id: nat, from: int, to: int)
    ensures NoOverlap(db, id, from, to) <==>
      ((forall k :: k in db.bookings ==> !Crosses(db.bookings[k], id, from, to))
       && (forall b :: b in db.blocks ==> !Bars(db.blocks[b], id, from, to)))
  {
    CrossingMeaning(db.bookings, id, from, to);
    BarringMeaning(db.blocks, id, from, to);
    var crossing := Overlapping(db.bookings, id, from, to);
    if crossing != {} {
      var k :| k in crossing;
      assert Crosses(db.bookings[k], id, from, to);
    }
  }

  /** The conflict check without a user and the window check both accept [from, to). */
  predicate Accepts(db: Db, id: nat, from: int, to: int, now: int)
    requires id in db.resources
  {
    && EnsureNoConflicts(db.bookings, db.blocks, id, from, to, None, None, now).Ok?
    && CheckWindow(db.resources[id], from, to).None?
  }

  /** The filter against the booking checks, for every resource and every non-empty interval: they agree
      inside one local day; over several days the filter keeps what no booking may have, and it hides a
      whole-day parking space unless every weekday it spans is open. */
  lemma FilterVersusBooking(db: Db, id: nat, from: int, to: int, now: int)
    requires id in db.resources && from < to
    ensures !ParkingWholeDay(db.resources[id], from, to)
        ==> (Accepts(db, id, from, to, now) <==> Keeps(db, id, from, to) && LocalDate(from) == LocalDate(to))
    ensures ParkingWholeDay(db.resources[id], from, to)
        ==> (Keeps(db, id, from, to)
             <==> Accepts(db, id, from, to, now) && DaysOpen(db.resources[id], RequestedDays(from, to)))
  {
    NoConflictsMeaning(db.bookings, db.blocks, id, from, to, None, None, now);
    assert Weekday(LocalDate(from)) in RequestedDays(from, to);
    assert Overlapping(db.bookings, id, from, to) == {}
       <==> forall k :: k in Overlapping(db.bookings, id, from, to) ==> false;
    if LocalDate(from) == LocalDate(to) {
      assert RequestedDays(from, to) == {Weekday(LocalDate(from))};
    }
  }

  /** A free parking space that opens on the first of two spanned days only: bookable, yet hidden. */
  lemma WholeDayParkingMayBeHidden(db: Db, id: nat, date: int, now: int)
    requires id in db.resources && db.resources[id].kind.Parking?
    requires db.resources[id].availableDays == {Weekday(date)}
    requires NoOverlap(db, id, Combine(date, 0), Combine(date + 1, 0))
    ensures Accepts(db, id, Combine(date, 0), Combine(date + 1, 0), now)
    ensures !Keeps(db, id, Combine(date, 0), Combine(date + 1, 0))
  {
    var (from, to) := (Combine(date, 0), Combine(date + 1, 0));
    CombineRoundTrip(from, date, 0);
    CombineRoundTrip(to, date + 1, 0);
    assert Weekday(date + 1) in RequestedDays(from, to);
  }

  // ---------- busy slots ----------

  datatype BusySlot = BusySlot(start: int, end: int, booking: Option<nat>)

  function OverlappingBlocks(blocks: Blocks, resource: nat, start: int, end: int): set<nat> {
    set k | k in blocks && blocks[k].resource == resource && Meets(blocks[k].start, blocks[k].end, start, end)
  }

  function BookingSlot(db: Db, id: nat): BusySlot
    requires id in db.bookings
  {
    BusySlot(db.bookings[id].start, db.bookings[id].end, Some(id))
  }

  function BlockSlot(db: Db, k: nat): BusySlot
    requires k in db.blocks
  {
    BusySlot(db.blocks[k].start, db.blocks[k].end, None)
  }

  predicate StartsNoLater(x: BusySlot, y: BusySlot) {
    x.start <= y.start
  }

  method ListBookingSlots(db: Db, ids: set<nat>) returns (out: seq<BusySlot>)
    requires ids <= db.bookings.Keys
    ensures |out| == |ids|
    ensures forall x :: x in out <==> exists id :: id in ids && x == BookingSlot(db, id)
  {
    out := [];
    var todo := ids;
    while todo != {}
      invariant todo <= ids && |out| == |ids| - |todo|
      invariant forall x :: x in out <==> exists id :: id in ids - todo && x == BookingSlot(db, id)
      decreases |todo|
    {
      var id :| id in todo;
      out := out + [BookingSlot(db, id)];
      todo := todo - {id};
    }
  }

  method ListBlockSlots(db: Db, ids: set<nat>) returns (out: seq<BusySlot>)
    requires ids <= db.blocks.Keys
    ensures |out| == |ids|
    ensures forall x :: x in out <==> exists k :: k in ids && x == BlockSlot(db, k)
  {
    out := [];
    var todo := ids;
    while todo != {}
      invariant todo <= ids && |out| == |ids| - |todo|
      invariant forall x :: x in out <==> exists k :: k in ids - todo && x == BlockSlot(db, k)
      decreases |todo|
    {
      var k :| k in todo;
      out := out + [BlockSlot(db, k)];
      todo := todo - {k};
    }
  }

  /** The confirmed bookings and the blocks across the interval, each once, by start. */
  method BusySlots(db: Db, resource: nat, start: int, end: int) returns (out: seq<BusySlot>)
    ensures forall i, j :: 0 <= i < j < |out| ==> out[i].start <= out[j].start
    ensures |out| == |set k | k in db.bookings && Crosses(db.bookings[k], resource, start, end)|
                   + |set b | b in db.blocks && Bars(db.blocks[b], resource, start, end)|
    ensures forall x :: x in out <==>
      || (exists k :: k in db.bookings && Crosses(db.bookings[k], resource, start, end)
                   && x == BusySlot(db.bookings[k].start, db.bookings[k].end, Some(k)))
      || (exists b :: b in db.blocks && Bars(db.blocks[b], resource, start, end)
                   && x == BusySlot(db.blocks[b].start, db.blocks[b].end, None))
  {
    var (bookings, blocks) := (Overlapping(db.bookings, resource, start, end),
                               OverlappingBlocks(db.blocks, resource, start, end));
    var fromBookings := ListBookingSlots(db, bookings);
    var fromBlocks := ListBlockSlots(db, blocks);
    assert bookings == set k | k in db.bookings && Crosses(db.bookings[k], resource, start, end);
    assert blocks == set b | b in db.blocks && Bars(db.blocks[b], resource, start, end);
    SortIsOrderedPermutation(fromBookings + fromBlocks, StartsNoLater);
    out := Sort(fromBookings + fromBlocks, StartsNoLater);
    SlotsMeaning(db, resource, start, end, fromBookings, fromBlocks, out);
  }

  lemma SlotsMeaning(db: Db, resource: nat, start: int, end: int, fromBookings: seq<BusySlot>,
                     fromBlocks: seq<BusySlot>, out: seq<BusySlot>)
    requires forall x :: x in out <==> x in fromBookings + fromBlocks
    requires forall x :: x in fromBookings
               <==> exists id :: id in Overlapping(db.bookings, resource, start, end) && x == BookingSlot(db, id)
    requires forall x :: x in fromBlocks
               <==> exists k :: k in OverlappingBlocks(db.blocks, resource, start, end) && x == BlockSlot(db, k)
    ensures forall x :: x in out <==>
      || (exists k :: k in db.bookings && Crosses(db.bookings[k], resource, start, end)
                   && x == BusySlot(db.bookings[k].start, db.bookings[k].end, Some(k)))
      || (exists b :: b in db.blocks && Bars(db.blocks[b], resource, start, end)
                   && x == BusySlot(db.blocks[b].start, db.blocks[b].end, None))
  {
    forall x
      ensures x in out <==>
        || (exists k :: k in db.bookings && Crosses(db.bookings[k], resource, start, end)
                     && x == BusySlot(db.bookings[k].start, db.bookings[k].end, Some(k)))
        || (exists b :: b in db.blocks && Bars(db.blocks[b], resource, start, end)
                     && x == BusySlot(db.blocks[b].start, db.blocks[b].end, None))
    {
      CrossingMeaning(db.bookings, resource, start, end);
      BlockSlotMeaning(db, resource, start, end, x);
    }
  }

  lemma BlockSlotMeaning(db: Db, resource: nat, start: int, end: int, x: BusySlot)
    ensures (exists k :: k in OverlappingBlocks(db.blocks, resource, start, end) && x == BlockSlot(db, k))
       <==> exists b :: b in db.blocks && Bars(db.blocks[b], resource, start, end)
                     && x == BusySlot(db.blocks[b].start, db.blocks[b].end, None)
  {
    forall k
      ensures k in OverlappingBlocks(db.blocks, resource, start, end)
         <==> k in db.blocks && Bars(db.blocks[k], resource, start, end)
    {
    }
  }

  /** The filter's conflict test holds exactly when a listing of busy slots over the interval is empty. */
  method ConflictTestByListing(db: Db, id: nat, from: int, to: int) returns (free: bool)
    ensures free == NoOverlap(db, id, from, to)
  {
    var slots := BusySlots(db, id, from, to);
    free := slots == [];
    FreeMeaning(db, id, from, to);
    if !free {
      assert slots[0] in slots;
    }
    forall k | k in db.bookings && Crosses(db.bookings[k], id, from, to)
      ensures slots != []
    {
      assert BusySlot(db.bookings[k].start, db.bookings[k].end, Some(k)) in slots;
    }
    forall b | b in db.blocks && Bars(db.blocks[b], id, from, to)
      ensures slots != []
    {
      assert BusySlot(db.blocks[b].start, db.blocks[b].end, None) in slots;
    }
  }
}
