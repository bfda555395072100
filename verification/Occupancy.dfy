/** The floor occupancy figures (apps/services/utils.py), counted from the same bookings. */
module Occupancy {
  import opened Options
  import opened BookingModel
  import opened FiniteSets

  function ActiveResources(db: Db, floor: nat): set<nat> {
    set r | r in db.resources && db.resources[r].isActive && db.resources[r].floor == Some(floor)
  }

  /** Both endpoints count: a booking that ends at `now` and one that starts at `now` are both active. */
  predicate ActiveNow(bookings: Bookings, id: nat, now: int) {
    id in bookings && bookings[id].status.Confirmed? && bookings[id].start <= now <= bookings[id].end
  }

  function ActiveOn(bookings: Bookings, resources: set<nat>, now: int): set<nat> {
    set id | id in bookings && ActiveNow(bookings, id, now) && bookings[id].resource in resources
  }

  function TotalResources(db: Db, floor: nat): nat { |ActiveResources(db, floor)| }

  function BookedNow(db: Db, floor: nat, now: int): nat { |ActiveOn(db.bookings, ActiveResources(db, floor), now)| }

  /** The two figures of a floor: its active resources, and the confirmed bookings of those that have started by `now`
      and not ended before it. */
  lemma FiguresMeaning(db: Db, floor: nat, now: int)
    ensures TotalResources(db, floor) == |set r | r in db.resources && OnFloor(db.resources[r], floor)|
    ensures BookedNow(db, floor, now)
         == |set id | id in db.bookings && db.bookings[id].status == Confirmed
                   && db.bookings[id].start <= now && now <= db.bookings[id].end
                   && db.bookings[id].resource in db.resources
                   && OnFloor(db.resources[db.bookings[id].resource], floor)|
  {
    assert ActiveResources(db, floor) == set r | r in db.resources && OnFloor(db.resources[r], floor);
    assert ActiveOn(db.bookings, ActiveResources(db, floor), now)
        == set id | id in db.bookings && db.bookings[id].status == Confirmed
                 && db.bookings[id].start <= now && now <= db.bookings[id].end
                 && db.bookings[id].resource in db.resources
                 && OnFloor(db.resources[db.bookings[id].resource], floor);
  }

  predicate OnFloor(resource: Resource, floor: nat) {
    resource.isActive && resource.floor.Some? && resource.floor.value == floor
  }

  /** Some confirmed booking of the resource is active at `now`. */
  predicate Busy(bookings: Bookings, resource: nat, now: int) {
    exists id :: id in bookings && ActiveNow(bookings, id, now) && bookings[id].resource == resource
  }

  /** One confirmed booking of the resource ends at `now` and another one starts. */
  predicate Handover(bookings: Bookings, resource: nat, now: int) {
    exists i, j :: i in bookings && j in bookings && Holds(bookings, i, resource) && Holds(bookings, j, resource)
                && bookings[i].end == now && bookings[j].start == now
  }

  function BusyResources(bookings: Bookings, resources: set<nat>, now: int): set<nat> {
    set r | r in resources && Busy(bookings, r, now)
  }

  function Handovers(bookings: Bookings, resources: set<nat>, now: int): set<nat> {
    set r | r in resources && Handover(bookings, r, now)
  }

  lemma HandoverRows(bookings: Bookings, r: nat, now: int, i: nat, j: nat)
    requires NonEmpty(bookings) && ConflictFree(bookings)
    requires i in bookings && j in bookings && Holds(bookings, i, r) && Holds(bookings, j, r)
    requires bookings[i].end == now && bookings[j].start == now
    ensures ActiveOn(bookings, {r}, now) == {i, j} && i != j && Busy(bookings, r, now)
  {
    assert ActiveNow(bookings, i, now) && ActiveNow(bookings, j, now);
  }

  /** At one resource there is no active booking, or one, or at a handover two. */
  lemma ActiveAtOneResource(bookings: Bookings, r: nat, now: int)
    requires NonEmpty(bookings) && ConflictFree(bookings)
    ensures |ActiveOn(bookings, {r}, now)|
         == (if Busy(bookings, r, now) then 1 else 0) + (if Handover(bookings, r, now) then 1 else 0)
  {
    var active := ActiveOn(bookings, {r}, now);
    if Handover(bookings, r, now) {
      var i, j :| i in bookings && j in bookings && Holds(bookings, i, r) && Holds(bookings, j, r)
               && bookings[i].end == now && bookings[j].start == now;
      HandoverRows(bookings, r, now, i, j);
    } else if Busy(bookings, r, now) {
      var i :| i in bookings && ActiveNow(bookings, i, now) && bookings[i].resource == r;
      forall k | k in active
        ensures k == i
      {
        assert Holds(bookings, k, r) && Holds(bookings, i, r);
      }
      assert active == {i};
    } else {
      assert active == {};
    }
  }

  lemma {:induction false} ActiveBookingsCounted(bookings: Bookings, resources: set<nat>, now: int)
    requires NonEmpty(bookings) && ConflictFree(bookings)
    ensures |ActiveOn(bookings, resources, now)|
         == |BusyResources(bookings, resources, now)| + |Handovers(bookings, resources, now)|
    decreases |resources|
  {
    if resources == {} {
      assert ActiveOn(bookings, resources, now) == {};
      assert BusyResources(bookings, resources, now) == {} && Handovers(bookings, resources, now) == {};
    } else {
      var r :| r in resources;
      ActiveBookingsCounted(bookings, resources - {r}, now);
      ActiveAtOneResource(bookings, r, now);
      ActiveSplits(bookings, resources, r, now);
      BusySplits(bookings, resources, r, now);
      HandoversSplit(bookings, resources, r, now);
    }
  }

  lemma ActiveSplits(bookings: Bookings, resources: set<nat>, r: nat, now: int)
    requires r in resources
    ensures |ActiveOn(bookings, resources, now)|
         == |ActiveOn(bookings, resources - {r}, now)| + |ActiveOn(bookings, {r}, now)|
  {
    assert ActiveOn(bookings, resources, now)
        == ActiveOn(bookings, resources - {r}, now) + ActiveOn(bookings, {r}, now);
  }

  lemma BusySplits(bookings: Bookings, resources: set<nat>, r: nat, now: int)
    requires r in resources
    ensures |BusyResources(bookings, resources, now)|
         == |BusyResources(bookings, resources - {r}, now)| + (if Busy(bookings, r, now) then 1 else 0)
  {
    var busy := Busy(bookings, r, now);
    assert BusyResources(bookings, resources, now)
        == BusyResources(bookings, resources - {r}, now) + (if busy then {r} else {});
  }

  lemma HandoversSplit(bookings: Bookings, resources: set<nat>, r: nat, now: int)
    requires r in resources
    ensures |Handovers(bookings, resources, now)|
         == |Handovers(bookings, resources - {r}, now)| + (if Handover(bookings, r, now) then 1 else 0)
  {
    var handover := Handover(bookings, r, now);
    assert Handovers(bookings, resources, now)
        == Handovers(bookings, resources - {r}, now) + (if handover then {r} else {});
  }

  /** The booked figure is the number of busy resources plus the number of handovers, so it never
      exceeds twice the total, and exceeds the total only at a handover. */
  lemma BookedNowMeaning(db: Db, floor: nat, now: int)
    requires NonEmpty(db.bookings) && ConflictFree(db.bookings)
    ensures var resources := ActiveResources(db, floor);
      && BookedNow(db, floor, now)
          == |BusyResources(db.bookings, resources, now)| + |Handovers(db.bookings, resources, now)|
      && BookedNow(db, floor, now) <= 2 * TotalResources(db, floor)
      && ((forall r :: r in resources ==> !Handover(db.bookings, r, now))
          ==> BookedNow(db, floor, now) <= TotalResources(db, floor))
  {
    var resources := ActiveResources(db, floor);
    ActiveBookingsCounted(db.bookings, resources, now);
    SubsetIsSmaller(BusyResources(db.bookings, resources, now), resources);
    SubsetIsSmaller(Handovers(db.bookings, resources, now), resources);
    if forall r :: r in resources ==> !Handover(db.bookings, r, now) {
      assert Handovers(db.bookings, resources, now) == {};
    }
  }
}
