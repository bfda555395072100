/** Rows of the booking tables (apps/bookings/models.py) and what it means for them to be sound. */
module BookingModel {
  import opened Options
  import opened Recurrence

  const PRIORITY_OVERRIDE_MINUTES := 2 * 60
  const MAX_ACTIVE_BOOKINGS := 5
  const NO_SHOW_MINUTES := 15

  datatype Error =
    | NotFound | ResourceNotFound | StartBeforeEnd | StartMustBeFuture
    | AdvanceDaysExceeded | DurationTooShort | DurationTooLong | ParkingWholeDayOnly
    | WrongCompany | RequiresPremium | Conflict | DeskUserOverlap
    | SameDayOnly | UnavailableDay | OutsideOperatingHours | ActiveLimitExceeded
    | AlreadyCancelled | AlreadyStarted | CancelWindowPassed | ReasonRequired
    | CheckInBeforeStart | NotConfirmed | AlreadyCheckedIn | InvalidIds
    | RepeatUntilInPast | InvalidDayOfWeek | DuplicateSeries | NoCreatableDates
    | SeveralMatchingRows | InvalidTime

  datatype Result<+T> = Ok(value: T) | Err(error: Error)

  datatype Role = SuperAdmin | CompanyAdmin | Employee | Guest | Reception
  datatype Plan = NoCharge | Basic | Standard | Premium

  /** `plan` is the plan of the user's company and counts only when there is one. */
  datatype User = User(id: nat, role: Role, company: Option<nat>, plan: Plan)

  datatype Kind = Desk | MeetingRoom | Parking | Capsule

  /** An empty `availableDays` means every day; hours are minutes of the local day. */
  datatype Resource = Resource(
    kind: Kind, floor: Option<nat>, assignedCompany: Option<nat>, isActive: bool,
    availableDays: set<int>, availableFrom: int, availableUntil: int,
    advanceDays: nat, minDuration: nat, maxDuration: nat, minCancel: nat)

  datatype Status = Confirmed | Cancelled | Completed | NoShow
  datatype Reason = NoReason | DisplacedByPriority | ResourceDeactivated | ResourceBlocked | Given(text: string)

  datatype Booking = Booking(
    resource: nat, user: nat, company: Option<nat>, series: Option<nat>,
    start: int, end: int, status: Status, priority: nat,
    cancelledBy: Option<nat>, cancelReason: Reason, checkedInAt: Option<int>)

  datatype Block = Block(resource: nat, start: int, end: int)

  datatype Series = Series(
    resource: nat, user: nat, company: Option<nat>, pattern: Pattern,
    startMinute: int, endMinute: int, isActive: bool, validFrom: int, validUntil: Option<int>)

  datatype Audit = Audit(booking: nat, actor: nat, reason: Reason, at: int)

  /** What a run has done and the tables forget: the priority every booking was made with,
      and which booking displaced which. No operation reads it. */
  datatype History = History(priorityOf: map<nat, nat>, displacedBy: map<nat, nat>)

  datatype Db = Db(
    resources: map<nat, Resource>, bookings: map<nat, Booking>, blocks: map<nat, Block>,
    series: map<nat, Series>, audits: multiset<Audit>, nextId: nat, history: History)

  type Bookings = map<nat, Booking>
  type Blocks = map<nat, Block>

  /** Half-open intervals [start, end) meet. */
  predicate Meets(aStart: int, aEnd: int, bStart: int, bEnd: int) {
    aStart < bEnd && aEnd > bStart
  }

  predicate Holds(bookings: Bookings, id: nat, resource: nat) {
    id in bookings && bookings[id].status.Confirmed? && bookings[id].resource == resource
  }

  function Overlapping(bookings: Bookings, resource: nat, start: int, end: int): set<nat> {
    set id | id in bookings && Holds(bookings, id, resource)
          && Meets(bookings[id].start, bookings[id].end, start, end)
  }

  predicate Blocked(blocks: Blocks, resource: nat, start: int, end: int) {
    exists k :: k in blocks && blocks[k].resource == resource && Meets(blocks[k].start, blocks[k].end, start, end)
  }

  // ---------- soundness of the allocation ----------

  ghost predicate NonEmpty(bookings: Bookings) {
    forall id :: id in bookings && bookings[id].status.Confirmed? ==> bookings[id].start < bookings[id].end
  }

  /** Confirmed bookings of one resource are pairwise disjoint. */
  ghost predicate ConflictFree(bookings: Bookings) {
    forall i, j :: i in bookings && j in bookings && i != j
      && bookings[i].status.Confirmed? && bookings[j].status.Confirmed?
      && bookings[i].resource == bookings[j].resource
      ==> bookings[i].end <= bookings[j].start || bookings[j].end <= bookings[i].start
  }

  ghost predicate ClearOfBlocks(bookings: Bookings, blocks: Blocks) {
    forall i, k :: i in bookings && k in blocks && bookings[i].status.Confirmed?
      && bookings[i].resource == blocks[k].resource
      ==> !Meets(bookings[i].start, bookings[i].end, blocks[k].start, blocks[k].end)
  }

  /** Every booking still confirmed in `after` was confirmed in `before` with the same resource and times. */
  ghost predicate Shrinks(before: Bookings, after: Bookings) {
    forall id :: id in after && after[id].status.Confirmed?
      ==> id in before && before[id].status.Confirmed? && before[id].resource == after[id].resource
          && before[id].start == after[id].start && before[id].end == after[id].end
  }

  lemma ShrinkingIsSafe(before: Bookings, after: Bookings, blocks: Blocks)
    requires Shrinks(before, after)
    ensures NonEmpty(before) ==> NonEmpty(after)
    ensures ConflictFree(before) ==> ConflictFree(after)
    ensures ClearOfBlocks(before, blocks) ==> ClearOfBlocks(after, blocks)
  {
  }

  /** No confirmed booking of the resource other than `id` meets the interval. */
  ghost predicate Free(bookings: Bookings, id: nat, resource: nat, start: int, end: int) {
    forall k :: k in bookings && k != id && Holds(bookings, k, resource)
      ==> !Meets(bookings[k].start, bookings[k].end, start, end)
  }

  /** Writing a non-empty row into a free slot keeps bookings disjoint, and clear of blocks if the slot is. */
  lemma PlacingKeepsSound(bookings: Bookings, blocks: Blocks, id: nat, row: Booking)
    requires NonEmpty(bookings) && ConflictFree(bookings)
    requires row.start < row.end && Free(bookings, id, row.resource, row.start, row.end)
    ensures NonEmpty(bookings[id := row]) && ConflictFree(bookings[id := row])
    ensures ClearOfBlocks(bookings, blocks) && !Blocked(blocks, row.resource, row.start, row.end)
        ==> ClearOfBlocks(bookings[id := row], blocks)
  {
    var after := bookings[id := row];
    forall k | k in bookings && k != id && after[k].status.Confirmed? && after[k].resource == row.resource
      ensures after[k].end <= row.start || row.end <= after[k].start
    {
      assert Holds(bookings, k, row.resource);
    }
  }
}
