/** Requests that overlap in time. A transaction locks the resource row, checks against what it can see
    (committed rows plus its own), writes, and commits; cancellations and blocks take no resource lock. */
module LockProtocol {
  import opened Options
  import opened BookingModel
  import opened Allocator

  /** What a transaction does for one slot. `target` is the row a time change rewrites; `claimant` is the
      user on whose behalf others may be displaced; a `strict` conflict ends the transaction, otherwise the
      slot is skipped; `reuse` is the get-or-create of the recurring job. */
  datatype Slot = Slot(row: Booking, target: Option<nat>, claimant: Option<User>, strict: bool, reuse: bool)

  /** `verdict` is the answer of a passed conflict check that has not been acted on yet. */
  datatype Txn = Txn(resource: nat, locked: bool, todo: seq<Slot>, verdict: Option<set<nat>>, pending: Bookings)

  /** `home` records the resource each booking id was given when it was allocated. */
  datatype System = System(
    committed: Bookings, blocks: Blocks, txns: map<nat, Txn>, blocking: map<nat, BlockRequest>,
    home: map<nat, nat>, nextId: nat)

  /** A block that is inserted and not committed yet, with the overlapping bookings it found to cancel. */
  datatype BlockRequest = BlockRequest(resource: nat, start: int, end: int, hits: set<nat>)

  datatype Action =
    | Begin(t: nat, resource: nat, slots: seq<Slot>)
    | Lock(t: nat)
    | Check(t: nat, now: int)
    | Write(t: nat)
    | Commit(t: nat)
    | Rollback(t: nat)
    | Close(id: nat, status: Status)
    | Remove(id: nat)
    | Select(b: nat, resource: nat, start: int, end: int)
    | Publish(b: nat)

  // ---------- the three kinds of transaction ----------

  function CreateSlot(row: Booking, user: User): Slot {
    Slot(row, None, Some(user), true, false)
  }

  function PatchSlot(id: nat, row: Booking): Slot {
    Slot(row, Some(id), None, true, false)
  }

  function RecurringSlot(row: Booking): Slot {
    Slot(row, None, None, false, true)
  }

  /** A slot a request may bring: a non-empty interval on the resource, and for a time change a row
      read from that resource (the read happens before the lock and may be stale when it is granted). */
  predicate Admissible(s: System, resource: nat, slot: Slot) {
    && slot.row.resource == resource && slot.row.start < slot.row.end
    && (slot.target.Some? ==> slot.target.value in s.committed && s.committed[slot.target.value].resource == resource)
  }

  function Visible(s: System, t: nat): Bookings
    requires t in s.txns
  {
    s.committed + s.txns[t].pending
  }

  predicate Held(s: System, resource: nat) {
    exists t :: t in s.txns && s.txns[t].locked && s.txns[t].resource == resource
  }

  function With(s: System, t: nat, x: Txn): System {
    s.(txns := s.txns[t := x])
  }

  function Drop(s: System, t: nat): System {
    s.(txns := s.txns - {t})
  }

  function SameRow(rows: Bookings, row: Booking): set<nat> {
    set k | k in rows && rows[k].resource == row.resource && rows[k].user == row.user && rows[k].company == row.company
         && rows[k].series == row.series && rows[k].start == row.start && rows[k].end == row.end
  }

  // ---------- steps; a step that is not enabled changes nothing ----------

  function CheckStep(s: System, t: nat, now: int): System {
    if t !in s.txns || !s.txns[t].locked || s.txns[t].todo == [] || s.txns[t].verdict.Some? then s
    else
      var x := s.txns[t];
      var slot := x.todo[0];
      var r := EnsureNoConflicts(Visible(s, t), s.blocks, x.resource, slot.row.start, slot.row.end, slot.target,
                                 slot.claimant, now);
      if r.Ok? then With(s, t, x.(verdict := Some(r.value)))
      else if slot.strict then Drop(s, t)
      else With(s, t, x.(todo := x.todo[1..]))
  }

  /** The written row, with the visible bookings it displaces cancelled. */
  function Written(visible: Bookings, pending: Bookings, id: nat, row: Booking, displaced: set<nat>): Bookings {
    var cancelled := map k | k in displaced && k in visible ::
                       Withdrawn(visible[k], row.user, DisplacedByPriority);
    (pending + cancelled)[id := row]
  }

  /** The get-or-create of the slot finds its row. */
  predicate Finds(visible: Bookings, slot: Slot) {
    slot.reuse && SameRow(visible, slot.row) != {}
  }

  /** The transaction after it has acted on its verdict; a new row gets the given id. */
  function Acted(committed: Bookings, x: Txn, newId: nat): (y: Txn)
    requires x.todo != [] && x.verdict.Some?
    ensures y.resource == x.resource && y.locked == x.locked && y.todo == x.todo[1..] && y.verdict.None?
  {
    var (slot, done) := (x.todo[0], x.(todo := x.todo[1..], verdict := None));
    if Finds(committed + x.pending, slot) then done
    else
      var id := if slot.target.Some? then slot.target.value else newId;
      done.(pending := Written(committed + x.pending, x.pending, id, slot.row, x.verdict.value))
  }

  function WriteStep(s: System, t: nat): System {
    if t !in s.txns || s.txns[t].todo == [] || s.txns[t].verdict.None? then s
    else
      var x := s.txns[t];
      var y := Acted(s.committed, x, s.nextId);
      if Finds(Visible(s, t), x.todo[0]) || x.todo[0].target.Some? then With(s, t, y)
      else With(s, t, y).(home := s.home[s.nextId := x.resource], nextId := s.nextId + 1)
  }

  function Next(s: System, a: Action): System {
    match a
    case Begin(t, resource, slots) =>
      if t in s.txns || exists i :: 0 <= i < |slots| && !Admissible(s, resource, slots[i]) then s
      else With(s, t, Txn(resource, false, slots, None, map[]))
    case Lock(t) =>
      if t !in s.txns || s.txns[t].locked || Held(s, s.txns[t].resource) then s
      else With(s, t, s.txns[t].(locked := true))
    case Check(t, now) => CheckStep(s, t, now)
    case Write(t) => WriteStep(s, t)
    case Commit(t) =>
      if t !in s.txns || !s.txns[t].locked || s.txns[t].todo != [] then s
      else Drop(s, t).(committed := Visible(s, t))
    case Rollback(t) => Drop(s, t)
    case Close(id, status) =>
      if id !in s.committed || status.Confirmed? then s
      else s.(committed := s.committed[id := s.committed[id].(status := status)])
    case Remove(id) => s.(committed := s.committed - {id})
    case Select(b, resource, start, end) =>
      if b in s.blocking then s
      else
        var request := BlockRequest(resource, start, end, Overlapping(s.committed, resource, start, end));
        s.(blocking := s.blocking[b := request])
    case Publish(b) =>
      if b !in s.blocking then s else Published(s, s.blocking[b]).(blocking := s.blocking - {b})
  }

  /** The block and its cancellations become visible. */
  function Published(s: System, q: BlockRequest): System {
    s.(blocks := s.blocks[s.nextId := Block(q.resource, q.start, q.end)],
       nextId := s.nextId + 1,
       committed := CancelAll(s.committed, q.hits, 0, ResourceBlocked))
  }

  function Run(s: System, actions: seq<Action>): System
    decreases |actions|
  {
    if actions == [] then s else Run(Next(s, actions[0]), actions[1..])
  }

  function Idle(): System {
    System(map[], map[], map[], map[], map[], 0)
  }

  // ---------- the invariant ----------

  ghost predicate AtHome(rows: Bookings, home: map<nat, nat>) {
    forall id :: id in rows ==> id in home && home[id] == rows[id].resource
  }

  ghost predicate SlotOk(s: System, x: Txn, slot: Slot) {
    && slot.row.resource == x.resource && slot.row.start < slot.row.end
    && (slot.target.Some? ==> slot.target.value in s.home && s.home[slot.target.value] == x.resource)
  }

  ghost predicate TxnOk(s: System, x: Txn) {
    && (forall i :: 0 <= i < |x.todo| ==> SlotOk(s, x, x.todo[i]))
    && AtHome(x.pending, s.home)
    && (forall id :: id in x.pending ==> x.pending[id].resource == x.resource)
    && (!x.locked ==> x.pending == map[] && x.verdict.None?)
    && (x.locked ==> NonEmpty(s.committed + x.pending) && ConflictFree(s.committed + x.pending))
    && (x.verdict.Some? ==> x.todo != [] && VerdictOk(s.committed + x.pending, x.todo[0], x.verdict.value))
    && (x.verdict.Some? ==> forall k :: k in x.verdict.value ==> k in s.home && s.home[k] == x.resource)
  }

  /** Whatever stands in the way of the slot, apart from its own row, is to be displaced. */
  ghost predicate VerdictOk(visible: Bookings, slot: Slot, displaced: set<nat>) {
    forall k :: k in visible && Holds(visible, k, slot.row.resource) && slot.target != Some(k)
        && Meets(visible[k].start, visible[k].end, slot.row.start, slot.row.end)
      ==> k in displaced
  }

  ghost predicate Inv(s: System) {
    && NonEmpty(s.committed) && ConflictFree(s.committed)
    && AtHome(s.committed, s.home)
    && (forall id :: id in s.home ==> id < s.nextId)
    && (forall t :: t in s.txns ==> TxnOk(s, s.txns[t]))
    && (forall t, u :: t in s.txns && u in s.txns && t != u && s.txns[t].locked && s.txns[u].locked
          ==> s.txns[t].resource != s.txns[u].resource)
  }

  // ---------- preservation ----------

  lemma BeginKeeps(s: System, t: nat, resource: nat, slots: seq<Slot>)
    requires Inv(s)
    ensures Inv(Next(s, Begin(t, resource, slots)))
  {
    var after := Next(s, Begin(t, resource, slots));
    if after != s {
      forall i | 0 <= i < |slots|
        ensures SlotOk(after, after.txns[t], slots[i])
      {
        assert Admissible(s, resource, slots[i]);
      }
      forall u | u in s.txns
        ensures TxnOk(after, s.txns[u])
      {
        assert TxnOk(s, s.txns[u]);
      }
    }
  }

  /** Only the transaction `t` and the allocation of ids have moved on. */
  lemma TxnStepKeeps(s: System, after: System, t: nat)
    requires Inv(s) && t in s.txns && t in after.txns
    requires after == s.(txns := s.txns[t := after.txns[t]], home := after.home, nextId := after.nextId)
    requires forall id :: id in s.home ==> id in after.home && after.home[id] == s.home[id]
    requires forall id :: id in after.home ==> id < after.nextId
    requires TxnOk(after, after.txns[t])
    requires after.txns[t].resource == s.txns[t].resource
    requires after.txns[t].locked ==> s.txns[t].locked || !Held(s, s.txns[t].resource)
    ensures Inv(after)
  {
    forall u | u in after.txns
      ensures TxnOk(after, after.txns[u])
    {
      if u != t {
        var x := s.txns[u];
        assert TxnOk(s, x);
        forall i | 0 <= i < |x.todo|
          ensures SlotOk(after, x, x.todo[i])
        {
          assert SlotOk(s, x, x.todo[i]);
        }
      }
    }
  }

  lemma LockKeeps(s: System, t: nat)
    requires Inv(s)
    ensures Inv(Next(s, Lock(t)))
  {
    var after := Next(s, Lock(t));
    if after != s {
      var x := s.txns[t];
      assert TxnOk(s, x);
      assert s.committed + map[] == s.committed;
      forall i | 0 <= i < |x.todo|
        ensures SlotOk(after, after.txns[t], x.todo[i])
      {
        assert SlotOk(s, x, x.todo[i]);
      }
      TxnStepKeeps(s, after, t);
    }
  }

  lemma DropKeeps(s: System, t: nat)
    requires Inv(s)
    ensures Inv(Drop(s, t))
  {
    forall u | u in Drop(s, t).txns
      ensures TxnOk(Drop(s, t), s.txns[u])
    {
      SameTablesSameTxn(s, Drop(s, t), s.txns[u]);
    }
  }

  lemma SameTablesSameTxn(s: System, after: System, x: Txn)
    requires TxnOk(s, x) && after.committed == s.committed && after.home == s.home
    ensures TxnOk(after, x)
  {
    forall i | 0 <= i < |x.todo|
      ensures SlotOk(after, x, x.todo[i])
    {
      assert SlotOk(s, x, x.todo[i]);
    }
  }

  /** A passed check gives a valid verdict. */
  lemma CheckGivesVerdict(s: System, t: nat, now: int)
    requires Inv(s) && t in s.txns && s.txns[t].todo != []
    ensures var (x, slot) := (s.txns[t], s.txns[t].todo[0]);
            var r := EnsureNoConflicts(Visible(s, t), s.blocks, x.resource, slot.row.start, slot.row.end, slot.target,
                                       slot.claimant, now);
            r.Ok? ==> VerdictOk(Visible(s, t), slot, r.value)
                      && forall k :: k in r.value ==> k in s.home && s.home[k] == x.resource
  {
    var (x, slot) := (s.txns[t], s.txns[t].todo[0]);
    assert TxnOk(s, x) && SlotOk(s, x, slot);
    NoConflictsMeaning(Visible(s, t), s.blocks, x.resource, slot.row.start, slot.row.end, slot.target, slot.claimant,
                       now);
  }

  lemma CheckKeeps(s: System, t: nat, now: int)
    requires Inv(s)
    ensures Inv(CheckStep(s, t, now))
  {
    var after := CheckStep(s, t, now);
    if after != s {
      var y := CheckOutcome(s, t, now);
      if y.Some? {
        CheckedIsOk(s, t, y.value, now);
        TxnStepKeeps(s, after, t);
      } else {
        DropKeeps(s, t);
      }
    }
  }

  /** What a check that is due makes of the transaction: it has a verdict, drops its slot, or ends. */
  lemma CheckOutcome(s: System, t: nat, now: int) returns (y: Option<Txn>)
    requires CheckStep(s, t, now) != s
    ensures t in s.txns && s.txns[t].locked && s.txns[t].todo != [] && s.txns[t].verdict.None?
    ensures CheckStep(s, t, now) == if y.Some? then With(s, t, y.value) else Drop(s, t)
    ensures var x := s.txns[t];
      var r := EnsureNoConflicts(Visible(s, t), s.blocks, x.resource, x.todo[0].row.start, x.todo[0].row.end,
                                 x.todo[0].target, x.todo[0].claimant, now);
      y.Some? ==> if r.Ok? then y.value == x.(verdict := Some(r.value)) else y.value == x.(todo := x.todo[1..])
  {
    var x := s.txns[t];
    var r := EnsureNoConflicts(Visible(s, t), s.blocks, x.resource, x.todo[0].row.start, x.todo[0].row.end,
                               x.todo[0].target, x.todo[0].claimant, now);
    y := if r.Ok? then Some(x.(verdict := Some(r.value)))
         else if x.todo[0].strict then None else Some(x.(todo := x.todo[1..]));
  }

  lemma CheckedIsOk(s: System, t: nat, y: Txn, now: int)
    requires Inv(s) && t in s.txns && s.txns[t].locked && s.txns[t].todo != [] && s.txns[t].verdict.None?
    requires var x := s.txns[t];
      var r := EnsureNoConflicts(Visible(s, t), s.blocks, x.resource, x.todo[0].row.start, x.todo[0].row.end,
                                 x.todo[0].target, x.todo[0].claimant, now);
      if r.Ok? then y == x.(verdict := Some(r.value)) else y == x.(todo := x.todo[1..])
    ensures TxnOk(With(s, t, y), y)
  {
    var x := s.txns[t];
    assert TxnOk(s, x);
    CheckGivesVerdict(s, t, now);
    forall i | 0 <= i < |y.todo|
      ensures SlotOk(With(s, t, y), y, y.todo[i])
    {
      assert SlotOk(s, x, x.todo[i]) && (i + 1 < |x.todo| ==> SlotOk(s, x, x.todo[i + 1]));
    }
  }

  lemma WrittenView(committed: Bookings, pending: Bookings, id: nat, row: Booking, displaced: set<nat>)
    ensures var (visible, after) := (committed + pending,
            committed + Written(committed + pending, pending, id, row, displaced));
            id in after && after[id] == row
            && forall k :: k in after && k != id && after[k].status.Confirmed?
                 ==> k in visible && k !in displaced && after[k] == visible[k]
  {
  }

  /** Writing into the checked slot leaves the transaction's own view free of conflicts. */
  lemma WritingIsSafe(committed: Bookings, pending: Bookings, id: nat, slot: Slot, displaced: set<nat>)
    requires var visible := committed + pending;
             NonEmpty(visible) && ConflictFree(visible) && VerdictOk(visible, slot, displaced)
    requires slot.row.start < slot.row.end
    requires slot.target == Some(id) || (slot.target.None? && id !in committed && id !in pending)
    ensures var after := committed + Written(committed + pending, pending, id, slot.row, displaced);
            NonEmpty(after) && ConflictFree(after)
  {
    var visible := committed + pending;
    var cleared := CancelAll(visible, displaced, 0, DisplacedByPriority);
    ShrinkingIsSafe(visible, cleared, map[]);
    assert Free(cleared, id, slot.row.resource, slot.row.start, slot.row.end);
    PlacingKeepsSound(cleared, map[], id, slot.row);
    WrittenView(committed, pending, id, slot.row, displaced);
    ShrinkingIsSafe(cleared[id := slot.row], committed + Written(visible, pending, id, slot.row, displaced), map[]);
  }

  /** What the written transaction has become. */
  ghost predicate Advanced(s: System, after: System, x: Txn, y: Txn) {
    && x.todo != [] && y.todo == x.todo[1..] && y.resource == x.resource && y.locked == x.locked && y.verdict.None?
    && after.committed == s.committed
    && (forall id :: id in s.home ==> id in after.home && after.home[id] == s.home[id])
  }

  lemma RestStaysOk(s: System, after: System, x: Txn, y: Txn)
    requires Advanced(s, after, x, y) && forall i :: 0 <= i < |x.todo| ==> SlotOk(s, x, x.todo[i])
    ensures forall i :: 0 <= i < |y.todo| ==> SlotOk(after, y, y.todo[i])
  {
    forall i | 0 <= i < |y.todo|
      ensures SlotOk(after, y, y.todo[i])
    {
      assert SlotOk(s, x, x.todo[i + 1]);
    }
  }

  lemma WriteAdvances(s: System, t: nat)
    requires t in s.txns && s.txns[t].todo != [] && s.txns[t].verdict.Some?
    requires forall id :: id in s.home ==> id < s.nextId
    ensures t in WriteStep(s, t).txns && Advanced(s, WriteStep(s, t), s.txns[t], WriteStep(s, t).txns[t])
  {
  }

  /** Either the row is found again, or it is written under an id that is at home on the resource. */
  lemma WrittenPending(s: System, t: nat) returns (id: nat)
    requires t in s.txns && s.txns[t].todo != [] && s.txns[t].verdict.Some?
    requires SlotOk(s, s.txns[t], s.txns[t].todo[0])
    ensures id == (if s.txns[t].todo[0].target.Some? then s.txns[t].todo[0].target.value else s.nextId)
    ensures var (x, after) := (s.txns[t], WriteStep(s, t));
      || after.txns[t].pending == x.pending
      || (after.txns[t].pending == Written(Visible(s, t), x.pending, id, x.todo[0].row, x.verdict.value)
          && id in after.home && after.home[id] == x.resource)
  {
    var slot := s.txns[t].todo[0];
    id := if slot.target.Some? then slot.target.value else s.nextId;
  }

  lemma WriteKeepsTxn(s: System, t: nat)
    requires Inv(s) && t in s.txns && s.txns[t].todo != [] && s.txns[t].verdict.Some?
    ensures TxnOk(WriteStep(s, t), WriteStep(s, t).txns[t])
  {
    var (x, after) := (s.txns[t], WriteStep(s, t));
    assert TxnOk(s, x) && SlotOk(s, x, x.todo[0]);
    WriteAdvances(s, t);
    RestStaysOk(s, after, x, after.txns[t]);
    var id := WrittenPending(s, t);
    AdvancedIsOk(s, after, x, after.txns[t], id);
  }

  lemma AdvancedIsOk(s: System, after: System, x: Txn, y: Txn, id: nat)
    requires TxnOk(s, x) && Advanced(s, after, x, y) && AtHome(s.committed, s.home)
    requires x.verdict.Some? && SlotOk(s, x, x.todo[0])
    requires id == if x.todo[0].target.Some? then x.todo[0].target.value else s.nextId
    requires forall k :: k in s.home ==> k < s.nextId
    requires forall i :: 0 <= i < |y.todo| ==> SlotOk(after, y, y.todo[i])
    requires y.pending == x.pending
          || (y.pending == Written(s.committed + x.pending, x.pending, id, x.todo[0].row, x.verdict.value)
              && id in after.home && after.home[id] == x.resource)
    ensures TxnOk(after, y)
  {
    if y.pending != x.pending {
      WritingIsSafe(s.committed, x.pending, id, x.todo[0], x.verdict.value);
      WrittenAtHome(s, after, x, id, x.todo[0]);
    }
  }

  lemma WriteKeeps(s: System, t: nat)
    requires Inv(s)
    ensures Inv(WriteStep(s, t))
  {
    var after := WriteStep(s, t);
    if after != s {
      WriteKeepsTxn(s, t);
      WriteShape(s, t);
      TxnStepKeeps(s, after, t);
    }
  }

  lemma WriteShape(s: System, t: nat)
    requires t in s.txns && s.txns[t].todo != [] && s.txns[t].verdict.Some?
    requires forall id :: id in s.home ==> id < s.nextId
    ensures var after := WriteStep(s, t);
      && t in after.txns && after.txns[t].resource == s.txns[t].resource && after.txns[t].locked == s.txns[t].locked
      && after == s.(txns := s.txns[t := after.txns[t]], home := after.home, nextId := after.nextId)
      && (forall id :: id in s.home ==> id in after.home && after.home[id] == s.home[id])
      && (forall id :: id in after.home ==> id < after.nextId)
  {
  }

  lemma WrittenAtHome(s: System, after: System, x: Txn, id: nat, slot: Slot)
    requires AtHome(s.committed, s.home) && TxnOk(s, x) && x.verdict.Some? && slot == x.todo[0]
             && slot.row.resource == x.resource
    requires id in after.home && after.home[id] == x.resource
    requires forall k :: k in s.home ==> k in after.home && after.home[k] == s.home[k]
    ensures var pending := Written(s.committed + x.pending, x.pending, id, slot.row, x.verdict.value);
            AtHome(pending, after.home) && forall k :: k in pending ==> pending[k].resource == x.resource
  {
  }

  /** Another transaction still holds its own lock while `t` commits: its view only gains rows of
      another resource, and those are free of conflicts among themselves. */
  lemma CommitKeepsOthers(s: System, t: nat, u: nat)
    requires Inv(s) && t in s.txns && u in s.txns && t != u && s.txns[t].locked
    ensures TxnOk(Drop(s, t).(committed := Visible(s, t)), s.txns[u])
  {
    var (x, y) := (s.txns[t], s.txns[u]);
    var after := Drop(s, t).(committed := Visible(s, t));
    assert TxnOk(s, x) && TxnOk(s, y);
    forall i | 0 <= i < |y.todo|
      ensures SlotOk(after, y, y.todo[i])
    {
      assert SlotOk(s, y, y.todo[i]);
    }
    if y.locked {
      assert x.resource != y.resource;
      MergedViewOk(s, x, y);
    }
  }

  lemma MergedViewOk(s: System, x: Txn, y: Txn)
    requires AtHome(s.committed, s.home) && TxnOk(s, x) && TxnOk(s, y) && x.locked && y.locked
             && x.resource != y.resource
    ensures var merged := s.committed + x.pending + y.pending;
      && NonEmpty(merged) && ConflictFree(merged)
      && (y.verdict.Some? ==> VerdictOk(merged, y.todo[0], y.verdict.value))
  {
    var (view, merged) := (s.committed + y.pending, s.committed + x.pending + y.pending);
    ViewsMerge(s, x, y);
    FromEither(s.committed + x.pending, view, merged, y.resource);
    if y.verdict.Some? {
      assert SlotOk(s, y, y.todo[0]);
      VerdictSurvives(view, merged, y.todo[0], y.verdict.value);
    }
  }

  lemma FromEither(mine: Bookings, view: Bookings, merged: Bookings, resource: nat)
    requires NonEmpty(mine) && ConflictFree(mine) && NonEmpty(view) && ConflictFree(view)
    requires forall k :: k in merged && merged[k].resource == resource ==> k in view && merged[k] == view[k]
    requires forall k :: k in merged && merged[k].resource != resource ==> k in mine && merged[k] == mine[k]
    ensures NonEmpty(merged) && ConflictFree(merged)
  {
  }

  /** Two views that differ in the rows of two resources: for each resource the merged view agrees with one of them. */
  lemma ViewsMerge(s: System, x: Txn, y: Txn)
    requires AtHome(s.committed, s.home) && TxnOk(s, x) && TxnOk(s, y) && x.resource != y.resource
    ensures var (mine, view, merged) := (s.committed + x.pending, s.committed + y.pending,
            s.committed + x.pending + y.pending);
      forall k :: k in merged ==>
        && (merged[k].resource == y.resource ==> k in view && merged[k] == view[k])
        && (merged[k].resource != y.resource ==> k in mine && merged[k] == mine[k])
  {
    var merged := s.committed + x.pending + y.pending;
    forall k | k in merged
      ensures k in y.pending ==> merged[k].resource == y.resource
      ensures k in x.pending && k !in y.pending ==> merged[k].resource == x.resource
      ensures k in x.pending ==> k !in y.pending
    {
      assert k in y.pending ==> s.home[k] == y.resource;
      assert k in x.pending ==> s.home[k] == x.resource;
    }
  }

  lemma VerdictSurvives(view: Bookings, merged: Bookings, slot: Slot, displaced: set<nat>)
    requires VerdictOk(view, slot, displaced)
    requires forall k :: k in merged && merged[k].resource == slot.row.resource ==> k in view && merged[k] == view[k]
    ensures VerdictOk(merged, slot, displaced)
  {
  }

  lemma CommitKeeps(s: System, t: nat)
    requires Inv(s)
    ensures Inv(Next(s, Commit(t)))
  {
    var after := Next(s, Commit(t));
    if after != s {
      assert TxnOk(s, s.txns[t]);
      forall u | u in after.txns
        ensures TxnOk(after, after.txns[u])
      {
        CommitKeepsOthers(s, t, u);
      }
    }
  }

  lemma TableStepKeeps(s: System, after: System)
    requires Inv(s) && after.txns == s.txns && after.home == s.home && after.nextId >= s.nextId
    requires Shrinks(s.committed, after.committed)
    requires forall k :: k in after.committed ==>
               k in s.committed && after.committed[k].resource == s.committed[k].resource
    ensures Inv(after)
  {
    ShrinkingIsSafe(s.committed, after.committed, map[]);
    forall t | t in after.txns
      ensures TxnOk(after, after.txns[t])
    {
      var x := s.txns[t];
      assert TxnOk(s, x);
      forall i | 0 <= i < |x.todo|
        ensures SlotOk(after, x, x.todo[i])
      {
        assert SlotOk(s, x, x.todo[i]);
      }
      var (view, left) := (s.committed + x.pending, after.committed + x.pending);
      assert Shrinks(view, left);
      ShrinkingIsSafe(view, left, map[]);
      assert x.verdict.Some? ==> VerdictOk(left, x.todo[0], x.verdict.value);
    }
  }

  lemma CloseKeeps(s: System, id: nat, status: Status)
    requires Inv(s)
    ensures Inv(Next(s, Close(id, status)))
  {
    TableStepKeeps(s, Next(s, Close(id, status)));
  }

  lemma RemoveKeeps(s: System, id: nat)
    requires Inv(s)
    ensures Inv(Next(s, Remove(id)))
  {
    TableStepKeeps(s, Next(s, Remove(id)));
  }

  lemma SelectKeeps(s: System, b: nat, resource: nat, start: int, end: int)
    requires Inv(s)
    ensures Inv(Next(s, Select(b, resource, start, end)))
  {
    TableStepKeeps(s, Next(s, Select(b, resource, start, end)));
  }

  lemma PublishKeeps(s: System, b: nat)
    requires Inv(s)
    ensures Inv(Next(s, Publish(b)))
  {
    TableStepKeeps(s, Next(s, Publish(b)));
  }

  lemma StepKeeps(s: System, a: Action)
    requires Inv(s)
    ensures Inv(Next(s, a))
  {
    match a
    case Begin(t, resource, slots) => BeginKeeps(s, t, resource, slots);
    case Lock(t) => LockKeeps(s, t);
    case Check(t, now) => CheckKeeps(s, t, now);
    case Write(t) => WriteKeeps(s, t);
    case Commit(t) => CommitKeeps(s, t);
    case Rollback(t) => DropKeeps(s, t);
    case Close(id, status) => CloseKeeps(s, id, status);
    case Remove(id) => RemoveKeeps(s, id);
    case Select(b, resource, start, end) => SelectKeeps(s, b, resource, start, end);
    case Publish(b) => PublishKeeps(s, b);
  }

  lemma {:induction false} RunKeeps(s: System, actions: seq<Action>)
    requires Inv(s)
    ensures Inv(Run(s, actions))
    decreases |actions|
  {
    if actions == [] {
    } else {
      StepKeeps(s, actions[0]);
      RunKeeps(Next(s, actions[0]), actions[1..]);
    }
  }

  /** Whatever the interleaving, the resource lock alone keeps the confirmed bookings of every resource
      non-empty and pairwise disjoint. */
  lemma EveryInterleavingIsConflictFree(actions: seq<Action>)
    ensures NonEmpty(Run(Idle(), actions).committed) && ConflictFree(Run(Idle(), actions).committed)
  {
    RunKeeps(Idle(), actions);
  }

  lemma UncontendedRun(s: System, slot: Slot, displaced: set<nat>, now: int)
    requires s.txns == map[] && slot.row.start < slot.row.end && slot.target.None? && !slot.reuse
    requires EnsureNoConflicts(s.committed, s.blocks, slot.row.resource, slot.row.start, slot.row.end,
                               None, slot.claimant, now) == Ok(displaced)
    ensures Run(s, [Begin(0, slot.row.resource, [slot]), Lock(0), Check(0, now), Write(0), Commit(0)]).committed
         == s.committed + Written(s.committed, map[], s.nextId, slot.row, displaced)
    ensures var after := Run(s, [Begin(0, slot.row.resource, [slot]), Lock(0), Check(0, now), Write(0), Commit(0)]);
      after.txns == map[] && after.blocks == s.blocks && after.blocking == s.blocking
  {
    var checked := With(s, 0, Txn(slot.row.resource, true, [slot], Some(displaced), map[]));
    ReachVerdict(s, slot, displaced, now);
    WriteAndCommit(checked, slot, displaced);
    FiveSteps(s, Begin(0, slot.row.resource, [slot]), Lock(0), Check(0, now), Write(0), Commit(0));
  }

  lemma ReachVerdict(s: System, slot: Slot, displaced: set<nat>, now: int)
    requires s.txns == map[] && slot.row.start < slot.row.end && slot.target.None?
    requires EnsureNoConflicts(s.committed, s.blocks, slot.row.resource, slot.row.start, slot.row.end,
                               None, slot.claimant, now) == Ok(displaced)
    ensures Next(Next(Next(s, Begin(0, slot.row.resource, [slot])), Lock(0)), Check(0, now))
         == With(s, 0, Txn(slot.row.resource, true, [slot], Some(displaced), map[]))
  {
    assert s.committed + map[] == s.committed;
    assert Next(s, Begin(0, slot.row.resource, [slot]))
        == With(s, 0, Txn(slot.row.resource, false, [slot], None, map[]));
  }

  lemma WriteAndCommit(s: System, slot: Slot, displaced: set<nat>)
    requires 0 in s.txns && s.txns[0] == Txn(slot.row.resource, true, [slot], Some(displaced), map[])
    requires slot.target.None? && !slot.reuse
    ensures Next(Next(s, Write(0)), Commit(0)).committed
         == s.committed + Written(s.committed, map[], s.nextId, slot.row, displaced)
    ensures var after := Next(Next(s, Write(0)), Commit(0));
      after.txns == s.txns - {0} && after.blocks == s.blocks && after.blocking == s.blocking
  {
    assert s.committed + map[] == s.committed;
  }

  /** A create request that meets no other request has exactly the effect of the atomic create. */
  lemma UncontendedCreateIsAtomic(db: Db, user: User, id: nat, start: int, end: int, now: int, home: map<nat, nat>)
    requires Create(db, user, id, start, end, now).1.Ok? && db.nextId !in db.bookings
    ensures var slot := CreateSlot(NewBooking(db.resources[id], id, user, start, end), user);
            var s := System(db.bookings, db.blocks, map[], map[], home, db.nextId);
            Run(s, [Begin(0, id, [slot]), Lock(0), Check(0, now), Write(0), Commit(0)]).committed
            == Create(db, user, id, start, end, now).0.bookings
  {
    CheckedCreate(db, user, id, start, end, now);
    var row := NewBooking(db.resources[id], id, user, start, end);
    var displaced := CheckCreate(db, user, id, start, end, now).value;
    UncontendedRun(System(db.bookings, db.blocks, map[], map[], home, db.nextId), CreateSlot(row, user), displaced,
                   now);
    WrittenIsPlaced(db.bookings, db.nextId, row, displaced);
  }

  lemma WrittenIsPlaced(bookings: Bookings, id: nat, row: Booking, displaced: set<nat>)
    requires id !in bookings && displaced <= bookings.Keys
    ensures bookings + Written(bookings, map[], id, row, displaced)
         == CancelAll(bookings[id := row], displaced, row.user, DisplacedByPriority)
  {
  }

  lemma RunUnfolds(s: System, a: Action, rest: seq<Action>)
    ensures Run(s, [a] + rest) == Run(Next(s, a), rest)
  {
    assert ([a] + rest)[1..] == rest;
  }

  lemma RunOfOne(s: System, a: Action)
    ensures Run(s, [a]) == Next(s, a)
  {
    assert [a] == [a] + [];
    RunUnfolds(s, a, []);
  }

  lemma FiveSteps(s: System, a: Action, b: Action, c: Action, d: Action, e: Action)
    ensures Run(s, [a, b, c, d, e]) == Next(Next(Next(Next(Next(s, a), b), c), d), e)
  {
    var s1 := Next(s, a);
    var s2 := Next(s1, b);
    var s3 := Next(s2, c);
    RunUnfolds(s, a, [b, c, d, e]);
    RunUnfolds(s1, b, [c, d, e]);
    RunUnfolds(s2, c, [d, e]);
    RunUnfolds(s3, d, [e]);
    RunOfOne(Next(s3, d), e);
    assert [a, b, c, d, e] == [a] + [b, c, d, e] && [b, c, d, e] == [b] + [c, d, e];
    assert [c, d, e] == [c] + [d, e] && [d, e] == [d] + [e];
  }

  /** The five steps by way of the states after the lock and after the check. */
  lemma FiveStepsBy(s: System, locked: System, checked: System, after: System,
                    a: Action, b: Action, c: Action, d: Action, e: Action)
    requires Next(Next(s, a), b) == locked && Next(locked, c) == checked && Next(Next(checked, d), e) == after
    ensures Run(s, [a, b, c, d, e]) == after
  {
    FiveSteps(s, a, b, c, d, e);
  }
}
