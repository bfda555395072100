/** Blocks are inserted without the resource lock: what that leaves true of bookings and blocks. */
module BlockRace {
  import opened Options
  import opened BookingModel
  import opened Allocator
  import opened LockProtocol

  /** No view shows a booking under a block, and no checked slot is blocked. */
  ghost predicate Clear(s: System) {
    && ClearOfBlocks(s.committed, s.blocks)
    && forall t :: t in s.txns ==> TxnClear(s, s.txns[t])
  }

  ghost predicate TxnClear(s: System, x: Txn) {
    && (x.locked ==> ClearOfBlocks(s.committed + x.pending, s.blocks))
    && (x.verdict.Some? && x.todo != [] ==>
          !Blocked(s.blocks, x.todo[0].row.resource, x.todo[0].row.start, x.todo[0].row.end))
  }

  /** Every block request of the run finds its resource unlocked, and keeps others from locking it until it is
      published. */
  ghost predicate BlocksWait(s: System, actions: seq<Action>)
    decreases |actions|
  {
    actions == [] || (Waits(s, actions[0]) && BlocksWait(Next(s, actions[0]), actions[1..]))
  }

  ghost predicate Waits(s: System, a: Action) {
    && (a.Select? ==> !Held(s, a.resource))
    && (a.Lock? && a.t in s.txns ==> forall b :: b in s.blocking ==> s.blocking[b].resource != s.txns[a.t].resource)
  }

  lemma WritingStaysClear(committed: Bookings, pending: Bookings, blocks: Blocks, id: nat, row: Booking,
                          displaced: set<nat>)
    requires ClearOfBlocks(committed + pending, blocks) && !Blocked(blocks, row.resource, row.start, row.end)
    ensures ClearOfBlocks(committed + Written(committed + pending, pending, id, row, displaced), blocks)
  {
    WrittenView(committed, pending, id, row, displaced);
  }

  lemma WriteKeepsClear(s: System, t: nat)
    requires Inv(s) && Clear(s)
    ensures Clear(WriteStep(s, t))
  {
    var after := WriteStep(s, t);
    if after != s {
      WriteIsActed(s, t);
      assert TxnClear(s, s.txns[t]) && TxnOk(s, s.txns[t]) && SlotOk(s, s.txns[t], s.txns[t].todo[0]);
      ActedIsClear(s, after, s.txns[t]);
      forall u | u in after.txns
        ensures TxnClear(after, after.txns[u])
      {
        if u != t {
          OthersUnwritten(s, t, u);
          assert TxnClear(s, s.txns[u]);
        }
      }
    }
  }

  lemma ActedIsClear(s: System, after: System, x: Txn)
    requires TxnClear(s, x) && x.todo != [] && x.verdict.Some?
    requires after.committed == s.committed && after.blocks == s.blocks
    ensures TxnClear(after, Acted(s.committed, x, s.nextId))
  {
    var (slot, y) := (x.todo[0], Acted(s.committed, x, s.nextId));
    if x.locked && y.pending != x.pending {
      var id := if slot.target.Some? then slot.target.value else s.nextId;
      WritingStaysClear(s.committed, x.pending, s.blocks, id, slot.row, x.verdict.value);
    }
  }

  lemma CheckKeepsClear(s: System, t: nat, now: int)
    requires Inv(s) && Clear(s)
    ensures Clear(CheckStep(s, t, now))
  {
    var after := CheckStep(s, t, now);
    CheckShape(s, t, now);
    forall u | u in after.txns
      ensures TxnClear(after, after.txns[u])
    {
      assert TxnClear(s, s.txns[u]);
      if u == t {
        CheckKeepsTxnClear(s, t, now);
      }
    }
  }

  lemma CheckShape(s: System, t: nat, now: int)
    ensures var after := CheckStep(s, t, now);
      && after.committed == s.committed && after.blocks == s.blocks
      && (forall u :: u in after.txns ==> u in s.txns && (u != t ==> after.txns[u] == s.txns[u]))
  {
  }

  lemma CheckKeepsTxnClear(s: System, t: nat, now: int)
    requires Inv(s) && t in s.txns && TxnClear(s, s.txns[t]) && t in CheckStep(s, t, now).txns
    ensures TxnClear(CheckStep(s, t, now), CheckStep(s, t, now).txns[t])
  {
    if CheckStep(s, t, now) != s {
      var x := s.txns[t];
      assert TxnOk(s, x) && SlotOk(s, x, x.todo[0]);
      var row := x.todo[0].row;
      NoConflictsMeaning(Visible(s, t), s.blocks, x.resource, row.start, row.end, x.todo[0].target, x.todo[0].claimant,
                         now);
    }
  }

  lemma CommitKeepsClear(s: System, t: nat)
    requires Inv(s) && Clear(s)
    ensures Clear(Next(s, Commit(t)))
  {
    var after := Next(s, Commit(t));
    if after != s {
      var x := s.txns[t];
      assert TxnOk(s, x) && TxnClear(s, x);
      forall u | u in after.txns
        ensures TxnClear(after, after.txns[u])
      {
        var y := s.txns[u];
        assert TxnOk(s, y) && TxnClear(s, y);
        forall k | k in after.committed + y.pending
          ensures var row := (after.committed + y.pending)[k];
                  (k in Visible(s, u) && Visible(s, u)[k] == row) || (k in Visible(s, t) && Visible(s, t)[k] == row)
        {
        }
      }
    }
  }

  /** The row is confirmed and meets the interval on the resource. */
  predicate Under(row: Booking, resource: nat, start: int, end: int) {
    row.status.Confirmed? && row.resource == resource && Meets(row.start, row.end, start, end)
  }

  /** Every row that stands under the block when it is published was selected to be cancelled. */
  predicate Swept(s: System, q: BlockRequest) {
    forall k :: k in s.committed && Under(s.committed[k], q.resource, q.start, q.end) ==> k in q.hits
  }

  /** No transaction has written, or has checked and may still write, a row that the block meets. */
  ghost predicate Missed(s: System, resource: nat, start: int, end: int) {
    forall t :: t in s.txns ==> MissedBy(s.txns[t], resource, start, end)
  }

  ghost predicate MissedBy(x: Txn, resource: nat, start: int, end: int) {
    && (forall k :: k in x.pending ==> !Under(x.pending[k], resource, start, end))
    && (x.verdict.Some? && x.todo != [] && x.todo[0].row.resource == resource
        ==> !Meets(x.todo[0].row.start, x.todo[0].row.end, start, end))
  }

  lemma PublishingKeepsClear(s: System, q: BlockRequest)
    requires Inv(s) && Clear(s) && Swept(s, q) && Missed(s, q.resource, q.start, q.end)
    ensures Clear(Published(s, q))
  {
    var after := Published(s, q);
    PublishedTable(s, q);
    forall u | u in after.txns
      ensures TxnClear(after, after.txns[u])
    {
      PublishingKeepsTxnClear(s, s.txns[u], q);
    }
  }

  lemma PublishingKeepsTxnClear(s: System, y: Txn, q: BlockRequest)
    requires ClearOfBlocks(s.committed, s.blocks) && TxnClear(s, y) && Swept(s, q)
    requires MissedBy(y, q.resource, q.start, q.end)
    ensures TxnClear(Published(s, q), y)
  {
    var after := Published(s, q);
    if y.locked {
      PublishedTable(s, q);
      PendingIsClear(s.committed, y.pending, s.blocks);
      PendingMissesBlock(s, after, y.pending, q);
      UnionIsClear(after.committed, y.pending, after.blocks);
    }
  }

  lemma PendingMissesBlock(s: System, after: System, pending: Bookings, q: BlockRequest)
    requires after.blocks == s.blocks[s.nextId := Block(q.resource, q.start, q.end)] && ClearOfBlocks(pending, s.blocks)
    requires forall k :: k in pending ==> !Under(pending[k], q.resource, q.start, q.end)
    ensures ClearOfBlocks(pending, after.blocks)
  {
  }

  /** As soon as the block is published: a confirmed booking stands under it exactly when one did that had not been
      selected. */
  lemma PublishedTable(s: System, q: BlockRequest)
    requires ClearOfBlocks(s.committed, s.blocks)
    ensures var after := Published(s, q); ClearOfBlocks(after.committed, after.blocks) <==> Swept(s, q)
  {
    var after := Published(s, q);
    forall k | k in after.committed && after.committed[k].status.Confirmed?
      ensures k !in q.hits && s.committed[k] == after.committed[k]
    {
    }
    if !Swept(s, q) {
      var k :| k in s.committed && Under(s.committed[k], q.resource, q.start, q.end) && k !in q.hits;
      assert after.committed[k] == s.committed[k];
      assert after.blocks[s.nextId] == Block(q.resource, q.start, q.end);
    }
  }

  lemma PendingIsClear(committed: Bookings, pending: Bookings, blocks: Blocks)
    requires ClearOfBlocks(committed + pending, blocks)
    ensures ClearOfBlocks(pending, blocks)
  {
    assert forall k :: k in pending ==> (committed + pending)[k] == pending[k];
  }

  lemma UnionIsClear(committed: Bookings, pending: Bookings, blocks: Blocks)
    requires ClearOfBlocks(committed, blocks) && ClearOfBlocks(pending, blocks)
    ensures ClearOfBlocks(committed + pending, blocks)
  {
  }

  lemma TableStepKeepsClear(s: System, after: System)
    requires Clear(s) && after.txns == s.txns && after.blocks == s.blocks && Shrinks(s.committed, after.committed)
    ensures Clear(after)
  {
    ShrinkingIsSafe(s.committed, after.committed, s.blocks);
    forall u | u in after.txns
      ensures TxnClear(after, after.txns[u])
    {
      assert TxnClear(s, s.txns[u]);
      assert Shrinks(s.committed + s.txns[u].pending, after.committed + s.txns[u].pending);
      ShrinkingIsSafe(s.committed + s.txns[u].pending, after.committed + s.txns[u].pending, s.blocks);
    }
  }

  lemma OtherStepKeepsClear(s: System, a: Action)
    requires Inv(s) && Clear(s) && (a.Begin? || a.Lock? || a.Rollback? || a.Select?)
    ensures Clear(Next(s, a))
  {
    var after := Next(s, a);
    forall u | u in after.txns
      ensures (u in s.txns && after.txns[u] == s.txns[u])
              || (after.txns[u].pending == map[] && after.txns[u].verdict.None?)
    {
      TxnAfterOther(s, a, u);
    }
    NewTxnsAreClear(s, after);
  }

  lemma TxnAfterOther(s: System, a: Action, u: nat)
    requires (u in s.txns ==> TxnOk(s, s.txns[u])) && (a.Begin? || a.Lock? || a.Rollback? || a.Select?)
    requires u in Next(s, a).txns
    ensures var y := Next(s, a).txns[u];
      (u in s.txns && y == s.txns[u]) || (y.pending == map[] && y.verdict.None?)
  {
  }

  lemma NewTxnsAreClear(s: System, after: System)
    requires Clear(s) && after.committed == s.committed && after.blocks == s.blocks && after.nextId == s.nextId
    requires forall u :: u in after.txns ==>
               (u in s.txns && after.txns[u] == s.txns[u])
                   || (after.txns[u].pending == map[] && after.txns[u].verdict.None?)
    ensures Clear(after)
  {
    assert s.committed + map[] == s.committed;
    forall u | u in after.txns
      ensures TxnClear(after, after.txns[u])
    {
      assert u in s.txns ==> TxnClear(s, s.txns[u]);
    }
  }

  lemma StepKeepsClear(s: System, a: Action)
    requires Inv(s) && Clear(s) && Misses(s, a)
    ensures Clear(Next(s, a))
  {
    match a
    case Check(t, now) => CheckKeepsClear(s, t, now);
    case Write(t) => WriteKeepsClear(s, t);
    case Commit(t) => CommitKeepsClear(s, t);
    case Publish(b) =>
      if b in s.blocking {
        PublishingKeepsClear(s, s.blocking[b]);
        assert forall u :: u in s.txns ==> TxnClear(Published(s, s.blocking[b]), s.txns[u]);
      }
    case Close(id, status) => TableStepKeepsClear(s, Next(s, a));
    case Remove(id) => TableStepKeepsClear(s, Next(s, a));
    case _ => OtherStepKeepsClear(s, a);
  }

  /** A block that is published has swept the table and misses what the open transactions have written or checked. */
  ghost predicate Misses(s: System, a: Action) {
    a.Publish? && a.b in s.blocking ==>
      var q := s.blocking[a.b]; Swept(s, q) && Missed(s, q.resource, q.start, q.end)
  }

  ghost predicate BlocksMiss(s: System, actions: seq<Action>)
    decreases |actions|
  {
    actions == [] || (Misses(s, actions[0]) && BlocksMiss(Next(s, actions[0]), actions[1..]))
  }

  lemma {:induction false} RunKeepsClear(s: System, actions: seq<Action>)
    requires Inv(s) && Clear(s) && BlocksMiss(s, actions)
    ensures Clear(Run(s, actions))
    decreases |actions|
  {
    if actions == [] {
    } else {
      StepKeeps(s, actions[0]);
      StepKeepsClear(s, actions[0]);
      RunKeepsClear(Next(s, actions[0]), actions[1..]);
    }
  }

  /** A block that finds the resource unlocked misses every transaction. */
  lemma WaitingMisses(s: System, resource: nat, start: int, end: int)
    requires Inv(s) && !Held(s, resource)
    ensures Missed(s, resource, start, end)
  {
    forall t | t in s.txns
      ensures MissedBy(s.txns[t], resource, start, end)
    {
      var x := s.txns[t];
      assert TxnOk(s, x);
      if x.verdict.Some? {
        assert SlotOk(s, x, x.todo[0]);
      }
    }
  }

  /** The resource of every block request under way is unlocked, and the request has swept it. */
  ghost predicate Guarded(s: System) {
    forall b :: b in s.blocking ==> !Held(s, s.blocking[b].resource) && Swept(s, s.blocking[b])
  }

  /** Rows come under a block by commits alone. */
  lemma StepStaysSwept(s: System, a: Action, q: BlockRequest)
    requires Swept(s, q)
    requires a.Commit? && a.t in s.txns ==>
               forall k :: k in s.txns[a.t].pending ==> !Under(s.txns[a.t].pending[k], q.resource, q.start, q.end)
    ensures Swept(Next(s, a), q)
  {
    var after := Next(s, a);
    if a.Commit? && after != s {
      forall k | k in after.committed && Under(after.committed[k], q.resource, q.start, q.end)
        ensures k in q.hits
      {
        assert k !in s.txns[a.t].pending;
      }
    }
  }

  /** Only a grant of the lock makes a resource held. */
  lemma StepHolds(s: System, a: Action, resource: nat)
    requires !Held(s, resource) && Held(Next(s, a), resource)
    ensures a.Lock? && a.t in s.txns && s.txns[a.t].resource == resource
  {
    var t :| t in Next(s, a).txns && Next(s, a).txns[t].locked && Next(s, a).txns[t].resource == resource;
    assert t in s.txns ==> !(s.txns[t].locked && s.txns[t].resource == resource);
  }

  lemma StepStaysGuarded(s: System, a: Action)
    requires Inv(s) && Guarded(s) && Waits(s, a)
    ensures Guarded(Next(s, a))
  {
    var after := Next(s, a);
    forall b | b in after.blocking
      ensures !Held(after, after.blocking[b].resource) && Swept(after, after.blocking[b])
    {
      if b in s.blocking {
        RequestStaysGuarded(s, a, b);
      } else {
        assert a.Select?;
        SelectingSweeps(s, b, a.resource, a.start, a.end);
      }
    }
  }

  lemma RequestStaysGuarded(s: System, a: Action, b: nat)
    requires Inv(s) && b in s.blocking && Waits(s, a)
    requires !Held(s, s.blocking[b].resource) && Swept(s, s.blocking[b])
    ensures !Held(Next(s, a), s.blocking[b].resource) && Swept(Next(s, a), s.blocking[b])
    ensures b in Next(s, a).blocking ==> Next(s, a).blocking[b] == s.blocking[b]
  {
    var q := s.blocking[b];
    if Held(Next(s, a), q.resource) {
      StepHolds(s, a, q.resource);
    }
    if a.Commit? && a.t in s.txns {
      UnheldCommitMisses(s, a.t, q);
    }
    StepStaysSwept(s, a, q);
  }

  lemma UnheldCommitMisses(s: System, t: nat, q: BlockRequest)
    requires Inv(s) && t in s.txns && !Held(s, q.resource)
    ensures forall k :: k in s.txns[t].pending ==> !Under(s.txns[t].pending[k], q.resource, q.start, q.end)
  {
    assert TxnOk(s, s.txns[t]);
  }

  lemma {:induction false} WaitingRunMisses(s: System, actions: seq<Action>)
    requires Inv(s) && Guarded(s) && BlocksWait(s, actions)
    ensures BlocksMiss(s, actions)
    decreases |actions|
  {
    if actions == [] {
    } else {
      var a := actions[0];
      if a.Publish? && a.b in s.blocking {
        WaitingMisses(s, s.blocking[a.b].resource, s.blocking[a.b].start, s.blocking[a.b].end);
      }
      StepKeeps(s, a);
      StepStaysGuarded(s, a);
      WaitingRunMisses(Next(s, a), actions[1..]);
    }
  }

  /** If every block is published over rows that it selected, and misses the rows that open transactions have written
      or checked, no interleaving leaves a confirmed booking under a block. */
  lemma MissingBlocksAreRespected(actions: seq<Action>)
    requires BlocksMiss(Idle(), actions)
    ensures ClearOfBlocks(Run(Idle(), actions).committed, Run(Idle(), actions).blocks)
  {
    RunKeepsClear(Idle(), actions);
  }

  /** In particular so if block requests waited for the resource lock and held it to their end. */
  lemma WaitingBlocksAreRespected(actions: seq<Action>)
    requires BlocksWait(Idle(), actions)
    ensures ClearOfBlocks(Run(Idle(), actions).committed, Run(Idle(), actions).blocks)
  {
    WaitingRunMisses(Idle(), actions);
    RunKeepsClear(Idle(), actions);
  }

  // ---------- a block that does not wait ----------

  /** A transaction of one of the three kinds, at any point: a create or a time change has a single slot; a
      recurring run has any number of slots that displace nothing and rewrite nothing. */
  ghost predicate OneOfThree(x: Txn) {
    || x.todo == []
    || (|x.todo| == 1 && x.pending == map[])
    || ((forall i :: 0 <= i < |x.todo| ==> Quiet(x.todo[i])) && (x.verdict.Some? ==> x.verdict.value == {}))
  }

  predicate Quiet(slot: Slot) {
    slot.target.None? && slot.claimant.None?
  }

  predicate Own(a: Action, t: nat) {
    a == Lock(t) || (a.Check? && a.t == t) || a == Write(t)
  }

  /** The transaction has passed a check and its next write inserts or rewrites a row. */
  predicate WillWrite(s: System, x: Txn) {
    && x.verdict.Some? && x.todo != []
    && !Finds(s.committed + x.pending, x.todo[0])
  }

  /** The block meets a confirmed row that the transaction has written, or has checked and will write. */
  predicate Exposed(s: System, x: Txn, resource: nat, start: int, end: int) {
    || (exists k :: k in x.pending && Under(x.pending[k], resource, start, end))
    || (WillWrite(s, x) && Under(x.todo[0].row, resource, start, end))
  }

  /** Nothing the transaction has written or will write after its check is under a block. */
  ghost predicate Safe(s: System, t: nat) {
    && t in s.txns && ClearOfBlocks(s.committed, s.blocks) && ClearOfBlocks(s.txns[t].pending, s.blocks)
    && var x := s.txns[t];
       WillWrite(s, x) && x.todo[0].row.status.Confirmed? ==>
         !Blocked(s.blocks, x.todo[0].row.resource, x.todo[0].row.start, x.todo[0].row.end)
  }

  /** The transaction is exposed to the block `b`. */
  ghost predicate Caught(s: System, t: nat, b: nat) {
    && t in s.txns && b in s.blocks
    && Exposed(s, s.txns[t], s.blocks[b].resource, s.blocks[b].start, s.blocks[b].end)
  }

  lemma WrittenIsClear(visible: Bookings, pending: Bookings, blocks: Blocks, id: nat, row: Booking, displaced: set<nat>)
    requires ClearOfBlocks(pending, blocks)
    requires row.status.Confirmed? ==> !Blocked(blocks, row.resource, row.start, row.end)
    ensures ClearOfBlocks(Written(visible, pending, id, row, displaced), blocks)
  {
    var after := Written(visible, pending, id, row, displaced);
    forall k | k in after && after[k].status.Confirmed?
      ensures k == id || (k in pending && after[k] == pending[k])
    {
    }
  }

  lemma CheckStaysSafe(s: System, t: nat, now: int)
    requires Inv(s) && Safe(s, t) && t in CheckStep(s, t, now).txns
    ensures Safe(CheckStep(s, t, now), t)
  {
    var (x, after) := (s.txns[t], CheckStep(s, t, now));
    if after != s {
      assert TxnOk(s, x) && SlotOk(s, x, x.todo[0]);
      var slot := x.todo[0];
      NoConflictsMeaning(Visible(s, t), s.blocks, x.resource, slot.row.start, slot.row.end, slot.target, slot.claimant,
                         now);
    }
  }

  lemma WriteStaysSafe(s: System, t: nat)
    requires Safe(s, t)
    ensures Safe(WriteStep(s, t), t)
  {
    var x := s.txns[t];
    if WillWrite(s, x) {
      var slot := x.todo[0];
      var id := if slot.target.Some? then slot.target.value else s.nextId;
      WrittenIsClear(Visible(s, t), x.pending, s.blocks, id, slot.row, x.verdict.value);
    }
  }

  lemma CheckStaysCaught(s: System, t: nat, now: int, b: nat)
    requires Caught(s, t, b) && OneOfThree(s.txns[t]) && t in CheckStep(s, t, now).txns
    ensures Caught(CheckStep(s, t, now), t, b) && OneOfThree(CheckStep(s, t, now).txns[t])
  {
    var (x, after) := (s.txns[t], CheckStep(s, t, now));
    if after != s {
      var slot := x.todo[0];
      NoConflictsMeaning(Visible(s, t), s.blocks, x.resource, slot.row.start, slot.row.end, slot.target, slot.claimant,
                         now);
      var k :| k in x.pending && Under(x.pending[k], s.blocks[b].resource, s.blocks[b].start, s.blocks[b].end);
      assert Quiet(slot);
      assert after.txns[t].pending == x.pending;
    }
  }

  lemma WriteIsActed(s: System, t: nat)
    requires t in s.txns && s.txns[t].todo != [] && s.txns[t].verdict.Some?
    ensures var after := WriteStep(s, t);
      && t in after.txns && after.txns[t] == Acted(s.committed, s.txns[t], s.nextId)
      && after.blocks == s.blocks && after.committed == s.committed
  {
  }

  lemma ActedWritesRow(committed: Bookings, x: Txn, newId: nat)
    requires x.todo != [] && x.verdict.Some? && !Finds(committed + x.pending, x.todo[0])
    ensures var y := Acted(committed, x, newId); exists k :: k in y.pending && y.pending[k] == x.todo[0].row
  {
    var id := if x.todo[0].target.Some? then x.todo[0].target.value else newId;
    assert Acted(committed, x, newId).pending[id] == x.todo[0].row;
  }

  /** Of a transaction that has written already, a further write leaves the rows as they are. */
  lemma ActedKeepsRow(committed: Bookings, x: Txn, newId: nat, k: nat)
    requires x.todo != [] && x.verdict.Some? && OneOfThree(x) && k in x.pending && k != newId
    ensures var y := Acted(committed, x, newId); k in y.pending && y.pending[k] == x.pending[k]
  {
    assert Quiet(x.todo[0]) && x.verdict.value == {};
  }

  lemma WriteStaysCaught(s: System, t: nat, b: nat)
    requires Inv(s) && Caught(s, t, b) && OneOfThree(s.txns[t])
    ensures Caught(WriteStep(s, t), t, b) && OneOfThree(WriteStep(s, t).txns[t])
  {
    var (x, block) := (s.txns[t], s.blocks[b]);
    WriteKeepsKind(s, t);
    if WriteStep(s, t) != s {
      WriteIsActed(s, t);
      if WillWrite(s, x) && Under(x.todo[0].row, block.resource, block.start, block.end) {
        ActedWritesRow(s.committed, x, s.nextId);
      } else {
        var k :| k in x.pending && Under(x.pending[k], block.resource, block.start, block.end);
        assert TxnOk(s, x);
        ActedKeepsRow(s.committed, x, s.nextId, k);
      }
    }
  }

  lemma PublishingDecides(s: System, t: nat, q: BlockRequest)
    requires Inv(s) && Clear(s) && t in s.txns && Swept(s, q)
    ensures var after := Published(s, q);
      if Exposed(s, s.txns[t], q.resource, q.start, q.end) then Caught(after, t, s.nextId) else Safe(after, t)
  {
    var (x, after) := (s.txns[t], Published(s, q));
    assert TxnOk(s, x) && TxnClear(s, x);
    PublishedTable(s, q);
    if x.todo != [] {
      CancellingKeepsSameRow(s.committed, x.pending, q.hits, x.todo[0].row);
    }
    if !Exposed(s, x, q.resource, q.start, q.end) {
      if x.locked {
        PendingIsClear(s.committed, x.pending, s.blocks);
      }
      PendingMissesBlock(s, after, x.pending, q);
    }
  }

  lemma CancellingKeepsSameRow(committed: Bookings, pending: Bookings, ids: set<nat>, row: Booking)
    ensures SameRow(CancelAll(committed, ids, 0, ResourceBlocked) + pending, row) == SameRow(committed + pending, row)
  {
  }

  /** A transaction that has ended does not come back by its own steps. */
  lemma {:induction false} EndedStaysAway(s: System, t: nat, rest: seq<Action>)
    requires t !in s.txns && forall i :: 0 <= i < |rest| ==> Own(rest[i], t)
    ensures t !in Run(s, rest).txns
    decreases |rest|
  {
    if rest == [] {
    } else {
      assert Own(rest[0], t) && Next(s, rest[0]) == s;
      EndedStaysAway(s, t, rest[1..]);
    }
  }

  lemma {:induction false} OwnRunStaysSafe(s: System, t: nat, rest: seq<Action>)
    requires Inv(s) && Safe(s, t) && t in Run(s, rest).txns && forall i :: 0 <= i < |rest| ==> Own(rest[i], t)
    ensures Safe(Run(s, rest), t)
    decreases |rest|
  {
    if rest == [] {
    } else {
      var (a, next) := (rest[0], Next(s, rest[0]));
      assert Own(a, t);
      if t !in next.txns {
        EndedStaysAway(next, t, rest[1..]);
      }
      StepKeeps(s, a);
      match a {
        case Lock(_) => LockStaysSafe(s, t);
        case Check(_, now) => CheckStaysSafe(s, t, now);
        case Write(_) => WriteStaysSafe(s, t);
      }
      OwnRunStaysSafe(next, t, rest[1..]);
    }
  }

  lemma LockStaysSafe(s: System, t: nat)
    requires Safe(s, t)
    ensures Safe(Next(s, Lock(t)), t)
  {
  }

  lemma LockStaysCaught(s: System, t: nat, b: nat)
    requires Caught(s, t, b) && OneOfThree(s.txns[t])
    ensures Caught(Next(s, Lock(t)), t, b) && OneOfThree(Next(s, Lock(t)).txns[t])
  {
  }

  lemma {:induction false} OwnRunStaysCaught(s: System, t: nat, b: nat, rest: seq<Action>)
    requires Inv(s) && Caught(s, t, b) && OneOfThree(s.txns[t])
    requires t in Run(s, rest).txns && forall i :: 0 <= i < |rest| ==> Own(rest[i], t)
    ensures Inv(Run(s, rest)) && Caught(Run(s, rest), t, b)
    decreases |rest|
  {
    if rest == [] {
    } else {
      var (a, next) := (rest[0], Next(s, rest[0]));
      assert Own(a, t);
      if t !in next.txns {
        EndedStaysAway(next, t, rest[1..]);
      }
      StepKeeps(s, a);
      match a {
        case Lock(_) => LockStaysCaught(s, t, b);
        case Check(_, now) => CheckStaysCaught(s, t, now, b);
        case Write(_) => WriteStaysCaught(s, t, b);
      }
      OwnRunStaysCaught(next, t, b, rest[1..]);
    }
  }

  lemma SafeRunIsClear(s: System, t: nat, rest: seq<Action>)
    requires Inv(s) && Safe(s, t) && forall i :: 0 <= i < |rest| ==> Own(rest[i], t)
    requires ReadyToCommit(Run(s, rest), t)
    ensures var after := Next(Run(s, rest), Commit(t)); ClearOfBlocks(after.committed, after.blocks)
  {
    OwnRunStaysSafe(s, t, rest);
    SafeIsClear(Run(s, rest), t);
  }

  lemma CaughtRunIsNotClear(s: System, t: nat, b: nat, rest: seq<Action>)
    requires Inv(s) && Caught(s, t, b) && OneOfThree(s.txns[t]) && forall i :: 0 <= i < |rest| ==> Own(rest[i], t)
    requires ReadyToCommit(Run(s, rest), t)
    ensures var after := Next(Run(s, rest), Commit(t)); !ClearOfBlocks(after.committed, after.blocks)
  {
    OwnRunStaysCaught(s, t, b, rest);
    CaughtIsNotClear(Run(s, rest), t, b);
  }

  predicate ReadyToCommit(s: System, t: nat) {
    t in s.txns && s.txns[t].locked && s.txns[t].todo == []
  }

  /** No committed confirmed booking stands under a committed block. */
  ghost predicate ShowsClear(s: System) {
    ClearOfBlocks(s.committed, s.blocks)
  }

  lemma PublishedShows(s: System, b: nat)
    requires ShowsClear(s) && b in s.blocking
    ensures ShowsClear(Next(s, Publish(b))) <==> Swept(s, s.blocking[b])
  {
    PublishedTable(s, s.blocking[b]);
  }

  /** The block request does not wait. Let it be published at any point of a transaction of any of the three kinds,
      which then goes on to its commit. A confirmed booking stands under the block, at its publication or after the
      commit, exactly when one that was not selected did at the publication, or the block meets a row that the
      transaction had written, or had checked and was going to write. */
  lemma BlockInsideTransaction(s: System, t: nat, b: nat, rest: seq<Action>)
    requires Inv(s) && Clear(s) && t in s.txns && OneOfThree(s.txns[t]) && b in s.blocking
    requires forall i :: 0 <= i < |rest| ==> Own(rest[i], t)
    requires ReadyToCommit(Run(Next(s, Publish(b)), rest), t)
    ensures var (q, published) := (s.blocking[b], Next(s, Publish(b)));
      var after := Next(Run(published, rest), Commit(t));
      (ShowsClear(published) && ShowsClear(after))
      <==> (Swept(s, q) && !Exposed(s, s.txns[t], q.resource, q.start, q.end))
  {
    PublishedShows(s, b);
    if Swept(s, s.blocking[b]) {
      SweptBlockDecides(s, t, b, rest);
    }
  }

  lemma SweptBlockDecides(s: System, t: nat, b: nat, rest: seq<Action>)
    requires Inv(s) && Clear(s) && t in s.txns && OneOfThree(s.txns[t]) && b in s.blocking && Swept(s, s.blocking[b])
    requires forall i :: 0 <= i < |rest| ==> Own(rest[i], t)
    requires ReadyToCommit(Run(Next(s, Publish(b)), rest), t)
    ensures var (q, after) := (s.blocking[b], Next(Run(Next(s, Publish(b)), rest), Commit(t)));
      ShowsClear(after) <==> !Exposed(s, s.txns[t], q.resource, q.start, q.end)
  {
    var (q, published) := (s.blocking[b], Next(s, Publish(b)));
    BlockStepKeeps(s, t, b);
    if Exposed(s, s.txns[t], q.resource, q.start, q.end) {
      CaughtRunIsNotClear(published, t, s.nextId, rest);
    } else {
      SafeRunIsClear(published, t, rest);
    }
  }

  lemma BlockStepKeeps(s: System, t: nat, b: nat)
    requires Inv(s) && Clear(s) && t in s.txns && b in s.blocking && Swept(s, s.blocking[b])
    ensures var (q, after) := (s.blocking[b], Next(s, Publish(b)));
      && Inv(after) && t in after.txns && after.txns[t] == s.txns[t]
      && (if Exposed(s, s.txns[t], q.resource, q.start, q.end) then Caught(after, t, s.nextId) else Safe(after, t))
  {
    StepKeeps(s, Publish(b));
    PublishingDecides(s, t, s.blocking[b]);
  }

  /** No transaction that commits in the run has written a row that the block meets. */
  ghost predicate CommitsMiss(s: System, actions: seq<Action>, q: BlockRequest)
    decreases |actions|
  {
    actions == [] ||
    ((actions[0].Commit? && actions[0].t in s.txns ==>
        var pending := s.txns[actions[0].t].pending;
        forall k :: k in pending ==> !Under(pending[k], q.resource, q.start, q.end))
     && CommitsMiss(Next(s, actions[0]), actions[1..], q))
  }

  /** What a request selects stays all there is unless a transaction commits a row under the block before it is
      published. */
  lemma {:induction false} SelectionStaysSwept(s: System, actions: seq<Action>, q: BlockRequest)
    requires Swept(s, q) && CommitsMiss(s, actions, q)
    ensures Swept(Run(s, actions), q)
    decreases |actions|
  {
    if actions == [] {
    } else {
      StepStaysSwept(s, actions[0], q);
      SelectionStaysSwept(Next(s, actions[0]), actions[1..], q);
    }
  }

  lemma SelectingSweeps(s: System, b: nat, resource: nat, start: int, end: int)
    requires b !in s.blocking
    ensures var after := Next(s, Select(b, resource, start, end));
      b in after.blocking && Swept(after, after.blocking[b])
  {
    var hits := Overlapping(s.committed, resource, start, end);
    assert forall k :: k in s.committed && Under(s.committed[k], resource, start, end) ==> k in hits;
  }

  lemma SafeIsClear(s: System, t: nat)
    requires Safe(s, t) && s.txns[t].locked && s.txns[t].todo == []
    ensures var after := Next(s, Commit(t)); ClearOfBlocks(after.committed, after.blocks)
  {
    UnionIsClear(s.committed, s.txns[t].pending, s.blocks);
  }

  lemma CaughtIsNotClear(s: System, t: nat, b: nat)
    requires Caught(s, t, b) && s.txns[t].locked && s.txns[t].todo == []
    ensures var after := Next(s, Commit(t)); !ClearOfBlocks(after.committed, after.blocks)
  {
    var (x, block, after) := (s.txns[t], s.blocks[b], Next(s, Commit(t)));
    var k :| k in x.pending && Under(x.pending[k], block.resource, block.start, block.end);
    assert after.committed[k] == x.pending[k] && after.blocks[b] == block;
  }

  /** The slots of a request. */
  ghost predicate RequestSlots(slots: seq<Slot>) {
    |slots| == 1 || forall i :: 0 <= i < |slots| ==> Quiet(slots[i])
  }

  /** Begun with such slots, a transaction is of one of the three kinds in every state of every run. */
  lemma {:induction false} KindsStay(s: System, actions: seq<Action>)
    requires forall t :: t in s.txns ==> OneOfThree(s.txns[t])
    requires forall i :: 0 <= i < |actions| && actions[i].Begin? ==> RequestSlots(actions[i].slots)
    ensures forall t :: t in Run(s, actions).txns ==> OneOfThree(Run(s, actions).txns[t])
    decreases |actions|
  {
    if actions == [] {
    } else {
      var next := Next(s, actions[0]);
      forall t | t in next.txns
        ensures OneOfThree(next.txns[t])
      {
        KindStays(s, actions[0], t);
      }
      KindsStay(next, actions[1..]);
    }
  }

  lemma KindStays(s: System, a: Action, t: nat)
    requires t in Next(s, a).txns && (t in s.txns ==> OneOfThree(s.txns[t]))
    requires a.Begin? ==> RequestSlots(a.slots)
    ensures OneOfThree(Next(s, a).txns[t])
  {
    if a == Write(t) {
      WriteKeepsKind(s, t);
    } else if a.Check? && a.t == t {
      CheckKeepsKind(s, t, a.now);
    } else {
      OtherStepKeepsKind(s, a, t);
    }
  }

  lemma OtherStepKeepsKind(s: System, a: Action, t: nat)
    requires t in Next(s, a).txns && (t in s.txns ==> OneOfThree(s.txns[t]))
    requires a.Begin? ==> RequestSlots(a.slots)
    requires a != Write(t) && !(a.Check? && a.t == t)
    ensures OneOfThree(Next(s, a).txns[t])
  {
    match a
    case Begin(u, resource, slots) =>
      if t !in s.txns {
        assert Next(s, a).txns[t] == Txn(resource, false, slots, None, map[]);
      } else {
        assert Next(s, a).txns[t] == s.txns[t];
      }
    case Lock(u) => assert Next(s, a).txns[t] == s.txns[t] || Next(s, a).txns[t] == s.txns[t].(locked := true);
    case Check(u, now) => CheckShape(s, u, now);
    case Write(u) => OthersUnwritten(s, u, t);
    case _ =>
  }

  lemma OthersUnwritten(s: System, u: nat, t: nat)
    requires t != u && t in s.txns
    ensures t in WriteStep(s, u).txns && WriteStep(s, u).txns[t] == s.txns[t]
  {
  }

  lemma WriteKeepsKind(s: System, t: nat)
    requires t in s.txns && OneOfThree(s.txns[t])
    ensures OneOfThree(WriteStep(s, t).txns[t])
  {
  }

  lemma CheckKeepsKind(s: System, t: nat, now: int)
    requires t in s.txns && OneOfThree(s.txns[t]) && t in CheckStep(s, t, now).txns
    ensures OneOfThree(CheckStep(s, t, now).txns[t])
  {
    var (x, after) := (s.txns[t], CheckStep(s, t, now));
    if after != s {
      var slot := x.todo[0];
      NoConflictsMeaning(Visible(s, t), s.blocks, x.resource, slot.row.start, slot.row.end, slot.target, slot.claimant,
                         now);
    }
  }

  /** Such a moment is reachable: a create request that has passed its check. */
  lemma RaceIsReachable(user: User, row: Booking, now: int)
    requires row.resource == 0 && row.start < row.end && row.status.Confirmed?
    ensures var s := Run(Idle(), [Begin(0, 0, [CreateSlot(row, user)]), Lock(0), Check(0, now)]);
            Inv(s) && Clear(s) && 0 in s.txns && s.txns[0].todo == [CreateSlot(row, user)]
            && s.txns[0].verdict.Some? && s.txns[0].pending == map[] && s.txns[0].locked && s.blocking == map[]
  {
    var (a, b, c) := (Begin(0, 0, [CreateSlot(row, user)]), Lock(0), Check(0, now));
    assert [a, b, c][1..] == [b, c] && [b, c][1..] == [c] && [c][1..] == [];
    var s1 := Next(Idle(), a);
    var s2 := Next(s1, b);
    var s3 := Next(s2, c);
    assert Run(s3, []) == s3 && Run(s2, [c]) == s3 && Run(s1, [b, c]) == s3;
    assert s2.txns == map[0 := Txn(0, true, [CreateSlot(row, user)], None, map[])];
    assert Overlapping(Visible(s2, 0), 0, row.start, row.end) == {};
    RunKeeps(Idle(), [a, b, c]);
    assert BlocksMiss(s3, []) && BlocksMiss(s2, [c]) && BlocksMiss(s1, [b, c]) && BlocksMiss(Idle(), [a, b, c]);
    RunKeepsClear(Idle(), [a, b, c]);
  }

  /** A block request without anything in between. */
  function AtOnce(s: System, resource: nat, start: int, end: int): System {
    Next(Next(s, Select(0, resource, start, end)), Publish(0))
  }

  /** From there the block fails at both moments: before the write, and between the write and the commit. */
  lemma BothMomentsFail(user: User, row: Booking, now: int)
    requires row.resource == 0 && row.start < row.end && row.status.Confirmed?
    ensures var checked := Run(Idle(), [Begin(0, 0, [CreateSlot(row, user)]), Lock(0), Check(0, now)]);
      var early := Next(Next(AtOnce(checked, 0, row.start, row.end), Write(0)), Commit(0));
      var late := Next(AtOnce(Next(checked, Write(0)), 0, row.start, row.end), Commit(0));
      !ClearOfBlocks(early.committed, early.blocks) && !ClearOfBlocks(late.committed, late.blocks)
  {
    var checked := Run(Idle(), [Begin(0, 0, [CreateSlot(row, user)]), Lock(0), Check(0, now)]);
    RaceIsReachable(user, row, now);
    assert TxnOk(checked, checked.txns[0]);
    assert Under(row, 0, row.start, row.end);
    EarlyBlockFails(checked, row);
    var written := Next(checked, Write(0));
    StepKeeps(checked, Write(0));
    WriteKeepsClear(checked, 0);
    assert written.txns[0].pending[checked.nextId] == row;
    LateBlockFails(written, row);
  }

  lemma EarlyBlockFails(s: System, row: Booking)
    requires Inv(s) && Clear(s) && 0 in s.txns && OneOfThree(s.txns[0]) && s.txns[0].locked && 0 !in s.blocking
    requires |s.txns[0].todo| == 1 && s.txns[0].verdict.Some?
    requires !s.txns[0].todo[0].reuse && s.txns[0].todo[0].row == row
    requires Under(row, 0, row.start, row.end)
    ensures var after := Next(Next(AtOnce(s, 0, row.start, row.end), Write(0)), Commit(0));
      !ClearOfBlocks(after.committed, after.blocks)
  {
    var selected := SelectedState(s, row);
    var published := Next(selected, Publish(0));
    RunOfOne(published, Write(0));
    assert ReadyToCommit(Next(published, Write(0)), 0);
    SweptBlockDecides(selected, 0, 0, [Write(0)]);
  }

  /** The state between the selection and the publication of a block over the row. */
  lemma SelectedState(s: System, row: Booking) returns (selected: System)
    requires Inv(s) && Clear(s) && 0 !in s.blocking
    ensures selected == Next(s, Select(0, 0, row.start, row.end))
    ensures Inv(selected) && Clear(selected) && selected.txns == s.txns && selected.committed == s.committed
    ensures 0 in selected.blocking && Swept(selected, selected.blocking[0])
    ensures var q := selected.blocking[0]; q.resource == 0 && q.start == row.start && q.end == row.end
  {
    var a := Select(0, 0, row.start, row.end);
    selected := Next(s, a);
    StepKeeps(s, a);
    StepKeepsClear(s, a);
    SelectingSweeps(s, 0, 0, row.start, row.end);
  }

  lemma LateBlockFails(s: System, row: Booking)
    requires Inv(s) && Clear(s) && ReadyToCommit(s, 0) && 0 !in s.blocking
    requires exists k :: k in s.txns[0].pending && s.txns[0].pending[k] == row
    requires Under(row, 0, row.start, row.end)
    ensures var after := Next(AtOnce(s, 0, row.start, row.end), Commit(0));
      !ClearOfBlocks(after.committed, after.blocks)
  {
    var selected := SelectedState(s, row);
    assert Run(Next(selected, Publish(0)), []) == Next(selected, Publish(0));
    SweptBlockDecides(selected, 0, 0, []);
  }

  /** And it fails with no transaction open at either end: a create that runs from its lock to its commit between the
      selection and the publication sees no block, and is not seen by it. */
  lemma CreateBetweenSelectionAndPublication(user: User, row: Booking, now: int)
    requires row.resource == 0 && row.start < row.end && row.status.Confirmed?
    ensures var selected := Next(Idle(), Select(0, 0, row.start, row.end));
      var booked := Run(selected, [Begin(0, 0, [CreateSlot(row, user)]), Lock(0), Check(0, now), Write(0), Commit(0)]);
      var published := Next(booked, Publish(0));
      && selected.txns == map[] && booked.txns == map[]
      && Missed(selected, 0, row.start, row.end) && Missed(booked, 0, row.start, row.end)
      && !ClearOfBlocks(published.committed, published.blocks)
  {
    var selected := Next(Idle(), Select(0, 0, row.start, row.end));
    assert Overlapping(map[], 0, row.start, row.end) == {};
    CreatedUnseen(selected, user, row, now);
  }

  lemma CreatedUnseen(selected: System, user: User, row: Booking, now: int)
    requires row.resource == 0 && row.start < row.end && row.status.Confirmed?
    requires selected == Idle().(blocking := map[0 := BlockRequest(0, row.start, row.end, {})])
    ensures var booked :=
        Run(selected, [Begin(0, 0, [CreateSlot(row, user)]), Lock(0), Check(0, now), Write(0), Commit(0)]);
      booked.txns == map[] && !ShowsClear(Next(booked, Publish(0)))
  {
    var slot := CreateSlot(row, user);
    var booked := Run(selected, [Begin(0, 0, [slot]), Lock(0), Check(0, now), Write(0), Commit(0)]);
    NoConflictsMeaning(map[], map[], 0, row.start, row.end, None, slot.claimant, now);
    var verdict := EnsureNoConflicts(map[], map[], 0, row.start, row.end, None, slot.claimant, now);
    assert verdict.Ok? && verdict.value == {};
    UncontendedRun(selected, slot, {}, now);
    assert booked.committed[0] == row;
    PublishedShows(booked, 0);
  }
}
