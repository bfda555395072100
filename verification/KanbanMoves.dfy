/** What renumbering and moving tasks keep, and where a moved task lands. */
module KanbanMoves {
  import opened Options
  import opened Numbering
  import opened Kanban

  predicate StrictlyBefore(a: Key, b: Key) {
    !Le(b, a)
  }

  /** Rows of both tables that were in order before are in order after. */
  ghost predicate KeepsOrder(before: Keys, after: Keys) {
    forall a, b :: a in before && b in before && a in after && b in after && StrictlyBefore(before[a], before[b])
      ==> after[a].position < after[b].position
  }

  /** A run of renumbering seen from the keys: the new positions follow an order of the old keys. */
  ghost predicate NumberedFrom(before: Keys, after: Keys) {
    exists order :: Sorts(before, order) && NumberedAlong(after, order)
  }

  lemma NumberedFromKeepsOrder(before: Keys, after: Keys)
    requires NumberedFrom(before, after)
    ensures before.Keys == after.Keys && Dense(after) && KeepsOrder(before, after)
  {
    var order :| Sorts(before, order) && NumberedAlong(after, order);
    NumberedAlongIsDense(after, order);
    forall id
      ensures id in before <==> id in after
    {
      assert id in before <==> id in order;
    }
    forall a, b | a in before && b in before && StrictlyBefore(before[a], before[b])
      ensures after[a].position < after[b].position
    {
      var i :| 0 <= i < |order| && order[i] == a;
      var j :| 0 <= j < |order| && order[j] == b;
    }
  }

  // ---------- one renumbering ----------

  /** Only positions differ. */
  ghost predicate SameButPositions(before: map<nat, Task>, after: map<nat, Task>) {
    && after.Keys == before.Keys
    && forall id :: id in before ==> after[id] == before[id].(position := after[id].position)
  }

  lemma SameActive(before: map<nat, Task>, after: map<nat, Task>, column: nat)
    requires SameButPositions(before, after)
    ensures Active(after, column) == Active(before, column)
  {
    forall id
      ensures id in Active(after, column) <==> id in Active(before, column)
    {
    }
  }

  /** From any positions, renumbering a column numbers its tasks 1..n in the order they had; nothing else changes. */
  lemma NormalisedMeaning(before: map<nat, Task>, after: map<nat, Task>, column: nat)
    requires Normalised(before, after, column)
    ensures SameButPositions(before, after)
    ensures forall id :: id in before && !Live(before, id, column) ==> after[id] == before[id]
    ensures NumberedFrom(TaskKeys(before, column), TaskKeys(after, column))
  {
    var order :| Sorts(TaskKeys(before, column), order) && Renumbered(before, after, order);
    var keys := TaskKeys(before, column);
    forall id | id in before && !Live(before, id, column)
      ensures after[id] == before[id]
    {
      assert id !in keys;
      assert id !in order;
    }
    assert TaskKeys(after, column).Keys == keys.Keys;
    forall i | 0 <= i < |order|
      ensures order[i] in TaskKeys(after, column) && TaskKeys(after, column)[order[i]].position == i + 1
    {
      assert order[i] in order;
    }
    assert NumberedAlong(TaskKeys(after, column), order);
  }

  lemma OtherColumnKeys(before: map<nat, Task>, after: map<nat, Task>, column: nat, other: nat)
    requires SameButPositions(before, after) && other != column
    requires forall id :: id in before && !Live(before, id, column) ==> after[id] == before[id]
    ensures TaskKeys(after, other) == TaskKeys(before, other)
  {
  }

  /** A column that is numbered 1..n already is left as it is. */
  lemma NormalisingTwice(before: map<nat, Task>, after: map<nat, Task>, column: nat)
    requires Normalised(before, after, column) && Dense(TaskKeys(before, column))
    ensures after == before
  {
    var order :| Sorts(TaskKeys(before, column), order) && Renumbered(before, after, order);
    DenseOrder(TaskKeys(before, column), order);
    forall id | id in before
      ensures after[id] == before[id]
    {
      if id in order {
        var i :| 0 <= i < |order| && order[i] == id;
      }
    }
  }

  // ---------- moving ----------

  /** The keys the moved task is ordered among in the target column. */
  function Entering(tasks: map<nat, Task>, id: nat, target: nat, p: nat): Keys
    requires id in tasks
  {
    TaskKeys(tasks, target)[id := Key(p, tasks[id].created)]
  }

  lemma PutKeys(tasks: map<nat, Task>, id: nat, target: nat, p: nat, column: nat)
    requires id in tasks && !tasks[id].deleted
    ensures TaskKeys(Put(tasks, id, target, p), column) ==
            if column == target then Entering(tasks, id, target, p) else TaskKeys(tasks, column) - {id}
  {
  }

  lemma SameButPositionsTwice(a: map<nat, Task>, b: map<nat, Task>, c: map<nat, Task>)
    requires SameButPositions(a, b) && SameButPositions(b, c)
    ensures SameButPositions(a, c)
  {
  }

  lemma NormalisedTwice(put: map<nat, Task>, between: map<nat, Task>, after: map<nat, Task>, source: nat, target: nat)
    requires Normalised(put, between, source) && Normalised(between, after, target)
    ensures SameButPositions(put, after)
    ensures forall t :: t in put && !Live(put, t, source) && !Live(put, t, target) ==> after[t] == put[t]
    ensures NumberedFrom(TaskKeys(put, source), TaskKeys(after, source))
    ensures NumberedFrom(TaskKeys(put, target), TaskKeys(after, target))
  {
    NormalisedMeaning(put, between, source);
    NormalisedMeaning(between, after, target);
    SameButPositionsTwice(put, between, after);
    if source == target {
      NumberedFromKeepsOrder(TaskKeys(put, target), TaskKeys(between, target));
      NormalisingTwice(between, after, target);
    } else {
      OtherColumnKeys(put, between, source, target);
      OtherColumnKeys(between, after, target, source);
    }
  }

  /** The two renumberings of a move act as one on each column. */
  ghost predicate MovedAtOnce(tasks: map<nat, Task>, id: nat, target: nat, p: nat, after: map<nat, Task>) {
    && id in tasks && SameButPositions(Put(tasks, id, target, p), after)
    && Elsewhere(tasks, id, target, after)
    && NumberedFrom(Entering(tasks, id, target, p), TaskKeys(after, target))
    && (tasks[id].column != target ==>
          NumberedFrom(TaskKeys(tasks, tasks[id].column) - {id}, TaskKeys(after, tasks[id].column)))
  }

  ghost predicate Elsewhere(tasks: map<nat, Task>, id: nat, target: nat, after: map<nat, Task>)
    requires id in tasks
  {
    forall t :: t in tasks && t != id && !Live(tasks, t, tasks[id].column) && !Live(tasks, t, target)
      ==> t in after && after[t] == tasks[t]
  }

  lemma PutElsewhere(tasks: map<nat, Task>, id: nat, target: nat, p: nat, after: map<nat, Task>)
    requires id in tasks && SameButPositions(Put(tasks, id, target, p), after)
    requires var put := Put(tasks, id, target, p);
      forall t :: t in put && !Live(put, t, tasks[id].column) && !Live(put, t, target) ==> after[t] == put[t]
    ensures Elsewhere(tasks, id, target, after)
  {
    var put := Put(tasks, id, target, p);
    forall t | t in tasks && t != id && !Live(tasks, t, tasks[id].column) && !Live(tasks, t, target)
      ensures t in after && after[t] == tasks[t]
    {
      assert put[t] == tasks[t];
    }
  }

  lemma MoveIsAtOnce(k: Tables, id: nat, target: nat, order: Option<nat>, after: Tables) returns (p: nat)
    requires CheckMove(k, id, target, order).None? && MoveStep(k, id, target, order, after)
    ensures MovePosition(k.tasks, id, target, order, p) && MovedAtOnce(k.tasks, id, target, p, after.tasks)
  {
    ghost var between;
    p, between :| Moved(k.tasks, id, target, order, p, between, after.tasks);
    var source := k.tasks[id].column;
    PutKeys(k.tasks, id, target, p, target);
    PutKeys(k.tasks, id, target, p, source);
    NormalisedTwice(Put(k.tasks, id, target, p), between, after.tasks, source, target);
    PutElsewhere(k.tasks, id, target, p, after.tasks);
  }

  /** What a successful move keeps, from any positions: the same tasks with the same contents, the moved one in the
      target column; the others in the order they had in their column; both columns numbered 1..n. */
  ghost predicate KeepsTasks(before: map<nat, Task>, after: map<nat, Task>, id: nat, target: nat) {
    && id in before && after.Keys == before.Keys
    && (forall t :: t in before ==>
         after[t] == before[t].(column := if t == id then target else before[t].column, position := after[t].position))
    && (forall t :: t in before && t != id && !Live(before, t, before[id].column) && !Live(before, t, target)
         ==> after[t] == before[t])
    && (forall column :: column == before[id].column || column == target
         ==> KeepsOrder(TaskKeys(before, column) - {id}, TaskKeys(after, column) - {id}))
    && Dense(TaskKeys(after, target)) && Dense(TaskKeys(after, before[id].column))
  }

  lemma MoveKeepsTasks(k: Tables, id: nat, target: nat, order: Option<nat>, after: Tables)
    requires CheckMove(k, id, target, order).None? && MoveStep(k, id, target, order, after)
    ensures KeepsTasks(k.tasks, after.tasks, id, target) && SameColumns(k, after)
  {
    var p := MoveIsAtOnce(k, id, target, order, after);
    MovedAtOnceKeepsTasks(k.tasks, id, target, p, after.tasks);
  }

  lemma MovedAtOnceKeepsTasks(tasks: map<nat, Task>, id: nat, target: nat, p: nat, after: map<nat, Task>)
    requires MovedAtOnce(tasks, id, target, p, after)
    ensures KeepsTasks(tasks, after, id, target)
  {
    var source := tasks[id].column;
    NumberedFromKeepsOrder(Entering(tasks, id, target, p), TaskKeys(after, target));
    if source != target {
      NumberedFromKeepsOrder(TaskKeys(tasks, source) - {id}, TaskKeys(after, source));
    }
    forall column | column == source || column == target
      ensures KeepsOrder(TaskKeys(tasks, column) - {id}, TaskKeys(after, column) - {id})
    {
      OthersKeepOrder(tasks, id, target, p, after, column);
    }
    PutThenRenumbered(tasks, id, target, p, after);
  }

  lemma PutThenRenumbered(tasks: map<nat, Task>, id: nat, target: nat, p: nat, after: map<nat, Task>)
    requires id in tasks && SameButPositions(Put(tasks, id, target, p), after)
    ensures after.Keys == tasks.Keys
    ensures forall t :: t in tasks ==>
              after[t] == tasks[t].(
                column := if t == id then target else tasks[t].column, position := after[t].position)
  {
    assert Put(tasks, id, target, p).Keys == tasks.Keys;
    forall t | t in tasks
      ensures after[t] == tasks[t].(
                column := if t == id then target else tasks[t].column, position := after[t].position)
    {
      assert t in Put(tasks, id, target, p);
    }
  }

  lemma OthersKeepOrder(tasks: map<nat, Task>, id: nat, target: nat, p: nat, after: map<nat, Task>, column: nat)
    requires MovedAtOnce(tasks, id, target, p, after) && (column == tasks[id].column || column == target)
    ensures KeepsOrder(TaskKeys(tasks, column) - {id}, TaskKeys(after, column) - {id})
  {
    var (before, now) := (TaskKeys(tasks, column) - {id}, TaskKeys(after, column) - {id});
    forall a, b | a in before && b in before && a in now && b in now && StrictlyBefore(before[a], before[b])
      ensures now[a].position < now[b].position
    {
      OthersInOrder(tasks, id, target, p, after, column, a, b);
    }
  }

  lemma OthersInOrder(tasks: map<nat, Task>, id: nat, target: nat, p: nat, after: map<nat, Task>, column: nat, a: nat,
                      b: nat)
    requires MovedAtOnce(tasks, id, target, p, after) && (column == tasks[id].column || column == target)
    requires a != id && b != id && Live(tasks, a, column) && Live(tasks, b, column)
    requires Live(after, a, column) && Live(after, b, column)
    requires StrictlyBefore(TaskKeys(tasks, column)[a], TaskKeys(tasks, column)[b])
    ensures after[a].position < after[b].position
  {
    var source := tasks[id].column;
    if column == target {
      var keys := Entering(tasks, id, target, p);
      NumberedFromKeepsOrder(keys, TaskKeys(after, target));
      assert a in keys && b in keys && StrictlyBefore(keys[a], keys[b]);
      assert a in TaskKeys(after, target) && b in TaskKeys(after, target);
    } else {
      var keys := TaskKeys(tasks, source) - {id};
      NumberedFromKeepsOrder(keys, TaskKeys(after, source));
      assert a in keys && b in keys && StrictlyBefore(keys[a], keys[b]);
      assert a in TaskKeys(after, source) && b in TaskKeys(after, source);
    }
  }

  // ---------- where the moved task lands ----------

  lemma LandsAmong(keys: Keys, after: Keys, id: nat, gap: nat)
    requires NumberedFrom(keys, after) && id in keys && Gapped(keys - {id}, gap)
    ensures id in after && LandsRight(keys - {id}, keys[id], gap, after[id].position)
  {
    var order :| Sorts(keys, order) && NumberedAlong(after, order);
    assert id in order;
    var m :| 0 <= m < |order| && order[m] == id;
    Landing(keys, order, m, gap);
  }

  lemma MoveToPlace(k: Tables, id: nat, target: nat, order: nat, after: Tables)
    requires CheckMove(k, id, target, Some(order)).None? && MoveStep(k, id, target, Some(order), after)
    ensures order >= 1 && !k.tasks[id].deleted && MovedAtOnce(k.tasks, id, target, order, after.tasks)
  {
    var p := MoveIsAtOnce(k, id, target, Some(order), after);
  }

  lemma AloneOutside(tasks: map<nat, Task>, id: nat, target: nat, p: nat)
    requires id in tasks
    ensures Entering(tasks, id, target, p) - {id} == TaskKeys(tasks, target) - {id}
    ensures tasks[id].column != target ==> Entering(tasks, id, target, p) - {id} == TaskKeys(tasks, target)
  {
    assert tasks[id].column != target ==> id !in TaskKeys(tasks, target);
  }

  lemma LandingRange(others: Keys, key: Key, gap: nat, landing: nat)
    requires LandsRight(others, key, gap, landing) && 1 <= gap <= |others| + 1 && key.position >= 1
    ensures var bound := Min(key.position, |others| + 1); bound - 1 <= landing <= bound + 1 && landing <= |others| + 1
    ensures gap == |others| + 1 ==> landing == Min(key.position, gap) || landing == Min(key.position + 1, gap)
  {
  }

  lemma EntersNumbered(tasks: map<nat, Task>, id: nat, target: nat, p: nat, after: map<nat, Task>)
    requires MovedAtOnce(tasks, id, target, p, after) && p >= 1
    requires tasks[id].column != target && Dense(TaskKeys(tasks, target))
    ensures id in after && LandsInto(TaskKeys(tasks, target), Key(p, tasks[id].created), after[id].position)
  {
    AloneOutside(tasks, id, target, p);
    DenseIsGapped(TaskKeys(tasks, target));
    var gap := |TaskKeys(tasks, target)| + 1;
    LandsAmong(Entering(tasks, id, target, p), TaskKeys(after, target), id, gap);
    LandingRange(TaskKeys(tasks, target), Key(p, tasks[id].created), gap, after[id].position);
  }

  /** The place asked for among n numbered tasks, or the one after it when a task no younger holds it. */
  ghost predicate LandsInto(others: Keys, key: Key, landing: nat) {
    var n := |others|;
    && LandsRight(others, key, n + 1, landing)
    && (landing == Min(key.position, n + 1) || landing == Min(key.position + 1, n + 1))
  }

  lemma MoveIntoNumberedColumn(k: Tables, id: nat, target: nat, order: nat, after: Tables)
    requires CheckMove(k, id, target, Some(order)).None? && MoveStep(k, id, target, Some(order), after)
    requires target != k.tasks[id].column && Dense(TaskKeys(k.tasks, target))
    ensures id in after.tasks
         && LandsInto(TaskKeys(k.tasks, target), Key(order, k.tasks[id].created), after.tasks[id].position)
  {
    MoveToPlace(k, id, target, order, after);
    EntersNumbered(k.tasks, id, target, order, after.tasks);
  }

  /** Within a column that is numbered 1..n, where leaving opens a gap at the old position. */
  ghost predicate LandsWithin(was: Keys, id: nat, order: nat, landing: nat)
    requires id in was
  {
    && LandsRight(was - {id}, Key(order, was[id].created), was[id].position, landing)
    && Min(order, |was|) - 1 <= landing <= Min(order, |was|) + 1 && landing <= |was|
  }

  lemma StaysNumbered(tasks: map<nat, Task>, id: nat, p: nat, after: map<nat, Task>)
    requires id in tasks && !tasks[id].deleted && MovedAtOnce(tasks, id, tasks[id].column, p, after) && p >= 1
    requires Dense(TaskKeys(tasks, tasks[id].column))
    ensures id in after && LandsWithin(TaskKeys(tasks, tasks[id].column), id, p, after[id].position)
  {
    var column := tasks[id].column;
    var keys := Entering(tasks, id, column, p);
    var was: Keys := TaskKeys(tasks, column);
    AloneOutside(tasks, id, column, p);
    assert id in was && was[id] == Key(tasks[id].position, tasks[id].created);
    LeavingOpensAGap(was, id);
    LandsAmong(keys, TaskKeys(after, column), id, was[id].position);
    LandingRange(was - {id}, Key(p, tasks[id].created), was[id].position, after[id].position);
  }

  lemma MoveWithinNumberedColumn(k: Tables, id: nat, order: nat, after: Tables)
    requires id in k.tasks && var column := k.tasks[id].column;
      && CheckMove(k, id, column, Some(order)).None? && MoveStep(k, id, column, Some(order), after)
      && Dense(TaskKeys(k.tasks, column))
    ensures id in after.tasks && LandsWithin(TaskKeys(k.tasks, k.tasks[id].column), id, order, after.tasks[id].position)
  {
    MoveToPlace(k, id, k.tasks[id].column, order, after);
    StaysNumbered(k.tasks, id, order, after.tasks);
  }

  lemma LeavingOpensAGap(keys: Keys, id: nat)
    requires id in keys && Dense(keys)
    ensures Gapped(keys - {id}, keys[id].position) && |keys - {id}| + 1 == |keys|
  {
    assert keys.Keys == (keys - {id}).Keys + {id};
    assert |keys.Keys| == |keys| && |(keys - {id}).Keys| == |keys - {id}|;
  }

  lemma BehindAllIsLast(keys: Keys, after: Keys, id: nat)
    requires NumberedFrom(keys, after) && id in keys
    requires forall t :: t in keys && t != id ==> keys[t].position < keys[id].position
    ensures id in after && after[id].position == |after|
  {
    var order :| Sorts(keys, order) && NumberedAlong(after, order);
    assert id in order;
    var m :| 0 <= m < |order| && order[m] == id;
    LandsLast(keys, order, m);
    ListLength(keys, order);
    ListLength(after, order);
  }

  lemma EntersLast(tasks: map<nat, Task>, id: nat, target: nat, p: nat, after: map<nat, Task>)
    requires MovedAtOnce(tasks, id, target, p, after) && IsNext(TaskKeys(tasks, target) - {id}, p)
    ensures id in after && after[id].position == |TaskKeys(after, target)|
  {
    var keys := Entering(tasks, id, target, p);
    AloneOutside(tasks, id, target, p);
    forall t | t in keys && t != id
      ensures keys[t].position < keys[id].position
    {
      assert t in keys - {id};
    }
    BehindAllIsLast(keys, TaskKeys(after, target), id);
  }

  /** Without an order the task lands last, whatever the positions were. */
  lemma MoveToTheEnd(k: Tables, id: nat, target: nat, after: Tables)
    requires CheckMove(k, id, target, None).None? && MoveStep(k, id, target, None, after)
    ensures id in after.tasks && after.tasks[id].position == |TaskKeys(after.tasks, target)|
  {
    var p := MoveIsAtOnce(k, id, target, None, after);
    EntersLast(k.tasks, id, target, p, after.tasks);
  }

  /** A row at position 0 goes in front of rows that come after 0, and pushes each down by one if they were
      numbered. */
  lemma InFrontOfOthers(was: Keys, id: nat, created: int, after: Keys)
    requires id !in was && NumberedFrom(was[id := Key(0, created)], after)
    requires forall t :: t in was ==> was[t].position >= 1
    ensures id in after && after[id].position == 1
    ensures Dense(was) ==> forall t :: t in was ==> t in after && after[t].position == was[t].position + 1
  {
    var keys := was[id := Key(0, created)];
    assert keys - {id} == was;
    var order :| Sorts(keys, order) && NumberedAlong(after, order);
    assert id in order;
    var m :| 0 <= m < |order| && order[m] == id;
    SortsAt(keys, order, 0, m);
    assert m == 0;
    if Dense(was) {
      PushesDown(was, id, created, after, order);
    }
  }

  lemma PushesDown(was: Keys, id: nat, created: int, after: Keys, order: seq<nat>)
    requires id !in was && Dense(was) && Sorts(was[id := Key(0, created)], order) && NumberedAlong(after, order)
    requires order != [] && order[0] == id
    ensures forall t :: t in was ==> t in after && after[t].position == was[t].position + 1
  {
    var keys := was[id := Key(0, created)];
    assert keys - {id} == was;
    WithoutSorts(keys, order, 0);
    DenseOrder(was, Without(order, 0));
    forall t | t in was
      ensures t in after && after[t].position == was[t].position + 1
    {
      var i :| 0 <= i < |Without(order, 0)| && Without(order, 0)[i] == t;
      assert order[i + 1] == t;
    }
  }

  /** No live task of the column is at position 0. */
  ghost predicate Positive(tasks: map<nat, Task>, column: nat) {
    forall id :: id in tasks && Live(tasks, id, column) ==> tasks[id].position >= 1
  }

  /** A created task comes first, whatever gaps and repeats the positions of the others had; the others keep their
      order, and move down by exactly one if they were numbered. */
  lemma CreatedTaskIsFirst(k: Tables, board: nat, column: nat, created: int, after: Tables)
    requires CheckCreate(k, board, column).None? && CreateStep(k, board, column, created, after)
    requires k.nextId !in k.tasks && Positive(k.tasks, column)
    ensures after.tasks.Keys == k.tasks.Keys + {k.nextId}
    ensures after.tasks[k.nextId] == Task(column, 1, created, false, false)
    ensures SameButPositions(k.tasks, after.tasks - {k.nextId}) && Dense(TaskKeys(after.tasks, column))
    ensures KeepsOrder(TaskKeys(k.tasks, column), TaskKeys(after.tasks, column))
    ensures forall id :: id in k.tasks && !Live(k.tasks, id, column) ==> after.tasks[id] == k.tasks[id]
    ensures Dense(TaskKeys(k.tasks, column)) ==>
              forall id :: id in k.tasks && Live(k.tasks, id, column)
                ==> after.tasks[id].position == k.tasks[id].position + 1
  {
    CreatedIsFirst(k.tasks, k.nextId, column, created, after.tasks);
  }

  lemma CreatedIsFirst(tasks: map<nat, Task>, id: nat, column: nat, created: int, after: map<nat, Task>)
    requires id !in tasks && Positive(tasks, column)
    requires Normalised(tasks[id := Task(column, 0, created, false, false)], after, column)
    ensures after.Keys == tasks.Keys + {id} && after[id] == Task(column, 1, created, false, false)
    ensures SameButPositions(tasks, after - {id}) && Dense(TaskKeys(after, column))
    ensures KeepsOrder(TaskKeys(tasks, column), TaskKeys(after, column))
    ensures forall t :: t in tasks && !Live(tasks, t, column) ==> after[t] == tasks[t]
    ensures Dense(TaskKeys(tasks, column)) ==>
              forall t :: t in tasks && Live(tasks, t, column) ==> after[t].position == tasks[t].position + 1
  {
    var added := tasks[id := Task(column, 0, created, false, false)];
    NormalisedMeaning(added, after, column);
    AddedKeys(tasks, id, column, created);
    FirstAmong(tasks, id, column, created, after);
    AddedElsewhere(tasks, added, id, column, after);
    NumberedFromKeepsOrder(TaskKeys(added, column), TaskKeys(after, column));
    KeepsOrderOfSome(TaskKeys(tasks, column), TaskKeys(added, column), TaskKeys(after, column), id);
  }

  lemma KeepsOrderOfSome(was: Keys, keys: Keys, after: Keys, id: nat)
    requires KeepsOrder(keys, after) && id !in was && id in keys && keys == was[id := keys[id]]
    ensures KeepsOrder(was, after)
  {
  }

  lemma AddedElsewhere(tasks: map<nat, Task>, added: map<nat, Task>, id: nat, column: nat, after: map<nat, Task>)
    requires SameButPositions(added, after) && id !in tasks && id in added && added == tasks[id := added[id]]
    requires forall t :: t in added && !Live(added, t, column) ==> after[t] == added[t]
    ensures after.Keys == tasks.Keys + {id} && SameButPositions(tasks, after - {id})
    ensures forall t :: t in tasks && !Live(tasks, t, column) ==> after[t] == tasks[t]
  {
    forall t | t in tasks
      ensures added[t] == tasks[t] && (Live(added, t, column) <==> Live(tasks, t, column))
    {
    }
  }

  lemma AddedKeys(tasks: map<nat, Task>, id: nat, column: nat, created: int)
    requires id !in tasks
    ensures TaskKeys(tasks[id := Task(column, 0, created, false, false)], column)
         == TaskKeys(tasks, column)[id := Key(0, created)]
  {
  }

  lemma FirstAmong(tasks: map<nat, Task>, id: nat, column: nat, created: int, after: map<nat, Task>)
    requires id !in tasks && Positive(tasks, column)
    requires SameButPositions(tasks[id := Task(column, 0, created, false, false)], after)
    requires NumberedFrom(TaskKeys(tasks, column)[id := Key(0, created)], TaskKeys(after, column))
    ensures id in after && after[id] == Task(column, 1, created, false, false)
    ensures Dense(TaskKeys(tasks, column)) ==>
              forall t :: t in tasks && Live(tasks, t, column) ==>
                t in after && after[t].position == tasks[t].position + 1
  {
    var (was, now) := (TaskKeys(tasks, column), TaskKeys(after, column));
    InFrontOfOthers(was, id, created, now);
    assert id in tasks[id := Task(column, 0, created, false, false)];
    if Dense(was) {
      forall t | t in tasks && Live(tasks, t, column)
        ensures t in after && after[t].position == tasks[t].position + 1
      {
        assert t in was && t in now && now[t].position == was[t].position + 1;
      }
    }
  }

  function Min(a: nat, b: nat): nat {
    if a < b then a else b
  }
}
