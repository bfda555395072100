/** When each board request goes through and what it does, said of the rows themselves. */
module KanbanMeaning {
  import opened Options
  import opened Numbering
  import opened Kanban
  import opened KanbanMoves
  import opened KanbanColumns

  // ---------- renumbering ----------

  predicate Shown(t: Task, column: nat) {
    t.column == column && !t.deleted
  }

  predicate Earlier(a: Task, b: Task) {
    a.position < b.position || (a.position == b.position && a.created < b.created)
  }

  /** The column's tasks that are not deleted get the numbers 1..n in their order; nothing else changes. */
  ghost predicate Numbers(before: map<nat, Task>, after: map<nat, Task>, column: nat) {
    && after.Keys == before.Keys
    && (forall t :: t in before && !Shown(before[t], column) ==> after[t] == before[t])
    && (forall t :: t in before && Shown(before[t], column) ==>
          after[t] == before[t].(position := after[t].position)
          && 1 <= after[t].position <= |set x | x in before && Shown(before[x], column)|)
    && (forall a, b :: a in before && b in before && Shown(before[a], column) && Shown(before[b], column) && a != b ==>
          after[a].position != after[b].position
          && (Earlier(before[a], before[b]) ==> after[a].position < after[b].position))
  }

  lemma KeysOfColumn(tasks: map<nat, Task>, column: nat)
    ensures TaskKeys(tasks, column).Keys == set t | t in tasks && Shown(tasks[t], column)
    ensures |TaskKeys(tasks, column)| == |set t | t in tasks && Shown(tasks[t], column)|
    ensures forall t :: t in tasks && Shown(tasks[t], column) ==>
              TaskKeys(tasks, column)[t] == Key(tasks[t].position, tasks[t].created)
  {
    assert |TaskKeys(tasks, column).Keys| == |TaskKeys(tasks, column)|;
  }

  /** Two rows of a numbered table. */
  lemma TwoRows(before: Keys, after: Keys, a: nat, b: nat)
    requires NumberedFrom(before, after) && a in before && b in before && a != b
    ensures a in after && b in after && 1 <= after[a].position <= |after| && after[a].position != after[b].position
    ensures StrictlyBefore(before[a], before[b]) ==> after[a].position < after[b].position
  {
    NumberedFromKeepsOrder(before, after);
  }

  lemma OneRow(before: Keys, after: Keys, a: nat)
    requires NumberedFrom(before, after) && a in before
    ensures a in after && before.Keys == after.Keys && 1 <= after[a].position <= |before|
  {
    NumberedFromKeepsOrder(before, after);
    assert |before| == |before.Keys| && |after| == |after.Keys|;
  }

  lemma RenumberingNumbers(before: map<nat, Task>, after: map<nat, Task>, column: nat)
    requires Normalised(before, after, column)
    ensures Numbers(before, after, column)
  {
    NormalisedMeaning(before, after, column);
    KeysOfColumn(before, column);
    KeysOfColumn(after, column);
    forall t | t in before && Shown(before[t], column)
      ensures 1 <= after[t].position <= |set x | x in before && Shown(before[x], column)|
    {
      OneRow(TaskKeys(before, column), TaskKeys(after, column), t);
    }
    forall a, b | a in before && b in before && Shown(before[a], column) && Shown(before[b], column) && a != b
      ensures after[a].position != after[b].position
      ensures Earlier(before[a], before[b]) ==> after[a].position < after[b].position
    {
      TwoRows(TaskKeys(before, column), TaskKeys(after, column), a, b);
    }
  }

  lemma NumbersIsRenumbering(before: map<nat, Task>, after: map<nat, Task>, column: nat)
    requires Numbers(before, after, column)
    ensures Normalised(before, after, column)
  {
    KeysOfColumn(before, column);
    KeysOfColumn(after, column);
    var (keys, now) := (TaskKeys(before, column), TaskKeys(after, column));
    assert now.Keys == keys.Keys;
    var order := AnyOrder(now);
    DenseOrder(now, order);
    forall i, j | 0 <= i < j < |order|
      ensures Le(keys[order[i]], keys[order[j]])
    {
      assert order[i] in order && order[j] in order;
      assert after[order[i]].position < after[order[j]].position;
    }
    assert Sorts(keys, order);
    forall t | t in before && t !in order
      ensures after[t] == before[t]
    {
    }
    forall i | 0 <= i < |order|
      ensures order[i] in before && after[order[i]].position == i + 1
    {
      assert order[i] in order;
    }
    assert Renumbered(before, after, order);
  }

  /** A renumbering is exactly that, for any positions before. */
  lemma NumberingMeaning(before: map<nat, Task>, after: map<nat, Task>, column: nat)
    ensures Normalised(before, after, column) <==> Numbers(before, after, column)
  {
    if Normalised(before, after, column) {
      RenumberingNumbers(before, after, column);
    }
    if Numbers(before, after, column) {
      NumbersIsRenumbering(before, after, column);
    }
  }

  // ---------- tasks ----------

  /** The limit of the column leaves room for so many more active tasks beside those it has without `except`. */
  predicate HasRoom(k: Tables, column: nat, more: nat, except: set<nat>)
    requires column in k.columns
  {
    var active := set t | t in k.tasks && t !in except && Shown(k.tasks[t], column) && !k.tasks[t].archived;
    k.columns[column].wipLimit > 0 ==> |active| + more <= k.columns[column].wipLimit
  }

  lemma RoomMeaning(k: Tables, column: nat, more: nat, except: set<nat>)
    requires column in k.columns
    ensures WipAllows(k, column, more, except) <==> HasRoom(k, column, more, except)
  {
    assert Active(k.tasks, column) - except
        == set t | t in k.tasks && t !in except && Shown(k.tasks[t], column) && !k.tasks[t].archived;
  }

  /** Only the tasks may have changed. */
  predicate OnlyTasks(k: Tables, after: Tables) {
    after == k.(tasks := after.tasks)
  }

  lemma CreateMeaning(k: Tables, board: nat, column: nat, created: int, after: Tables)
    ensures CheckCreate(k, board, column).None?
      <==> column in k.columns && k.columns[column].board == board && HasRoom(k, column, 1, {})
    ensures CreateStep(k, board, column, created, after) <==>
      if column in k.columns && k.columns[column].board == board && HasRoom(k, column, 1, {})
      then after == k.(tasks := after.tasks, nextId := k.nextId + 1)
           && Numbers(k.tasks[k.nextId := Task(column, 0, created, false, false)], after.tasks, column)
      else after == k
  {
    if column in k.columns {
      RoomMeaning(k, column, 1, {});
    }
    NumberingMeaning(k.tasks[k.nextId := Task(column, 0, created, false, false)], after.tasks, column);
  }

  /** A PATCH writes the column of one task, archived or deleted ones too, and renumbers nothing. */
  lemma PatchMeaning(k: Tables, id: nat, board: Option<nat>, column: nat)
    requires id in k.tasks && k.tasks[id].column in k.columns
    ensures CheckPatch(k, id, board, column).None? <==>
      (column in k.columns
       && k.columns[column].board == (if board.None? then k.columns[k.tasks[id].column].board else board.value)
       && (k.tasks[id].column != column ==> HasRoom(k, column, 1, {id})))
    ensures PatchStep(k, id, board, column) ==
      if CheckPatch(k, id, board, column).None?
      then k.(tasks := k.tasks[id := k.tasks[id].(column := column)]) else k
  {
    if column in k.columns {
      RoomMeaning(k, column, 1, {id});
    }
  }

  /** The position that a move writes before it renumbers: the one asked for, or one behind the other tasks. */
  ghost predicate WritesPosition(k: Tables, id: nat, target: nat, order: Option<nat>, p: nat) {
    p >= 1 && match order
              case Some(wanted) => p == wanted
              case None =>
                && (forall t :: t in k.tasks && t != id && Shown(k.tasks[t], target) ==> k.tasks[t].position < p)
                && (p == 1 || exists t :: t in k.tasks && t != id && Shown(k.tasks[t], target)
                                       && k.tasks[t].position == p - 1)
  }

  /** The task is written into the target at the position, then the two columns are numbered, the old one first. */
  ghost predicate MovesTo(k: Tables, id: nat, target: nat, p: nat, between: map<nat, Task>, after: Tables)
    requires id in k.tasks
  {
    && Numbers(k.tasks[id := k.tasks[id].(column := target, position := p)], between, k.tasks[id].column)
    && Numbers(between, after.tasks, target)
  }

  lemma BehindOthers(k: Tables, id: nat, target: nat, p: nat)
    ensures IsNext(TaskKeys(k.tasks, target) - {id}, p) <==> WritesPosition(k, id, target, None, p)
  {
    var others := TaskKeys(k.tasks, target) - {id};
    forall t
      ensures t in others <==> t in k.tasks && t != id && Shown(k.tasks[t], target)
      ensures t in others ==> others[t].position == k.tasks[t].position
    {
    }
    if IsNext(others, p) && others != map[] {
      var t :| t in others && others[t].position + 1 == p;
      assert t in k.tasks && t != id && Shown(k.tasks[t], target) && k.tasks[t].position == p - 1;
    }
    if WritesPosition(k, id, target, None, p) && others != map[] {
      var x :| x in others;
      assert k.tasks[x].position < p;
      if p == 1 {
        assert others[x].position + 1 == p;
      } else {
        var t :| t in k.tasks && t != id && Shown(k.tasks[t], target) && k.tasks[t].position == p - 1;
        assert t in others && others[t].position + 1 == p;
      }
    }
  }

  /** Which moves go through. */
  predicate Movable(k: Tables, id: nat, target: nat, order: Option<nat>) {
    && id in k.tasks && !k.tasks[id].deleted && k.tasks[id].column in k.columns && target in k.columns
    && k.columns[target].board == k.columns[k.tasks[id].column].board
    && order != Some(0) && HasRoom(k, target, 1, {id})
  }

  lemma MovableMeaning(k: Tables, id: nat, target: nat, order: Option<nat>)
    ensures CheckMove(k, id, target, order).None? <==> Movable(k, id, target, order)
  {
    if target in k.columns {
      RoomMeaning(k, target, 1, {id});
    }
  }

  lemma PositionMeaning(k: Tables, id: nat, target: nat, order: Option<nat>, p: nat)
    requires order != Some(0)
    ensures MovePosition(k.tasks, id, target, order, p) <==> WritesPosition(k, id, target, order, p)
  {
    if order.None? {
      BehindOthers(k, id, target, p);
    }
  }

  lemma PutMeaning(k: Tables, id: nat, target: nat, p: nat, between: map<nat, Task>, after: Tables)
    requires id in k.tasks
    ensures MovesTo(k, id, target, p, between, after) <==>
      Normalised(Put(k.tasks, id, target, p), between, k.tasks[id].column) && Normalised(between, after.tasks, target)
  {
    var put := k.tasks[id := k.tasks[id].(column := target, position := p)];
    NumberingMeaning(put, between, k.tasks[id].column);
    NumberingMeaning(between, after.tasks, target);
    assert Put(k.tasks, id, target, p) == put;
  }

  lemma MovedMeaning(k: Tables, id: nat, target: nat, order: Option<nat>, p: nat, between: map<nat, Task>,
                     after: Tables)
    requires id in k.tasks && order != Some(0)
    ensures Moved(k.tasks, id, target, order, p, between, after.tasks)
       <==> WritesPosition(k, id, target, order, p) && MovesTo(k, id, target, p, between, after)
  {
    PositionMeaning(k, id, target, order, p);
    PutMeaning(k, id, target, p, between, after);
  }

  lemma MoveMeaning(k: Tables, id: nat, target: nat, order: Option<nat>, after: Tables)
    ensures MoveStep(k, id, target, order, after) <==>
      if Movable(k, id, target, order)
      then OnlyTasks(k, after)
           && exists p, between :: WritesPosition(k, id, target, order, p) && MovesTo(k, id, target, p, between, after)
      else after == k
  {
    MovableMeaning(k, id, target, order);
    if Movable(k, id, target, order) {
      forall p: nat, between: map<nat, Task>
        ensures Moved(k.tasks, id, target, order, p, between, after.tasks)
           <==> WritesPosition(k, id, target, order, p) && MovesTo(k, id, target, p, between, after)
      {
        MovedMeaning(k, id, target, order, p, between, after);
      }
    }
  }

  /** Archiving, deleting and bringing back: what is written into the row, and the numbering after it. An archived task
      is a deleted one too. */
  lemma ShelvingMeaning(k: Tables, id: nat, after: Tables)
    requires id in k.tasks
    ensures ArchiveStep(k, id, after) <==>
      if k.tasks[id].deleted then after == k
      else OnlyTasks(k, after)
           && Numbers(k.tasks[id := k.tasks[id].(deleted := true, archived := true)], after.tasks, k.tasks[id].column)
    ensures DeleteStep(k, id, after) <==>
      if k.tasks[id].deleted then after == k
      else OnlyTasks(k, after)
           && Numbers(k.tasks[id := k.tasks[id].(deleted := true)], after.tasks, k.tasks[id].column)
  {
    var column := k.tasks[id].column;
    NumberingMeaning(k.tasks[id := k.tasks[id].(deleted := true, archived := true)], after.tasks, column);
    NumberingMeaning(k.tasks[id := k.tasks[id].(deleted := true)], after.tasks, column);
  }

  lemma UnarchiveMeaning(k: Tables, id: nat, after: Tables)
    requires id in k.tasks && k.tasks[id].column in k.columns
    ensures CheckUnarchive(k, id).None? <==> k.tasks[id].archived && HasRoom(k, k.tasks[id].column, 1, {id})
    ensures UnarchiveStep(k, id, after) <==>
      if k.tasks[id].archived && HasRoom(k, k.tasks[id].column, 1, {id})
      then OnlyTasks(k, after)
           && Numbers(k.tasks[id := k.tasks[id].(deleted := false, archived := false)], after.tasks, k.tasks[id].column)
      else after == k
  {
    RoomMeaning(k, k.tasks[id].column, 1, {id});
    NumberingMeaning(k.tasks[id := k.tasks[id].(deleted := false, archived := false)], after.tasks,
                     k.tasks[id].column);
  }

  // ---------- columns ----------

  /** The columns of the board get the numbers 1..n in their order; nothing else changes. */
  ghost predicate NumbersColumns(before: map<nat, Column>, after: map<nat, Column>, board: nat) {
    && after.Keys == before.Keys
    && (forall c :: c in before && before[c].board != board ==> after[c] == before[c])
    && (forall c :: c in before && before[c].board == board ==>
          after[c] == before[c].(position := after[c].position)
          && 1 <= after[c].position <= |set x | x in before && before[x].board == board|)
    && (forall a, b :: a in before && b in before && before[a].board == before[b].board == board && a != b ==>
          after[a].position != after[b].position
          && (before[a].position < before[b].position ==> after[a].position < after[b].position))
  }

  lemma KeysOfBoard(columns: map<nat, Column>, board: nat)
    ensures ColumnKeys(columns, board).Keys == set c | c in columns && columns[c].board == board
    ensures |ColumnKeys(columns, board)| == |set c | c in columns && columns[c].board == board|
    ensures forall c :: c in columns && columns[c].board == board ==>
              ColumnKeys(columns, board)[c] == Key(columns[c].position, 0)
  {
    assert |ColumnKeys(columns, board).Keys| == |ColumnKeys(columns, board)|;
  }

  lemma ColumnNumberingMeaning(before: map<nat, Column>, after: map<nat, Column>, board: nat)
    requires ColumnsNormalised(before, after, board)
    ensures NumbersColumns(before, after, board)
  {
    var order :| Sorts(ColumnKeys(before, board), order) && ColumnsRenumbered(before, after, order);
    ColumnsRenumberedMeaning(before, after, order, board);
    KeysOfBoard(before, board);
    KeysOfBoard(after, board);
    forall c | c in before && before[c].board == board
      ensures 1 <= after[c].position <= |set x | x in before && before[x].board == board|
    {
      OneRow(ColumnKeys(before, board), ColumnKeys(after, board), c);
    }
    forall a, b | a in before && b in before && before[a].board == before[b].board == board && a != b
      ensures after[a].position != after[b].position
      ensures before[a].position < before[b].position ==> after[a].position < after[b].position
    {
      TwoRows(ColumnKeys(before, board), ColumnKeys(after, board), a, b);
    }
    forall c | c in before && before[c].board != board
      ensures after[c] == before[c]
    {
      assert c !in ColumnKeys(before, board);
      assert c !in order;
    }
  }

  /** When a column may go: it is not the last of its board, and another column of the board has room for its active
      tasks. */
  predicate Removable(k: Tables, column: nat, target: nat) {
    && column in k.columns && target in k.columns && target != column
    && k.columns[target].board == k.columns[column].board
    && var leaving := set t | t in k.tasks && Shown(k.tasks[t], column) && !k.tasks[t].archived;
       leaving != {} ==> HasRoom(k, target, |leaving|, {})
  }

  lemma TwoColumns(columns: map<nat, Column>, a: nat, b: nat)
    requires a in columns && b in columns && a != b && columns[a].board == columns[b].board
    ensures |BoardColumns(columns, columns[a].board)| > 1
  {
    assert {a, b} <= BoardColumns(columns, columns[a].board);
    var rest := BoardColumns(columns, columns[a].board) - {a, b};
    assert BoardColumns(columns, columns[a].board) == rest + {a, b};
  }

  lemma RemovableMeaning(k: Tables, column: nat, target: nat)
    ensures CheckDeleteColumn(k, column, target).None? <==> Removable(k, column, target)
  {
    if column in k.columns && target in k.columns && target != column
       && k.columns[target].board == k.columns[column].board {
      var leaving := set t | t in k.tasks && Shown(k.tasks[t], column) && !k.tasks[t].archived;
      assert leaving == Active(k.tasks, column);
      RoomMeaning(k, target, |leaving|, {});
      TwoColumns(k.columns, column, target);
    }
  }

  /** Deleting a column: its tasks go to the target or, if deleted, with the column; the other columns close up. */
  lemma DeleteColumnMeaning(k: Tables, column: nat, target: nat, after: Tables)
    requires DeleteColumnStep(k, column, target, after)
    ensures if !Removable(k, column, target) then after == k
            else && after.boards == k.boards && after.nextId == k.nextId
                 && NumbersColumns(k.columns - {column}, after.columns, k.columns[column].board)
                 && (forall t :: t in after.tasks <==>
                       t in k.tasks && (k.tasks[t].column == column ==> !k.tasks[t].deleted))
                 && (forall t :: t in after.tasks ==>
                       after.tasks[t] == k.tasks[t].(
                         column := if k.tasks[t].column == column then target else k.tasks[t].column))
  {
    RemovableMeaning(k, column, target);
    if Removable(k, column, target) {
      ColumnNumberingMeaning(k.columns - {column}, after.columns, k.columns[column].board);
    }
  }

  lemma LimitMeaning(k: Tables, column: nat, limit: Option<nat>)
    ensures var (after, error) := SetLimit(k, column, limit);
      && (error.None? <==>
            column in k.columns && limit.Some?
            && (limit.value == 0
                || |set t | t in k.tasks && Shown(k.tasks[t], column) && !k.tasks[t].archived| <= limit.value))
      && after == (if error.None? then k.(columns := k.columns[column := k.columns[column].(wipLimit := limit.value)])
                   else k)
  {
    assert Active(k.tasks, column) == set t | t in k.tasks && Shown(k.tasks[t], column) && !k.tasks[t].archived;
  }

  /** A new column gets the number one behind the others of its board. */
  lemma AddColumnMeaning(k: Tables, board: nat, limit: nat, after: Tables)
    requires AddColumnStep(k, board, limit, after) && board in k.boards && k.nextId !in k.columns
    ensures k.nextId in after.columns
    ensures after == k.(columns := k.columns[k.nextId := after.columns[k.nextId]], nextId := k.nextId + 1)
    ensures var column := after.columns[k.nextId];
      && column.board == board && column.wipLimit == limit && column.position >= 1
      && (forall c :: c in k.columns && k.columns[c].board == board ==> k.columns[c].position < column.position)
      && (column.position == 1
          || exists c :: c in k.columns && k.columns[c].board == board && k.columns[c].position == column.position - 1)
  {
    KeysOfBoard(k.columns, board);
    var keys := ColumnKeys(k.columns, board);
    var p: nat :| IsNext(keys, p) && after.columns == k.columns[k.nextId := Column(board, p, limit)];
    if keys != map[] {
      var c :| c in keys && keys[c].position + 1 == p;
      assert k.columns[c].position == p - 1;
    }
  }

  /** A list is accepted when it mentions the columns of the board and no others, each at least once. */
  lemma ReorderIsAccepted(k: Tables, board: nat, ids: seq<nat>)
    ensures Reorder(k, board, ids).1.None? <==>
      (board in k.boards && ids != [] && forall c :: c in ids <==> c in k.columns && k.columns[c].board == board)
    ensures Reorder(k, board, ids).1.Some? ==> Reorder(k, board, ids).0 == k
    ensures Reorder(k, board, ids).1.None? ==>
      forall c :: c in k.columns ==>
        var row := Reorder(k, board, ids).0.columns[c];
        && row == k.columns[c].(position := row.position)
        && if c in ids then IsLastMention(ids, c, row.position) else row == k.columns[c]
  {
    forall c
      ensures c in IdSet(ids) <==> c in ids
      ensures c in BoardColumns(k.columns, board) <==> c in k.columns && k.columns[c].board == board
    {
    }
    if Reorder(k, board, ids).1.None? {
      forall c | c in k.columns && c in ids
        ensures IsLastMention(ids, c, Reorder(k, board, ids).0.columns[c].position)
      {
        LastPlaceMeaning(ids, c);
        assert c in IdSet(ids);
      }
    }
  }

  /** A new board has as many columns as its template, numbered from 0 and without limits; every other row stays. */
  lemma BoardMeaning(k: Tables, count: nat, c: nat)
    requires forall x :: x in k.columns ==> x < k.nextId && k.columns[x].board < k.nextId
    ensures var after := CreateBoard(k, count);
      && after == k.(boards := k.boards + {k.nextId}, columns := after.columns, nextId := k.nextId + count + 1)
      && (c in after.columns <==> c in k.columns || k.nextId < c < after.nextId)
      && (c in k.columns ==> after.columns[c] == k.columns[c])
      && (k.nextId < c < after.nextId ==> after.columns[c] == Column(k.nextId, c - k.nextId - 1, 0))
  {
    TemplateColumns(k.columns, k.nextId, count);
  }
}
