/** Boards, columns and tasks (apps/crm): what each request does to the tables. Where the code reads rows
    by position and creation time, rows that tie may come in any order, so those steps are relations. */
module Kanban {
  import opened Options
  import opened Numbering

  datatype Error =
    | NotFound | InvalidOrder | WrongBoard | WipLimitExceeded | NotArchived
    | LastColumn | SameColumn | LimitBelowActive | LimitRequired | ColumnsMismatch | ColumnIdsEmpty | InvalidPosition

  datatype Task = Task(column: nat, position: nat, created: int, archived: bool, deleted: bool)

  /** A limit of 0 means no limit. */
  datatype Column = Column(board: nat, position: nat, wipLimit: nat)

  datatype Tables = Tables(boards: set<nat>, tasks: map<nat, Task>, columns: map<nat, Column>, nextId: nat)

  function Empty(): Tables {
    Tables({}, map[], map[], 0)
  }

  predicate Live(tasks: map<nat, Task>, id: nat, column: nat) {
    id in tasks && tasks[id].column == column && !tasks[id].deleted
  }

  function TaskKeys(tasks: map<nat, Task>, column: nat): Keys {
    map id | id in tasks && Live(tasks, id, column) :: Key(tasks[id].position, tasks[id].created)
  }

  function ColumnKeys(columns: map<nat, Column>, board: nat): Keys {
    map id | id in columns && columns[id].board == board :: Key(columns[id].position, 0)
  }

  function Active(tasks: map<nat, Task>, column: nat): set<nat> {
    set id | id in tasks && Live(tasks, id, column) && !tasks[id].archived
  }

  /** check_wip_limit */
  predicate WipAllows(k: Tables, column: nat, count: nat, except: set<nat>)
    requires column in k.columns
  {
    k.columns[column].wipLimit == 0 || |Active(k.tasks, column) - except| + count <= k.columns[column].wipLimit
  }

  // ---------- renumbering ----------

  ghost predicate Renumbered(before: map<nat, Task>, after: map<nat, Task>, order: seq<nat>) {
    && after.Keys == before.Keys
    && (forall id :: id in before ==> after[id] == before[id].(position := after[id].position))
    && (forall id :: id in before && id !in order ==> after[id] == before[id])
    && (forall i :: 0 <= i < |order| ==> order[i] in before && after[order[i]].position == i + 1)
  }

  lemma RenumberNext(before: map<nat, Task>, mid: map<nat, Task>, order: seq<nat>, i: nat)
    requires i < |order| && NoRepeats(order) && order[i] in before && Renumbered(before, mid, order[..i])
    ensures Renumbered(before, mid[order[i] := mid[order[i]].(position := i + 1)], order[..i + 1])
  {
    assert order[..i + 1] == order[..i] + [order[i]];
    assert order[i] !in order[..i];
    assert forall j :: 0 <= j < i ==> order[..i][j] in order[..i];
  }

  /** _normalize_positions */
  ghost predicate Normalised(before: map<nat, Task>, after: map<nat, Task>, column: nat) {
    exists order :: Sorts(TaskKeys(before, column), order) && Renumbered(before, after, order)
  }

  ghost predicate ColumnsRenumbered(before: map<nat, Column>, after: map<nat, Column>, order: seq<nat>) {
    && after.Keys == before.Keys
    && (forall id :: id in before ==> after[id] == before[id].(position := after[id].position))
    && (forall id :: id in before && id !in order ==> after[id] == before[id])
    && (forall i :: 0 <= i < |order| ==> order[i] in before && after[order[i]].position == i + 1)
  }

  ghost predicate ColumnsNormalised(before: map<nat, Column>, after: map<nat, Column>, board: nat) {
    exists order :: Sorts(ColumnKeys(before, board), order) && ColumnsRenumbered(before, after, order)
  }

  lemma RenumberNextColumn(before: map<nat, Column>, mid: map<nat, Column>, order: seq<nat>, i: nat)
    requires i < |order| && NoRepeats(order) && order[i] in before && ColumnsRenumbered(before, mid, order[..i])
    ensures ColumnsRenumbered(before, mid[order[i] := mid[order[i]].(position := i + 1)], order[..i + 1])
  {
    assert order[..i + 1] == order[..i] + [order[i]];
    assert order[i] !in order[..i];
    assert forall j :: 0 <= j < i ==> order[..i][j] in order[..i];
  }

  // ---------- tasks ----------

  predicate SameColumns(k: Tables, after: Tables) {
    after.boards == k.boards && after.columns == k.columns && after.nextId == k.nextId
  }

  function CheckCreate(k: Tables, board: nat, column: nat): Option<Error> {
    if column !in k.columns then Some(NotFound)
    else if k.columns[column].board != board then Some(WrongBoard)
    else if !WipAllows(k, column, 1, {}) then Some(WipLimitExceeded)
    else None
  }

  /** A new task starts at position 0, in front of the numbered ones. */
  ghost predicate CreateStep(k: Tables, board: nat, column: nat, created: int, after: Tables) {
    if CheckCreate(k, board, column).Some? then after == k
    else
      && after.boards == k.boards && after.columns == k.columns && after.nextId == k.nextId + 1
      && Normalised(k.tasks[k.nextId := Task(column, 0, created, false, false)], after.tasks, column)
  }

  /** A PATCH of a task reaches archived and deleted tasks too, and renumbers nothing. The column must be on the
      board the request names, which need not be the task's own; without one it must be on the task's board. */
  function CheckPatch(k: Tables, id: nat, board: Option<nat>, column: nat): Option<Error> {
    if id !in k.tasks || k.tasks[id].column !in k.columns || column !in k.columns then Some(NotFound)
    else if k.columns[column].board != (if board.Some? then board.value else k.columns[k.tasks[id].column].board)
    then Some(WrongBoard)
    else if column != k.tasks[id].column && !WipAllows(k, column, 1, {id}) then Some(WipLimitExceeded)
    else None
  }

  function PatchStep(k: Tables, id: nat, board: Option<nat>, column: nat): Tables {
    if CheckPatch(k, id, board, column).Some? then k
    else k.(tasks := k.tasks[id := k.tasks[id].(column := column)])
  }

  function CheckMove(k: Tables, id: nat, target: nat, order: Option<nat>): Option<Error> {
    if id !in k.tasks || k.tasks[id].deleted || k.tasks[id].column !in k.columns || target !in k.columns
    then Some(NotFound)
    else if order == Some(0) then Some(InvalidOrder)
    else if k.columns[target].board != k.columns[k.tasks[id].column].board then Some(WrongBoard)
    else if !WipAllows(k, target, 1, {id}) then Some(WipLimitExceeded)
    else None
  }

  /** The position written before renumbering: the order asked for, or behind every other task. */
  ghost predicate MovePosition(tasks: map<nat, Task>, id: nat, target: nat, order: Option<nat>, p: nat) {
    if order.Some? then p == order.value else IsNext(TaskKeys(tasks, target) - {id}, p)
  }

  function Put(tasks: map<nat, Task>, id: nat, column: nat, p: nat): map<nat, Task>
    requires id in tasks
  {
    tasks[id := tasks[id].(column := column, position := p)]
  }

  /** The task is put down, then the column it left and the column it entered are renumbered. */
  ghost predicate Moved(tasks: map<nat, Task>, id: nat, target: nat, order: Option<nat>,
                        p: nat, between: map<nat, Task>, after: map<nat, Task>) {
    && id in tasks && MovePosition(tasks, id, target, order, p)
    && Normalised(Put(tasks, id, target, p), between, tasks[id].column)
    && Normalised(between, after, target)
  }

  ghost predicate MoveStep(k: Tables, id: nat, target: nat, order: Option<nat>, after: Tables) {
    if CheckMove(k, id, target, order).Some? then after == k
    else
      && SameColumns(k, after)
      && exists p, between :: Moved(k.tasks, id, target, order, p, between, after.tasks)
  }

  ghost predicate ArchiveStep(k: Tables, id: nat, after: Tables) {
    if id !in k.tasks || k.tasks[id].deleted then after == k
    else
      && SameColumns(k, after)
      && Normalised(k.tasks[id := k.tasks[id].(deleted := true, archived := true)], after.tasks, k.tasks[id].column)
  }

  function CheckUnarchive(k: Tables, id: nat): Option<Error> {
    if id !in k.tasks || k.tasks[id].column !in k.columns then Some(NotFound)
    else if !k.tasks[id].archived then Some(NotArchived)
    else if !WipAllows(k, k.tasks[id].column, 1, {id}) then Some(WipLimitExceeded)
    else None
  }

  ghost predicate UnarchiveStep(k: Tables, id: nat, after: Tables) {
    if CheckUnarchive(k, id).Some? then after == k
    else
      && SameColumns(k, after)
      && Normalised(k.tasks[id := k.tasks[id].(deleted := false, archived := false)], after.tasks, k.tasks[id].column)
  }

  ghost predicate DeleteStep(k: Tables, id: nat, after: Tables) {
    if id !in k.tasks || k.tasks[id].deleted then after == k
    else
      && SameColumns(k, after)
      && Normalised(k.tasks[id := k.tasks[id].(deleted := true)], after.tasks, k.tasks[id].column)
  }

  // ---------- columns ----------

  function BoardColumns(columns: map<nat, Column>, board: nat): set<nat> {
    set id | id in columns && columns[id].board == board
  }

  function CheckDeleteColumn(k: Tables, column: nat, target: nat): Option<Error> {
    if column !in k.columns then Some(NotFound)
    else if |BoardColumns(k.columns, k.columns[column].board)| <= 1 then Some(LastColumn)
    else if target !in k.columns || k.columns[target].board != k.columns[column].board then Some(NotFound)
    else if target == column then Some(SameColumn)
    else if Active(k.tasks, column) != {} && !WipAllows(k, target, |Active(k.tasks, column)|, {})
    then Some(WipLimitExceeded)
    else None
  }

  /** Every task that is not deleted moves to the target; the deleted ones go with the column. */
  function Evacuated(tasks: map<nat, Task>, column: nat, target: nat): map<nat, Task> {
    map id | id in tasks && !(tasks[id].column == column && tasks[id].deleted) ::
      if tasks[id].column == column then tasks[id].(column := target) else tasks[id]
  }

  ghost predicate DeleteColumnStep(k: Tables, column: nat, target: nat, after: Tables) {
    if CheckDeleteColumn(k, column, target).Some? then after == k
    else
      && after.boards == k.boards && after.tasks == Evacuated(k.tasks, column, target) && after.nextId == k.nextId
      && ColumnsNormalised(k.columns - {column}, after.columns, k.columns[column].board)
  }

  /** A limit of null reaches a comparison with a number, which fails. */
  function SetLimit(k: Tables, column: nat, limit: Option<nat>): (Tables, Option<Error>) {
    if column !in k.columns then (k, Some(NotFound))
    else if limit.None? then (k, Some(LimitRequired))
    else if limit.value != 0 && limit.value < |Active(k.tasks, column)| then (k, Some(LimitBelowActive))
    else (k.(columns := k.columns[column := k.columns[column].(wipLimit := limit.value)]), None)
  }

  /** The new column goes behind the others of its board. */
  ghost predicate AddColumnStep(k: Tables, board: nat, limit: nat, after: Tables) {
    if board !in k.boards then after == k
    else
      && after.boards == k.boards && after.tasks == k.tasks && after.nextId == k.nextId + 1
      && exists p :: IsNext(ColumnKeys(k.columns, board), p)
          && after.columns == k.columns[k.nextId := Column(board, p, limit)]
  }

  function WithColumns(columns: map<nat, Column>, board: nat, count: nat): map<nat, Column> {
    if count == 0 then columns else WithColumns(columns, board, count - 1)[board + count := Column(board, count - 1, 0)]
  }

  /** A new board gets its template's columns, numbered from 0. */
  function CreateBoard(k: Tables, count: nat): Tables {
    k.(boards := k.boards + {k.nextId}, columns := WithColumns(k.columns, k.nextId, count),
        nextId := k.nextId + count + 1)
  }

  function Clamp(wanted: nat, max: nat): nat {
    if wanted < 1 then 1 else if wanted > max then max else wanted
  }

  /** Where the siblings of a shifted column go. */
  function ShiftedPosition(x: nat, from: nat, to: nat): nat {
    if from < to && from < x <= to then x - 1
    else if from >= to && to <= x < from then x + 1
    else x
  }

  function ShiftColumn(k: Tables, column: nat, wanted: nat): (Tables, Option<Error>) {
    if column !in k.columns then (k, Some(NotFound))
    else if wanted == 0 then (k, Some(InvalidPosition))
    else if wanted == k.columns[column].position then (k, None)
    else
      var (board, from) := (k.columns[column].board, k.columns[column].position);
      var to := Clamp(wanted, |BoardColumns(k.columns, board)|);
      (k.(columns := map id | id in k.columns ::
            if id == column then k.columns[id].(position := to)
            else if k.columns[id].board == board
            then k.columns[id].(position := ShiftedPosition(k.columns[id].position, from, to))
            else k.columns[id]),
       None)
  }

  /** The number of an id in the list; a repeated id keeps the last one. */
  function LastPlace(ids: seq<nat>, id: nat): nat {
    if ids == [] then 0
    else if ids[|ids| - 1] == id then |ids|
    else LastPlace(ids[..|ids| - 1], id)
  }

  function IdSet(ids: seq<nat>): set<nat> {
    set id | id in ids
  }

  ghost predicate PlacedAlong(before: map<nat, Column>, after: map<nat, Column>, ids: seq<nat>) {
    && after.Keys == before.Keys
    && forall id :: id in before ==>
         after[id] == if id in ids then before[id].(position := LastPlace(ids, id)) else before[id]
  }

  lemma PlaceOne(before: map<nat, Column>, mid: map<nat, Column>, ids: seq<nat>, id: nat)
    requires PlacedAlong(before, mid, ids) && id in before
    ensures PlacedAlong(before, mid[id := mid[id].(position := |ids| + 1)], ids + [id])
  {
    assert (ids + [id])[..|ids|] == ids;
  }

  lemma AllPlaced(k: Tables, after: map<nat, Column>, board: nat, ids: seq<nat>)
    requires board in k.boards && ids != [] && IdSet(ids) == BoardColumns(k.columns, board)
    requires PlacedAlong(k.columns, after, ids)
    ensures (k.(columns := after), None) == Reorder(k, board, ids)
  {
    forall id | id in k.columns
      ensures id in ids <==> k.columns[id].board == board
    {
      assert id in IdSet(ids) <==> id in BoardColumns(k.columns, board);
    }
    assert after == Reorder(k, board, ids).0.columns;
  }

  function Reorder(k: Tables, board: nat, ids: seq<nat>): (Tables, Option<Error>) {
    if board !in k.boards then (k, Some(NotFound))
    else if ids == [] then (k, Some(ColumnIdsEmpty))
    else if IdSet(ids) != BoardColumns(k.columns, board) then (k, Some(ColumnsMismatch))
    else (k.(columns := map id | id in k.columns ::
               if k.columns[id].board == board then k.columns[id].(position := LastPlace(ids, id)) else k.columns[id]),
          None)
  }

  // ---------- the tables updated in place ----------

  class KanbanTables {
    var boards: set<nat>
    var tasks: map<nat, Task>
    var columns: map<nat, Column>
    var nextId: nat

    function State(): Tables
      reads this
    {
      Tables(boards, tasks, columns, nextId)
    }

    constructor ()
      ensures State() == Empty()
    {
      boards, tasks, columns, nextId := {}, map[], map[], 0;
    }

    method NormalizePositions(column: nat)
      modifies this`tasks
      ensures Normalised(old(tasks), tasks, column)
    {
      var order := OrderIds(TaskKeys(tasks, column));
      assert forall i :: 0 <= i < |order| ==> order[i] in order;
      NumberTasks(order);
    }

    /** The loop over the ordered tasks. */
    method NumberTasks(order: seq<nat>)
      requires NoRepeats(order) && forall i :: 0 <= i < |order| ==> order[i] in tasks
      modifies this`tasks
      ensures Renumbered(old(tasks), tasks, order)
    {
      for i := 0 to |order|
        invariant Renumbered(old(tasks), tasks, order[..i])
      {
        RenumberNext(old(tasks), tasks, order, i);
        if tasks[order[i]].position != i + 1 {
          tasks := tasks[order[i] := tasks[order[i]].(position := i + 1)];
        } else {
          assert tasks == tasks[order[i] := tasks[order[i]].(position := i + 1)];
        }
      }
      assert order[..|order|] == order;
    }

    method CreateTask(board: nat, column: nat, created: int) returns (error: Option<Error>)
      modifies this
      ensures error == CheckCreate(old(State()), board, column)
              && CreateStep(old(State()), board, column, created, State())
    {
      error := CheckCreate(State(), board, column);
      if error.None? {
        tasks := tasks[nextId := Task(column, 0, created, false, false)];
        nextId := nextId + 1;
        NormalizePositions(column);
      }
    }

    method PatchTaskColumn(id: nat, board: Option<nat>, column: nat) returns (error: Option<Error>)
      modifies this`tasks
      ensures error == CheckPatch(old(State()), id, board, column)
              && State() == PatchStep(old(State()), id, board, column)
    {
      error := CheckPatch(State(), id, board, column);
      if error.None? {
        tasks := tasks[id := tasks[id].(column := column)];
      }
    }

    method MoveTask(id: nat, target: nat, order: Option<nat>) returns (error: Option<Error>)
      modifies this`tasks
      ensures error == CheckMove(old(State()), id, target, order) && MoveStep(old(State()), id, target, order, State())
    {
      error := CheckMove(State(), id, target, order);
      if error.Some? {
        return;
      }
      var oldColumn := tasks[id].column;
      var newPosition;
      if order.Some? {
        newPosition := order.value;
      } else {
        newPosition := NextPosition(TaskKeys(tasks, target) - {id});
      }
      tasks := Put(tasks, id, target, newPosition);
      NormalizePositions(oldColumn);
      ghost var between := tasks;
      NormalizePositions(target);
      assert Moved(old(tasks), id, target, order, newPosition, between, tasks);
    }

    method ArchiveTask(id: nat) returns (error: Option<Error>)
      modifies this`tasks
      ensures error == (if id in old(tasks) && !old(tasks)[id].deleted then None else Some(NotFound))
      ensures ArchiveStep(old(State()), id, State())
    {
      if id !in tasks || tasks[id].deleted {
        return Some(NotFound);
      }
      var column := tasks[id].column;
      tasks := tasks[id := tasks[id].(deleted := true)];
      tasks := tasks[id := tasks[id].(archived := true)];
      assert tasks == old(tasks)[id := old(tasks)[id].(deleted := true, archived := true)];
      NormalizePositions(column);
      error := None;
    }

    method UnarchiveTask(id: nat) returns (error: Option<Error>)
      modifies this`tasks
      ensures error == CheckUnarchive(old(State()), id) && UnarchiveStep(old(State()), id, State())
    {
      error := CheckUnarchive(State(), id);
      if error.None? {
        tasks := tasks[id := tasks[id].(deleted := false, archived := false)];
        NormalizePositions(tasks[id].column);
      }
    }

    method DeleteTask(id: nat) returns (error: Option<Error>)
      modifies this`tasks
      ensures error == (if id in old(tasks) && !old(tasks)[id].deleted then None else Some(NotFound))
      ensures DeleteStep(old(State()), id, State())
    {
      if id !in tasks || tasks[id].deleted {
        return Some(NotFound);
      }
      tasks := tasks[id := tasks[id].(deleted := true)];
      NormalizePositions(tasks[id].column);
      error := None;
    }

    /** Closes the gaps left in a board's column numbers. */
    method NormalizeColumns(board: nat)
      modifies this`columns
      ensures ColumnsNormalised(old(columns), columns, board)
    {
      var order := OrderIds(ColumnKeys(columns, board));
      assert forall i :: 0 <= i < |order| ==> order[i] in order;
      NumberColumns(order);
    }

    method NumberColumns(order: seq<nat>)
      requires NoRepeats(order) && forall i :: 0 <= i < |order| ==> order[i] in columns
      modifies this`columns
      ensures ColumnsRenumbered(old(columns), columns, order)
    {
      for i := 0 to |order|
        invariant ColumnsRenumbered(old(columns), columns, order[..i])
      {
        RenumberNextColumn(old(columns), columns, order, i);
        if columns[order[i]].position != i + 1 {
          columns := columns[order[i] := columns[order[i]].(position := i + 1)];
        } else {
          assert columns == columns[order[i] := columns[order[i]].(position := i + 1)];
        }
      }
      assert order[..|order|] == order;
    }

    method DeleteColumn(column: nat, target: nat) returns (error: Option<Error>)
      modifies this`tasks, this`columns
      ensures error == CheckDeleteColumn(old(State()), column, target)
              && DeleteColumnStep(old(State()), column, target, State())
    {
      error := CheckDeleteColumn(State(), column, target);
      if error.Some? {
        return;
      }
      var board := columns[column].board;
      tasks := map id | id in tasks :: if Live(tasks, id, column) then tasks[id].(column := target) else tasks[id];
      tasks := map id | id in tasks && tasks[id].column != column :: tasks[id];
      columns := columns - {column};
      assert tasks == Evacuated(old(tasks), column, target);
      NormalizeColumns(board);
    }

    method SetWipLimit(column: nat, limit: Option<nat>) returns (error: Option<Error>)
      modifies this`columns
      ensures (State(), error) == SetLimit(old(State()), column, limit)
    {
      if column !in columns {
        return Some(NotFound);
      }
      if limit.None? {
        return Some(LimitRequired);
      }
      if limit.value != 0 && limit.value < |Active(tasks, column)| {
        return Some(LimitBelowActive);
      }
      columns := columns[column := columns[column].(wipLimit := limit.value)];
      error := None;
    }

    method AddColumn(board: nat, limit: nat) returns (error: Option<Error>)
      modifies this`columns, this`nextId
      ensures error == (if board in old(boards) then None else Some(NotFound))
      ensures AddColumnStep(old(State()), board, limit, State())
    {
      if board !in boards {
        return Some(NotFound);
      }
      error := None;
      var nextPosition := NextPosition(ColumnKeys(columns, board));
      columns := columns[nextId := Column(board, nextPosition, limit)];
      nextId := nextId + 1;
    }

    method MakeBoard(count: nat) returns (board: nat)
      modifies this`boards, this`columns, this`nextId
      ensures State() == CreateBoard(old(State()), count)
    {
      board := nextId;
      boards := boards + {board};
      nextId := nextId + 1;
      for i := 0 to count
        invariant boards == old(boards) + {board} && nextId == board + i + 1
        invariant columns == WithColumns(old(columns), board, i)
      {
        columns := columns[nextId := Column(board, i, 0)];
        nextId := nextId + 1;
      }
    }

    /** The siblings move first, then the column itself. */
    method PatchColumnPosition(column: nat, wanted: nat) returns (error: Option<Error>)
      modifies this`columns
      ensures (State(), error) == ShiftColumn(old(State()), column, wanted)
    {
      if column !in columns {
        return Some(NotFound);
      }
      if wanted == 0 {
        return Some(InvalidPosition);
      }
      error := None;
      if wanted != columns[column].position {
        var (board, oldPosition) := (columns[column].board, columns[column].position);
        var newPosition := Clamp(wanted, |BoardColumns(columns, board)|);
        if oldPosition < newPosition {
          columns := map id | id in columns ::
            if id != column && columns[id].board == board && oldPosition < columns[id].position <= newPosition
            then columns[id].(position := columns[id].position - 1) else columns[id];
        } else {
          columns := map id | id in columns ::
            if id != column && columns[id].board == board && newPosition <= columns[id].position < oldPosition
            then columns[id].(position := columns[id].position + 1) else columns[id];
        }
        columns := columns[column := columns[column].(position := newPosition)];
        assert columns == ShiftColumn(old(State()), column, wanted).0.columns;
      }
    }

    method ReorderColumns(board: nat, ids: seq<nat>) returns (error: Option<Error>)
      modifies this`columns
      ensures (State(), error) == Reorder(old(State()), board, ids)
    {
      if board !in boards {
        return Some(NotFound);
      }
      if ids == [] {
        return Some(ColumnIdsEmpty);
      }
      if IdSet(ids) != BoardColumns(columns, board) {
        return Some(ColumnsMismatch);
      }
      for i := 0 to |ids|
        invariant PlacedAlong(old(columns), columns, ids[..i])
      {
        var id := ids[i];
        assert id in IdSet(ids);
        assert id in BoardColumns(old(columns), board);
        PlaceOne(old(columns), columns, ids[..i], id);
        assert ids[..i + 1] == ids[..i] + [id];
        if columns[id].position != i + 1 {
          columns := columns[id := columns[id].(position := i + 1)];
        } else {
          assert columns == columns[id := columns[id].(position := i + 1)];
        }
      }
      assert ids[..|ids|] == ids;
      AllPlaced(old(State()), columns, board, ids);
      error := None;
    }
  }
}
