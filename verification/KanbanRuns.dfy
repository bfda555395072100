/** Whole runs of the board: no column over its limit, no column number used twice, no task lost. */
module KanbanRuns {
  import opened Options
  import opened FiniteSets
  import opened Numbering
  import opened Kanban
  import opened KanbanMoves
  import opened KanbanColumns

  datatype Event =
    | CreateTask(board: nat, column: nat, created: int)
    | PatchTask(id: nat, onBoard: Option<nat>, column: nat)
    | MoveTask(id: nat, column: nat, order: Option<nat>)
    | ArchiveTask(id: nat)
    | UnarchiveTask(id: nat)
    | DeleteTask(id: nat)
    | CreateBoard(count: nat)
    | AddColumn(board: nat, wipLimit: nat)
    | EditLimit(column: nat, limit: Option<nat>)
    | ShiftColumn(column: nat, wanted: nat)
    | DeleteColumn(column: nat, target: nat)
    | ReorderColumns(board: nat, ids: seq<nat>)

  ghost predicate Step(k: Tables, e: Event, after: Tables) {
    match e
    case CreateTask(board, column, created) => CreateStep(k, board, column, created, after)
    case PatchTask(id, onBoard, column) => after == PatchStep(k, id, onBoard, column)
    case MoveTask(id, column, order) => MoveStep(k, id, column, order, after)
    case ArchiveTask(id) => ArchiveStep(k, id, after)
    case UnarchiveTask(id) => UnarchiveStep(k, id, after)
    case DeleteTask(id) => DeleteStep(k, id, after)
    case CreateBoard(count) => after == Kanban.CreateBoard(k, count)
    case AddColumn(board, wipLimit) => AddColumnStep(k, board, wipLimit, after)
    case EditLimit(column, limit) => after == SetLimit(k, column, limit).0
    case ShiftColumn(column, wanted) => after == Kanban.ShiftColumn(k, column, wanted).0
    case DeleteColumn(column, target) => DeleteColumnStep(k, column, target, after)
    case ReorderColumns(board, ids) => after == Reorder(k, board, ids).0
  }

  ghost predicate Run(states: seq<Tables>, events: seq<Event>) {
    |states| == |events| + 1 && forall i :: 0 <= i < |events| ==> StepAt(states, events, i)
  }

  ghost predicate StepAt(states: seq<Tables>, events: seq<Event>, i: nat)
    requires |states| == |events| + 1 && i < |events|
  {
    Step(states[i], events[i], states[i + 1])
  }

  lemma StepOfRun(states: seq<Tables>, events: seq<Event>, i: nat)
    requires Run(states, events) && i < |events|
    ensures Step(states[i], events[i], states[i + 1]) && events[i] in events
  {
    assert StepAt(states, events, i);
  }

  // ---------- what every run keeps ----------

  /** Rows refer to rows that exist, and ids are not used again. */
  ghost predicate Rooted(k: Tables) {
    && (forall t :: t in k.tasks ==> t < k.nextId && k.tasks[t].column in k.columns)
    && (forall c :: c in k.columns ==> c < k.nextId && k.columns[c].board in k.boards)
    && (forall b :: b in k.boards ==> b < k.nextId)
  }

  ghost predicate WithinLimits(k: Tables) {
    forall c :: c in k.columns && k.columns[c].wipLimit > 0 ==> |Active(k.tasks, c)| <= k.columns[c].wipLimit
  }

  ghost predicate NumbersDistinct(columns: map<nat, Column>) {
    forall board: nat :: Distinct(ColumnKeys(columns, board))
  }

  ghost predicate Sound(k: Tables) {
    Rooted(k) && WithinLimits(k) && NumbersDistinct(k.columns)
  }

  // ---------- steps that change one task ----------

  /** One task gets a new row; besides that only positions change. */
  ghost predicate OneTask(k: Tables, after: Tables, id: nat, t: Task) {
    && after.boards == k.boards && after.columns == k.columns && k.nextId <= after.nextId && id < after.nextId
    && t.column in k.columns && SameButPositions(k.tasks[id := t], after.tasks)
  }

  lemma Fits(before: set<nat>, after: set<nat>, id: nat, limit: nat)
    requires after <= before + {id} && |before - {id}| + 1 <= limit
    ensures |after| <= limit
  {
    SubsetIsSmaller(after, (before - {id}) + {id});
  }

  lemma ActiveAfterOneTask(tasks: map<nat, Task>, id: nat, t: Task, after: map<nat, Task>, column: nat)
    requires SameButPositions(tasks[id := t], after)
    ensures Active(after, column) <= Active(tasks, column) + {id}
    ensures t.deleted || t.archived || t.column != column ==> Active(after, column) <= Active(tasks, column)
  {
    SameActive(tasks[id := t], after, column);
    forall x | x in Active(tasks[id := t], column) && x != id
      ensures x in Active(tasks, column)
    {
      assert tasks[id := t][x] == tasks[x];
    }
  }

  lemma OneTaskKeepsSound(k: Tables, after: Tables, id: nat, t: Task)
    requires Sound(k) && OneTask(k, after, id, t)
    requires t.deleted || t.archived || WipAllows(k, t.column, 1, {id})
    ensures Sound(after)
  {
    forall c | c in after.columns && after.columns[c].wipLimit > 0
      ensures |Active(after.tasks, c)| <= after.columns[c].wipLimit
    {
      ActiveAfterOneTask(k.tasks, id, t, after.tasks, c);
      if t.deleted || t.archived || t.column != c {
        SubsetIsSmaller(Active(after.tasks, c), Active(k.tasks, c));
      } else {
        Fits(Active(k.tasks, c), Active(after.tasks, c), id, k.columns[c].wipLimit);
      }
    }
    OneTaskKeepsRooted(k, after, id, t);
  }

  lemma OneTaskKeepsRooted(k: Tables, after: Tables, id: nat, t: Task)
    requires Rooted(k) && OneTask(k, after, id, t)
    ensures Rooted(after)
  {
    forall x | x in after.tasks
      ensures x < after.nextId && after.tasks[x].column in after.columns
    {
      assert x in k.tasks[id := t];
    }
  }

  lemma CreateKeepsSound(k: Tables, board: nat, column: nat, created: int, after: Tables)
    requires Sound(k) && CreateStep(k, board, column, created, after)
    ensures Sound(after)
  {
    if CheckCreate(k, board, column).None? {
      var t := Task(column, 0, created, false, false);
      NormalisedMeaning(k.tasks[k.nextId := t], after.tasks, column);
      assert k.nextId !in Active(k.tasks, column);
      assert Active(k.tasks, column) - {k.nextId} == Active(k.tasks, column) - {};
      OneTaskKeepsSound(k, after, k.nextId, t);
    }
  }

  lemma PatchKeepsSound(k: Tables, id: nat, board: Option<nat>, column: nat)
    requires Sound(k)
    ensures Sound(PatchStep(k, id, board, column))
  {
    if CheckPatch(k, id, board, column).None? {
      var t := k.tasks[id].(column := column);
      if column == k.tasks[id].column {
        assert PatchStep(k, id, board, column) == k;
      } else {
        OneTaskKeepsSound(k, PatchStep(k, id, board, column), id, t);
      }
    }
  }

  lemma MoveIsOneTask(k: Tables, id: nat, target: nat, order: Option<nat>, after: Tables) returns (t: Task)
    requires Rooted(k) && CheckMove(k, id, target, order).None? && MoveStep(k, id, target, order, after)
    ensures OneTask(k, after, id, t) && t.column == target && WipAllows(k, target, 1, {id})
  {
    var p := MoveIsAtOnce(k, id, target, order, after);
    t := k.tasks[id].(column := target, position := p);
  }

  lemma MoveKeepsSound(k: Tables, id: nat, target: nat, order: Option<nat>, after: Tables)
    requires Sound(k) && MoveStep(k, id, target, order, after)
    ensures Sound(after)
  {
    if CheckMove(k, id, target, order).None? {
      var t := MoveIsOneTask(k, id, target, order, after);
      OneTaskKeepsSound(k, after, id, t);
    } else {
      assert after == k;
    }
  }

  lemma ArchiveKeepsSound(k: Tables, id: nat, after: Tables)
    requires Sound(k) && ArchiveStep(k, id, after)
    ensures Sound(after)
  {
    if id in k.tasks && !k.tasks[id].deleted {
      var t := k.tasks[id].(deleted := true, archived := true);
      NormalisedMeaning(k.tasks[id := t], after.tasks, t.column);
      OneTaskKeepsSound(k, after, id, t);
    }
  }

  lemma UnarchiveKeepsSound(k: Tables, id: nat, after: Tables)
    requires Sound(k) && UnarchiveStep(k, id, after)
    ensures Sound(after)
  {
    if CheckUnarchive(k, id).None? {
      var t := k.tasks[id].(deleted := false, archived := false);
      NormalisedMeaning(k.tasks[id := t], after.tasks, t.column);
      OneTaskKeepsSound(k, after, id, t);
    }
  }

  lemma DeleteKeepsSound(k: Tables, id: nat, after: Tables)
    requires Sound(k) && DeleteStep(k, id, after)
    ensures Sound(after)
  {
    if id in k.tasks && !k.tasks[id].deleted {
      var t := k.tasks[id].(deleted := true);
      NormalisedMeaning(k.tasks[id := t], after.tasks, t.column);
      OneTaskKeepsSound(k, after, id, t);
    }
  }

  // ---------- steps that change columns ----------

  /** Deleting a column takes each of its tasks that is not deleted to the target and nowhere else, and changes
      nothing else about any task; only the deleted ones go. */
  lemma DeleteColumnLosesNoTask(tasks: map<nat, Task>, column: nat, target: nat)
    requires column != target
    ensures var after := Evacuated(tasks, column, target);
      && TaskKeys(after, target).Keys == TaskKeys(tasks, target).Keys + TaskKeys(tasks, column).Keys
      && |TaskKeys(after, target)| == |TaskKeys(tasks, target)| + |TaskKeys(tasks, column)|
      && (forall id :: id in after ==> id in tasks && after[id] == tasks[id].(column := after[id].column))
      && (forall id :: id in after ==> after[id].column != column)
      && (forall id :: id in tasks && tasks[id].column != column ==> id in after && after[id] == tasks[id])
      && (forall id :: id in tasks && id !in after ==> tasks[id].deleted)
      && (forall c :: c != column && c != target ==> TaskKeys(after, c) == TaskKeys(tasks, c))
  {
    var after := Evacuated(tasks, column, target);
    var (here, there) := (TaskKeys(tasks, target), TaskKeys(tasks, column));
    assert TaskKeys(after, target).Keys == here.Keys + there.Keys && here.Keys !! there.Keys;
    assert |here.Keys| == |here| && |there.Keys| == |there|
        && |TaskKeys(after, target).Keys| == |TaskKeys(after, target)|;
    forall c | c != column && c != target
      ensures TaskKeys(after, c) == TaskKeys(tasks, c)
    {
    }
  }

  lemma ActiveAfterEvacuation(tasks: map<nat, Task>, column: nat, target: nat, c: nat)
    requires column != target && c != column
    ensures Active(Evacuated(tasks, column, target), c) ==
            Active(tasks, c) + (if c == target then Active(tasks, column) else {})
  {
  }

  lemma DeleteColumnKeepsSound(k: Tables, column: nat, target: nat, after: Tables)
    requires Sound(k) && DeleteColumnStep(k, column, target, after)
    ensures Sound(after)
  {
    if CheckDeleteColumn(k, column, target).None? {
      DeleteClosesTheGap(k, column, target, after);
      var board := k.columns[column].board;
      NumberedFromKeepsOrder(ColumnKeys(k.columns, board) - {column}, ColumnKeys(after.columns, board));
      DeleteColumnKeepsLimits(k, column, target, after);
      DeleteColumnKeepsRooted(k, column, target, after);
    }
  }

  lemma DeleteColumnKeepsRooted(k: Tables, column: nat, target: nat, after: Tables)
    requires Rooted(k) && CheckDeleteColumn(k, column, target).None?
    requires after.tasks == Evacuated(k.tasks, column, target) && after.boards == k.boards && after.nextId == k.nextId
    requires after.columns.Keys == k.columns.Keys - {column}
    requires forall id :: id in after.columns ==>
               after.columns[id] == k.columns[id].(position := after.columns[id].position)
    ensures Rooted(after)
  {
  }

  lemma DeleteColumnKeepsLimits(k: Tables, column: nat, target: nat, after: Tables)
    requires WithinLimits(k) && CheckDeleteColumn(k, column, target).None?
    requires after.tasks == Evacuated(k.tasks, column, target) && after.columns.Keys == k.columns.Keys - {column}
    requires forall id :: id in after.columns ==>
               after.columns[id] == k.columns[id].(position := after.columns[id].position)
    ensures WithinLimits(after)
  {
    forall c | c in after.columns && after.columns[c].wipLimit > 0
      ensures |Active(after.tasks, c)| <= after.columns[c].wipLimit
    {
      ActiveAfterEvacuation(k.tasks, column, target, c);
      assert Active(k.tasks, target) !! Active(k.tasks, column);
      assert Active(k.tasks, target) - {} == Active(k.tasks, target);
    }
  }

  lemma SetLimitKeepsSound(k: Tables, column: nat, limit: Option<nat>)
    requires Sound(k)
    ensures Sound(SetLimit(k, column, limit).0)
  {
    var after := SetLimit(k, column, limit).0;
    forall board: nat
      ensures ColumnKeys(after.columns, board) == ColumnKeys(k.columns, board)
    {
    }
  }

  lemma EmptyColumn(k: Tables, c: nat)
    requires Rooted(k) && c !in k.columns
    ensures Active(k.tasks, c) == {}
  {
  }

  /** The keys of every board after a column was added behind the others of one. */
  lemma AddedKeys(k: Tables, board: nat, limit: nat, after: Tables) returns (p: nat)
    requires Rooted(k) && board in k.boards && AddColumnStep(k, board, limit, after)
    ensures after == k.(columns := k.columns[k.nextId := Column(board, p, limit)], nextId := k.nextId + 1)
    ensures k.nextId !in k.columns
    ensures IsNext(ColumnKeys(k.columns, board), p) && k.nextId !in ColumnKeys(k.columns, board)
    ensures ColumnKeys(after.columns, board) == ColumnKeys(k.columns, board)[k.nextId := Key(p, 0)]
    ensures forall other: nat :: other != board ==> ColumnKeys(after.columns, other) == ColumnKeys(k.columns, other)
  {
    p :| IsNext(ColumnKeys(k.columns, board), p) && after.columns == k.columns[k.nextId := Column(board, p, limit)];
    AddedBehind(k.columns, k.nextId, board, p, limit);
    forall other: nat | other != board
      ensures ColumnKeys(after.columns, other) == ColumnKeys(k.columns, other)
    {
      AddedElsewhere(k.columns, k.nextId, Column(board, p, limit), other);
    }
  }

  lemma AddedElsewhere(columns: map<nat, Column>, id: nat, c: Column, other: nat)
    requires id !in columns && other != c.board
    ensures ColumnKeys(columns[id := c], other) == ColumnKeys(columns, other)
  {
  }

  lemma NewColumnKeepsRows(k: Tables, c: Column)
    requires Rooted(k) && WithinLimits(k) && c.board in k.boards
    ensures var after := k.(columns := k.columns[k.nextId := c], nextId := k.nextId + 1);
            Rooted(after) && WithinLimits(after)
  {
    EmptyColumn(k, k.nextId);
  }

  lemma AddColumnKeepsSound(k: Tables, board: nat, limit: nat, after: Tables)
    requires Sound(k) && AddColumnStep(k, board, limit, after)
    ensures Sound(after)
  {
    if board in k.boards {
      var p := AddedKeys(k, board, limit, after);
      BehindAll(ColumnKeys(k.columns, board), k.nextId, p);
      NewColumnKeepsRows(k, Column(board, p, limit));
    }
  }

  lemma CreateBoardKeepsSound(k: Tables, count: nat)
    requires Sound(k)
    ensures Sound(Kanban.CreateBoard(k, count))
  {
    var after := Kanban.CreateBoard(k, count);
    TemplateColumns(k.columns, k.nextId, count);
    forall other: nat
      ensures other != k.nextId ==> ColumnKeys(after.columns, other) == ColumnKeys(k.columns, other)
      ensures Distinct(ColumnKeys(after.columns, other))
    {
      if other != k.nextId {
        assert ColumnKeys(after.columns, other) == ColumnKeys(k.columns, other);
      }
    }
    forall c | c in after.columns && c !in k.columns
      ensures after.columns[c].wipLimit == 0
    {
    }
  }

  /** Changing column positions alone touches neither limits nor references. */
  lemma PositionsKeepRows(k: Tables, after: Tables)
    requires Rooted(k) && WithinLimits(k) && after == k.(columns := after.columns)
    requires after.columns.Keys == k.columns.Keys
    requires forall c :: c in k.columns ==> after.columns[c] == k.columns[c].(position := after.columns[c].position)
    ensures Rooted(after) && WithinLimits(after)
  {
  }

  lemma ShiftKeepsSound(k: Tables, column: nat, wanted: nat)
    requires Sound(k)
    ensures Sound(Kanban.ShiftColumn(k, column, wanted).0)
  {
    var (after, error) := Kanban.ShiftColumn(k, column, wanted);
    if error.None? && wanted != k.columns[column].position {
      PositionsKeepRows(k, after);
      ShiftKeepsDistinct(k, column, wanted);
    }
  }

  lemma ShiftKeepsDistinct(k: Tables, column: nat, wanted: nat)
    requires NumbersDistinct(k.columns)
    requires Kanban.ShiftColumn(k, column, wanted).1.None? && wanted != k.columns[column].position
    ensures NumbersDistinct(Kanban.ShiftColumn(k, column, wanted).0.columns)
  {
    var keys := ColumnKeys(k.columns, k.columns[column].board);
    var after := Kanban.ShiftColumn(k, column, wanted).0;
    ShiftColumnShifts(k, column, wanted);
    ShiftedMeaning(keys, ColumnKeys(after.columns, k.columns[column].board), column, Clamp(wanted, |keys|));
  }

  lemma ReorderKeepsSound(k: Tables, board: nat, ids: seq<nat>)
    requires Sound(k)
    ensures Sound(Reorder(k, board, ids).0)
  {
    if Reorder(k, board, ids).1.None? {
      PositionsKeepRows(k, Reorder(k, board, ids).0);
      ReorderKeys(k, board, ids);
      ReorderMeaning(k, board, ids);
    }
  }

  // ---------- runs ----------

  lemma StepKeepsSound(k: Tables, e: Event, after: Tables)
    requires Sound(k) && Step(k, e, after)
    ensures Sound(after)
  {
    match e
    case CreateTask(board, column, created) => CreateKeepsSound(k, board, column, created, after);
    case PatchTask(id, onBoard, column) => PatchKeepsSound(k, id, onBoard, column);
    case MoveTask(id, column, order) => MoveKeepsSound(k, id, column, order, after);
    case ArchiveTask(id) => ArchiveKeepsSound(k, id, after);
    case UnarchiveTask(id) => UnarchiveKeepsSound(k, id, after);
    case DeleteTask(id) => DeleteKeepsSound(k, id, after);
    case CreateBoard(count) => CreateBoardKeepsSound(k, count);
    case AddColumn(board, wipLimit) => AddColumnKeepsSound(k, board, wipLimit, after);
    case EditLimit(column, limit) => SetLimitKeepsSound(k, column, limit);
    case ShiftColumn(column, wanted) => ShiftKeepsSound(k, column, wanted);
    case DeleteColumn(column, target) => DeleteColumnKeepsSound(k, column, target, after);
    case ReorderColumns(board, ids) => ReorderKeepsSound(k, board, ids);
  }

  /** Every state of every run keeps every limit and never numbers two columns of a board alike. */
  lemma {:induction false} RunKeepsSound(states: seq<Tables>, events: seq<Event>, i: nat)
    requires Run(states, events) && Sound(states[0]) && i < |states|
    ensures Sound(states[i])
  {
    if i == 0 {
    } else {
      RunKeepsSound(states, events, i - 1);
      StepOfRun(states, events, i - 1);
      StepKeepsSound(states[i - 1], events[i - 1], states[i]);
    }
  }

  lemma EveryReachableBoardIsSound(states: seq<Tables>, events: seq<Event>)
    requires Run(states, events) && states[0] == Empty()
    ensures forall i :: 0 <= i < |states| ==> Sound(states[i])
  {
    forall i | 0 <= i < |states|
      ensures Sound(states[i])
    {
      RunKeepsSound(states, events, i);
    }
  }

  // ---------- positions of tasks ----------

  /** Every task, live or not, has a position of at least 1. */
  ghost predicate AllPositive(tasks: map<nat, Task>) {
    forall id :: id in tasks ==> tasks[id].position >= 1
  }

  lemma NormalisedIsPositive(before: map<nat, Task>, after: map<nat, Task>, column: nat)
    requires Normalised(before, after, column)
    requires forall id :: id in before && !Live(before, id, column) ==> before[id].position >= 1
    ensures AllPositive(after)
  {
    NormalisedMeaning(before, after, column);
    NumberedFromKeepsOrder(TaskKeys(before, column), TaskKeys(after, column));
    forall id | id in after
      ensures after[id].position >= 1
    {
      if Live(before, id, column) {
        assert id in TaskKeys(after, column);
      }
    }
  }

  lemma MoveKeepsPositive(k: Tables, id: nat, target: nat, order: Option<nat>, after: Tables)
    requires AllPositive(k.tasks) && MoveStep(k, id, target, order, after)
    ensures AllPositive(after.tasks)
  {
    if CheckMove(k, id, target, order).None? {
      MoveKeepsTasks(k, id, target, order, after);
      MovedIsPositive(k.tasks, after.tasks, id, target);
    }
  }

  lemma MovedIsPositive(before: map<nat, Task>, after: map<nat, Task>, id: nat, target: nat)
    requires AllPositive(before) && KeepsTasks(before, after, id, target) && !before[id].deleted
    ensures AllPositive(after)
  {
    forall t | t in after
      ensures after[t].position >= 1
    {
      if t == id || Live(before, t, target) {
        assert t in TaskKeys(after, target);
      } else if Live(before, t, before[id].column) {
        assert t in TaskKeys(after, before[id].column);
      }
    }
  }

  lemma StepKeepsPositive(k: Tables, e: Event, after: Tables)
    requires AllPositive(k.tasks) && Step(k, e, after)
    ensures AllPositive(after.tasks)
  {
    match e
    case CreateTask(board, column, created) =>
      if CheckCreate(k, board, column).None? {
        NormalisedIsPositive(k.tasks[k.nextId := Task(column, 0, created, false, false)], after.tasks, column);
      }
    case MoveTask(id, column, order) => MoveKeepsPositive(k, id, column, order, after);
    case ArchiveTask(id) =>
      if id in k.tasks && !k.tasks[id].deleted {
        var t := k.tasks[id].(deleted := true, archived := true);
        NormalisedIsPositive(k.tasks[id := t], after.tasks, t.column);
      }
    case UnarchiveTask(id) =>
      if CheckUnarchive(k, id).None? {
        var t := k.tasks[id].(deleted := false, archived := false);
        NormalisedIsPositive(k.tasks[id := t], after.tasks, t.column);
      }
    case DeleteTask(id) =>
      if id in k.tasks && !k.tasks[id].deleted {
        var t := k.tasks[id].(deleted := true);
        NormalisedIsPositive(k.tasks[id := t], after.tasks, t.column);
      }
    case _ =>
  }

  lemma {:induction false} RunKeepsPositive(states: seq<Tables>, events: seq<Event>, i: nat)
    requires Run(states, events) && AllPositive(states[0].tasks) && i < |states|
    ensures AllPositive(states[i].tasks)
  {
    if i == 0 {
    } else {
      RunKeepsPositive(states, events, i - 1);
      StepOfRun(states, events, i - 1);
      StepKeepsPositive(states[i - 1], events[i - 1], states[i]);
    }
  }

  /** In every run a created task comes first in its column, whatever was moved, patched or evacuated before. */
  lemma EveryCreatedTaskIsFirst(states: seq<Tables>, events: seq<Event>, i: nat)
    requires Run(states, events) && states[0] == Empty() && i < |events| && events[i].CreateTask?
    requires CheckCreate(states[i], events[i].board, events[i].column).None?
    ensures var (before, after, e) := (states[i], states[i + 1], events[i]);
      && before.nextId in after.tasks && after.tasks[before.nextId] == Task(e.column, 1, e.created, false, false)
      && KeepsOrder(TaskKeys(before.tasks, e.column), TaskKeys(after.tasks, e.column))
  {
    StepOfRun(states, events, i);
    RunKeepsPositive(states, events, i);
    RunKeepsSound(states, events, i);
    CreatedTaskIsFirst(states[i], events[i].board, events[i].column, events[i].created, states[i + 1]);
  }

  // ---------- numbering once reached ----------

  ghost predicate RepeatFree(e: Event) {
    e.ReorderColumns? ==> NoRepeats(e.ids)
  }

  lemma StepKeepsNumbered(k: Tables, e: Event, after: Tables, board: nat)
    requires Sound(k) && Step(k, e, after) && RepeatFree(e)
    requires board in k.boards && Dense(ColumnKeys(k.columns, board))
    ensures Dense(ColumnKeys(after.columns, board))
  {
    match e
    case CreateBoard(count) => CreateBoardKeepsNumbered(k, count, board);
    case AddColumn(b, wipLimit) => AddColumnKeepsNumbered(k, b, wipLimit, after, board);
    case EditLimit(column, limit) => SetLimitKeepsKeys(k, column, limit, board);
    case ShiftColumn(column, wanted) => ShiftKeepsNumbered(k, column, wanted, board);
    case DeleteColumn(column, target) => DeleteColumnKeepsNumbered(k, column, target, after, board);
    case ReorderColumns(b, ids) => ReorderKeepsNumbered(k, b, ids, board);
    case _ => TaskStepsLeaveColumns(k, e, after);
  }

  lemma SetLimitKeepsKeys(k: Tables, column: nat, limit: Option<nat>, board: nat)
    ensures ColumnKeys(SetLimit(k, column, limit).0.columns, board) == ColumnKeys(k.columns, board)
  {
  }

  lemma ReorderKeepsNumbered(k: Tables, b: nat, ids: seq<nat>, board: nat)
    requires NoRepeats(ids) && Dense(ColumnKeys(k.columns, board))
    ensures Dense(ColumnKeys(Reorder(k, b, ids).0.columns, board))
  {
    if Reorder(k, b, ids).1.None? {
      ReorderKeys(k, b, ids);
      ReorderMeaning(k, b, ids);
    }
  }

  lemma TaskStepsLeaveColumns(k: Tables, e: Event, after: Tables)
    requires Step(k, e, after)
    requires e.CreateTask? || e.PatchTask? || e.MoveTask? || e.ArchiveTask? || e.UnarchiveTask? || e.DeleteTask?
    ensures after.columns == k.columns && after.boards == k.boards
  {
  }

  lemma BoardsStay(k: Tables, e: Event, after: Tables)
    requires Step(k, e, after)
    ensures k.boards <= after.boards
  {
  }

  lemma CreateBoardKeepsNumbered(k: Tables, count: nat, board: nat)
    requires Rooted(k) && board in k.boards && Dense(ColumnKeys(k.columns, board))
    ensures Dense(ColumnKeys(Kanban.CreateBoard(k, count).columns, board))
  {
    TemplateColumns(k.columns, k.nextId, count);
    assert ColumnKeys(Kanban.CreateBoard(k, count).columns, board) == ColumnKeys(k.columns, board);
  }

  lemma AddColumnKeepsNumbered(k: Tables, b: nat, limit: nat, after: Tables, board: nat)
    requires Rooted(k) && AddColumnStep(k, b, limit, after) && Dense(ColumnKeys(k.columns, board))
    ensures Dense(ColumnKeys(after.columns, board))
  {
    if b in k.boards {
      var p := AddedKeys(k, b, limit, after);
      BehindAll(ColumnKeys(k.columns, b), k.nextId, p);
    }
  }

  lemma DeleteColumnKeepsNumbered(k: Tables, column: nat, target: nat, after: Tables, board: nat)
    requires DeleteColumnStep(k, column, target, after) && Dense(ColumnKeys(k.columns, board))
    ensures Dense(ColumnKeys(after.columns, board))
  {
    if CheckDeleteColumn(k, column, target).None? {
      DeleteClosesTheGap(k, column, target, after);
      var b := k.columns[column].board;
      NumberedFromKeepsOrder(ColumnKeys(k.columns, b) - {column}, ColumnKeys(after.columns, b));
    }
  }

  lemma ShiftKeepsNumbered(k: Tables, column: nat, wanted: nat, board: nat)
    requires NumbersDistinct(k.columns) && Dense(ColumnKeys(k.columns, board))
    ensures Dense(ColumnKeys(Kanban.ShiftColumn(k, column, wanted).0.columns, board))
  {
    var (after, error) := Kanban.ShiftColumn(k, column, wanted);
    if error.None? && wanted != k.columns[column].position {
      ShiftColumnShifts(k, column, wanted);
      if k.columns[column].board == board {
        var keys := ColumnKeys(k.columns, board);
        ShiftedMeaning(keys, ColumnKeys(after.columns, board), column, Clamp(wanted, |keys|));
      }
    }
  }

  /** A board numbered 1..n stays so along every run whose reorders repeat no id. */
  lemma {:induction false} NumberingStays(states: seq<Tables>, events: seq<Event>, board: nat, i: nat)
    requires Run(states, events) && Sound(states[0]) && (forall e :: e in events ==> RepeatFree(e))
    requires board in states[0].boards && Dense(ColumnKeys(states[0].columns, board)) && i < |states|
    ensures board in states[i].boards && Dense(ColumnKeys(states[i].columns, board))
  {
    if i == 0 {
    } else {
      RunKeepsSound(states, events, i - 1);
      NumberingStays(states, events, board, i - 1);
      StepOfRun(states, events, i - 1);
      StepKeepsNumbered(states[i - 1], events[i - 1], states[i], board);
      BoardsStay(states[i - 1], events[i - 1], states[i]);
    }
  }

  /** A board made from a template is not numbered 1..n, because its first column has number 0. */
  lemma TemplateIsNotNumbered(k: Tables, count: nat)
    requires Rooted(k) && count > 0
    ensures var columns := ColumnKeys(Kanban.CreateBoard(k, count).columns, k.nextId);
      |columns| == count && !Dense(columns)
  {
    TemplateColumns(k.columns, k.nextId, count);
    var keys := ColumnKeys(Kanban.CreateBoard(k, count).columns, k.nextId);
    assert k.nextId + 1 in keys;
    TemplateSize(keys, k.nextId, count);
  }

  lemma {:induction false} TemplateSize(keys: Keys, board: nat, count: nat)
    requires forall id :: id in keys <==> board < id <= board + count
    ensures |keys| == count
  {
    if count == 0 {
      assert keys == map[];
    } else {
      var rest: Keys := keys - {board + count};
      TemplateSize(rest, board, count - 1);
      assert keys.Keys == rest.Keys + {board + count};
      assert |keys.Keys| == |keys| && |rest.Keys| == |rest|;
    }
  }
}
