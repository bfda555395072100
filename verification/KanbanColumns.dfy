/** The numbers of a board's columns under adding, shifting, deleting and reordering. */
module KanbanColumns {
  import opened Options
  import opened Numbering
  import opened Kanban
  import opened KanbanMoves

  // ---------- adding ----------

  lemma NextAfterDense(keys: Keys, p: nat)
    requires Dense(keys) && IsNext(keys, p)
    ensures p == |keys| + 1
  {
    if keys != map[] {
      var order := AnyOrder(keys);
      DenseOrder(keys, order);
      ListLength(keys, order);
      var last := order[|order| - 1];
      assert last in order;
    }
  }

  /** The rows of a finite table in order exist. */
  lemma {:induction false} AnyOrder(keys: Keys) returns (order: seq<nat>)
    ensures Sorts(keys, order)
    decreases |keys|
  {
    if keys == map[] {
      order := [];
    } else {
      var id := Last(keys, keys.Keys);
      var rest: Keys := keys - {id};
      assert keys.Keys == rest.Keys + {id};
      assert |keys.Keys| == |keys| && |rest.Keys| == |rest|;
      var front := AnyOrder(rest);
      order := front + [id];
      assert id !in front;
      forall x | x in front
        ensures x in keys && Le(keys[x], keys[id])
      {
        assert x in rest;
      }
    }
  }

  lemma {:induction false} Last(keys: Keys, ids: set<nat>) returns (last: nat)
    requires ids <= keys.Keys && ids != {}
    ensures last in ids && forall id :: id in ids ==> Le(keys[id], keys[last])
    decreases |ids|
  {
    var id :| id in ids;
    if ids == {id} {
      last := id;
    } else {
      last := Last(keys, ids - {id});
      if !Le(keys[id], keys[last]) {
        last := id;
      }
    }
  }

  lemma BehindAll(keys: Keys, id: nat, p: nat)
    requires id !in keys && IsNext(keys, p)
    ensures Distinct(keys) ==> Distinct(keys[id := Key(p, 0)])
    ensures Dense(keys) ==> Dense(keys[id := Key(p, 0)])
  {
    if Dense(keys) {
      NextAfterDense(keys, p);
      var after := keys[id := Key(p, 0)];
      assert after.Keys == keys.Keys + {id} && |after.Keys| == |after| && |keys.Keys| == |keys|;
    }
  }

  lemma AddedBehind(columns: map<nat, Column>, id: nat, board: nat, p: nat, limit: nat)
    requires id !in columns
    ensures ColumnKeys(columns[id := Column(board, p, limit)], board) == ColumnKeys(columns, board)[id := Key(p, 0)]
  {
  }

  lemma {:induction false} TemplateColumns(columns: map<nat, Column>, board: nat, count: nat)
    requires forall id :: id in columns ==> id < board && columns[id].board < board
    ensures var after := WithColumns(columns, board, count);
      && (forall id :: id in after <==> id in columns || board < id <= board + count)
      && (forall id :: id in columns ==> after[id] == columns[id])
      && (forall id :: board < id <= board + count ==> after[id] == Column(board, id - board - 1, 0))
  {
    if count == 0 {
    } else {
      TemplateColumns(columns, board, count - 1);
    }
  }

  // ---------- shifting ----------

  lemma KeyCount(columns: map<nat, Column>, board: nat)
    ensures |ColumnKeys(columns, board)| == |BoardColumns(columns, board)|
  {
    assert ColumnKeys(columns, board).Keys == BoardColumns(columns, board);
    assert |ColumnKeys(columns, board).Keys| == |ColumnKeys(columns, board)|;
  }

  /** Shifting as the keys see it. */
  ghost predicate Shifted(before: Keys, after: Keys, id: nat, to: nat) {
    && after.Keys == before.Keys && id in before && after[id].position == to
    && forall x :: x in before && x != id
         ==> after[x].position == ShiftedPosition(before[x].position, before[id].position, to)
  }

  lemma ShiftKeepsApart(x: nat, y: nat, from: nat, to: nat)
    requires x < y && x != from && y != from
    ensures ShiftedPosition(x, from, to) < ShiftedPosition(y, from, to)
    ensures ShiftedPosition(x, from, to) != to && ShiftedPosition(y, from, to) != to
  {
  }

  lemma ShiftAvoids(x: nat, from: nat, to: nat, n: nat)
    requires x != from
    ensures ShiftedPosition(x, from, to) != to
    ensures 1 <= x <= n && 1 <= from <= n && 1 <= to <= n ==> 1 <= ShiftedPosition(x, from, to) <= n
  {
  }

  /** The column lands at `to`, its siblings keep their order, no two columns share a number, and 1..n stays 1..n. */
  lemma ShiftedMeaning(before: Keys, after: Keys, id: nat, to: nat)
    requires Shifted(before, after, id, to) && Distinct(before)
    ensures Distinct(after)
    ensures forall a, b :: a in before && b in before && a != id && b != id && before[a].position < before[b].position
              ==> after[a].position < after[b].position
    ensures Dense(before) && 1 <= to <= |before| ==> Dense(after)
  {
    assert |before.Keys| == |before| && |after.Keys| == |after|;
    var from := before[id].position;
    forall a, b | a in before && b in before && a != id && b != id && before[a].position < before[b].position
      ensures after[a].position < after[b].position
    {
      ShiftKeepsApart(before[a].position, before[b].position, from, to);
    }
    forall x | x in before && x != id
      ensures after[x].position != to
      ensures Dense(before) && 1 <= to <= |before| ==> 1 <= after[x].position <= |before|
    {
      ShiftAvoids(before[x].position, from, to, |before|);
    }
    forall a, b | a in after && b in after && a != b
      ensures after[a].position != after[b].position
    {
      if a != id && b != id {
        assert before[a].position < before[b].position || before[b].position < before[a].position;
      }
    }
  }

  lemma ShiftColumnShifts(k: Tables, column: nat, wanted: nat)
    requires ShiftColumn(k, column, wanted).1.None? && wanted != k.columns[column].position
    ensures var (board, after) := (k.columns[column].board, ShiftColumn(k, column, wanted).0);
      && var to := Clamp(wanted, |ColumnKeys(k.columns, board)|);
      && 1 <= to <= |ColumnKeys(k.columns, board)|
      && Shifted(ColumnKeys(k.columns, board), ColumnKeys(after.columns, board), column, to)
      && (forall other :: other != board ==> ColumnKeys(after.columns, other) == ColumnKeys(k.columns, other))
  {
    var (board, after) := (k.columns[column].board, ShiftColumn(k, column, wanted).0);
    KeyCount(k.columns, board);
    assert column in BoardColumns(k.columns, board);
    forall other | other != board
      ensures ColumnKeys(after.columns, other) == ColumnKeys(k.columns, other)
    {
    }
  }

  /** After a PATCH of its position a column has the number asked for, or the greatest when that is beyond the board; a
      PATCH to the number it has changes nothing. */
  lemma ShiftLands(k: Tables, column: nat, wanted: nat)
    requires column in k.columns && wanted >= 1
    ensures var (after, error) := ShiftColumn(k, column, wanted);
      var n := |set id | id in k.columns && k.columns[id].board == k.columns[column].board|;
      && error.None? && column in after.columns
      && (wanted != k.columns[column].position ==>
            after.columns[column].position == (if wanted <= n then wanted else n))
      && (wanted == k.columns[column].position ==> after == k)
  {
    var board := k.columns[column].board;
    assert (set id | id in k.columns && k.columns[id].board == board) == BoardColumns(k.columns, board);
    assert column in BoardColumns(k.columns, board);
  }

  /** What a PATCH to a smaller or a greater number does to every other column of the board. */
  lemma SiblingsMakeRoom(k: Tables, column: nat, wanted: nat, id: nat)
    requires column in k.columns && wanted >= 1 && id in k.columns && id != column
    ensures var (after, from) := (ShiftColumn(k, column, wanted).0, k.columns[column].position);
      var n := |set id | id in k.columns && k.columns[id].board == k.columns[column].board|;
      var (to, x) := (if wanted <= n then wanted else n, k.columns[id].position);
      && id in after.columns
      && after.columns[id] == k.columns[id].(position :=
           if k.columns[id].board != k.columns[column].board || wanted == from then x
           else if from < x <= to then x - 1
           else if to <= x < from then x + 1
           else x)
  {
    var board := k.columns[column].board;
    assert (set id | id in k.columns && k.columns[id].board == board) == BoardColumns(k.columns, board);
    assert column in BoardColumns(k.columns, board);
  }

  // ---------- deleting ----------

  lemma ColumnsRenumberedMeaning(before: map<nat, Column>, after: map<nat, Column>, order: seq<nat>, board: nat)
    requires Sorts(ColumnKeys(before, board), order) && ColumnsRenumbered(before, after, order)
    ensures NumberedFrom(ColumnKeys(before, board), ColumnKeys(after, board))
    ensures forall other :: other != board ==> ColumnKeys(after, other) == ColumnKeys(before, other)
  {
    var keys := ColumnKeys(before, board);
    assert ColumnKeys(after, board).Keys == keys.Keys;
    forall i | 0 <= i < |order|
      ensures order[i] in ColumnKeys(after, board) && ColumnKeys(after, board)[order[i]].position == i + 1
    {
      assert order[i] in order;
    }
    assert NumberedAlong(ColumnKeys(after, board), order);
    forall other | other != board
      ensures ColumnKeys(after, other) == ColumnKeys(before, other)
    {
      forall id | id in ColumnKeys(before, other)
        ensures after[id] == before[id]
      {
        assert id !in keys;
        assert id !in order;
      }
    }
  }

  /** Deleting a column closes the gap: the others keep their order and are numbered 1..n, whatever they were. */
  lemma DeleteClosesTheGap(k: Tables, column: nat, target: nat, after: Tables)
    requires CheckDeleteColumn(k, column, target).None? && DeleteColumnStep(k, column, target, after)
    ensures after.columns.Keys == k.columns.Keys - {column}
    ensures forall id :: id in after.columns ==>
              after.columns[id] == k.columns[id].(position := after.columns[id].position)
    ensures var board := k.columns[column].board;
      && NumberedFrom(ColumnKeys(k.columns, board) - {column}, ColumnKeys(after.columns, board))
      && (forall other :: other != board ==> ColumnKeys(after.columns, other) == ColumnKeys(k.columns, other))
  {
    var (board, rest) := (k.columns[column].board, k.columns - {column});
    var order :| Sorts(ColumnKeys(rest, board), order) && ColumnsRenumbered(rest, after.columns, order);
    ColumnsRenumberedMeaning(rest, after.columns, order, board);
    KeysWithout(k.columns, column);
  }

  lemma KeysWithout(columns: map<nat, Column>, column: nat)
    requires column in columns
    ensures var board := columns[column].board;
      && ColumnKeys(columns - {column}, board) == ColumnKeys(columns, board) - {column}
      && (forall other :: other != board ==> ColumnKeys(columns - {column}, other) == ColumnKeys(columns, other))
  {
    forall other | other != columns[column].board
      ensures ColumnKeys(columns - {column}, other) == ColumnKeys(columns, other)
    {
    }
  }

  // ---------- reordering ----------

  predicate IsLastMention(ids: seq<nat>, id: nat, p: nat) {
    1 <= p <= |ids| && ids[p - 1] == id && forall j :: p <= j < |ids| ==> ids[j] != id
  }

  lemma {:induction false} LastPlaceMeaning(ids: seq<nat>, id: nat)
    requires id in ids
    ensures IsLastMention(ids, id, LastPlace(ids, id))
  {
    var front := ids[..|ids| - 1];
    assert ids == front + [ids[|ids| - 1]];
    if ids[|ids| - 1] != id {
      LastPlaceMeaning(front, id);
    }
  }

  lemma {:induction false} DistinctIds(ids: seq<nat>)
    ensures |IdSet(ids)| <= |ids|
    ensures |IdSet(ids)| == |ids| <==> NoRepeats(ids)
  {
    if ids == [] {
    } else {
      var (front, last) := (ids[..|ids| - 1], ids[|ids| - 1]);
      assert ids == front + [last];
      DistinctIds(front);
      assert IdSet(ids) == IdSet(front) + {last};
      if last in front {
        var i :| 0 <= i < |front| && front[i] == last;
        assert ids[i] == ids[|ids| - 1];
        assert IdSet(ids) == IdSet(front);
      } else if !NoRepeats(front) {
        var i, j :| 0 <= i < j < |front| && front[i] == front[j];
        assert ids[i] == ids[j];
      } else {
        NoRepeatsAppend(front, last);
      }
    }
  }

  lemma ReorderKeys(k: Tables, board: nat, ids: seq<nat>)
    requires Reorder(k, board, ids).1.None?
    ensures var (before, after) := (ColumnKeys(k.columns, board), ColumnKeys(Reorder(k, board, ids).0.columns, board));
      && before.Keys == after.Keys == IdSet(ids)
      && (forall id :: id in after ==> after[id].position == LastPlace(ids, id))
    ensures forall other :: other != board ==>
              ColumnKeys(Reorder(k, board, ids).0.columns, other) == ColumnKeys(k.columns, other)
  {
    var (before, after) := (ColumnKeys(k.columns, board), ColumnKeys(Reorder(k, board, ids).0.columns, board));
    assert before.Keys == BoardColumns(k.columns, board) && after.Keys == before.Keys;
    forall other | other != board
      ensures ColumnKeys(Reorder(k, board, ids).0.columns, other) == ColumnKeys(k.columns, other)
    {
    }
  }

  /** From any numbers, each column gets the place of its last mention, so no two share one; they are 1..n exactly
      when no id is repeated. */
  lemma ReorderMeaning(k: Tables, board: nat, ids: seq<nat>)
    requires Reorder(k, board, ids).1.None?
    ensures var after := ColumnKeys(Reorder(k, board, ids).0.columns, board);
      && (forall id :: id in after ==> IsLastMention(ids, id, after[id].position))
      && Distinct(after) && (Dense(after) <==> NoRepeats(ids))
  {
    var after := ColumnKeys(Reorder(k, board, ids).0.columns, board);
    ReorderKeys(k, board, ids);
    forall id | id in after
      ensures IsLastMention(ids, id, after[id].position)
    {
      assert id in IdSet(ids);
      LastPlaceMeaning(ids, id);
    }
    DistinctIds(ids);
    assert |after.Keys| == |after|;
    var last := ids[|ids| - 1];
    assert last in IdSet(ids);
    assert last in after && after[last].position == |ids|;
  }
}
