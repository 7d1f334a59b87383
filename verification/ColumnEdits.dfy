/** The column view (src/components/KanbanColumn.jsx, local storage, and
    src/component/KanbanColumn.jsx, document database): deleting a column
    with its rollback, and rendering the column's tasks, which sorts the
    column's own task array in place before numbering the cards. */
module ColumnEdits {
  import opened Sequences
  import opened OrderSort
  import opened Kanban

  function IsNotColumn(id: string): Column -> bool {
    (c: Column) => c.id != id
  }

  /** `columns.filter(col => col.id !== id)`: the column goes with all its
      tasks; the others keep their relative order. */
  function DeleteColumn(b: Board, columnId: string): (r: Board)
    ensures forall c :: c in r <==> c in b && c.id != columnId
    ensures !HasColumn(r, columnId)
    ensures |r| <= |b|
  {
    var r := Filter(IsNotColumn(columnId), b);
    assert forall i :: 0 <= i < |r| ==> r[i] in r;
    r
  }

  /** Deleting distributes over the parts of the board, so the survivors
      keep their relative order. */
  lemma DeleteColumnAppend(a: Board, b: Board, columnId: string)
    ensures DeleteColumn(a + b, columnId) == DeleteColumn(a, columnId) + DeleteColumn(b, columnId)
  {
    FilterAppend(IsNotColumn(columnId), a, b);
  }

  /** The rollback: append the captured column when no column has its id,
      otherwise leave the list alone. */
  function RevertDeleteColumn(b: Board, column: Column): (r: Board)
    ensures HasColumn(b, column.id) ==> r == b
    ensures !HasColumn(b, column.id) ==> |r| == |b| + 1 && r[..|b|] == b && r[|b|] == column
  {
    if HasColumn(b, column.id) then b else b + [column]
  }

  lemma RevertDeleteColumnIdempotent(b: Board, column: Column)
    ensures RevertDeleteColumn(RevertDeleteColumn(b, column), column) == RevertDeleteColumn(b, column)
  {
    if !HasColumn(b, column.id) {
      var r := b + [column];
      assert r[|b|].id == column.id;
    }
  }

  /** In the document-database view, a failed delete runs the rollback on
      the filtered board, which puts the column back at the end. */
  lemma DeleteThenRevert(b: Board, column: Column)
    ensures RevertDeleteColumn(DeleteColumn(b, column.id), column) == DeleteColumn(b, column.id) + [column]
  {
  }

  /** Column ids are unique on the board. */
  ghost predicate UniqueColumnIds(b: Board) {
    forall i, j :: 0 <= i < j < |b| ==> b[i].id != b[j].id
  }

  /** With unique column ids, deleting the column at `p` and rolling back
      gives the board back exactly when that column was the last one;
      anywhere else it comes back in the wrong place. */
  lemma DeleteThenRevertRestoresOnlyLast(b: Board, p: nat)
    requires p < |b| && UniqueColumnIds(b)
    ensures RevertDeleteColumn(DeleteColumn(b, b[p].id), b[p]) == b <==> p == |b| - 1
  {
    var c := b[p];
    FilterDropsOnly(IsNotColumn(c.id), b, p);
    var back := RemoveAt(b, p) + [c];
    assert RevertDeleteColumn(DeleteColumn(b, c.id), c) == back;
    if p == |b| - 1 {
      assert back == b;
    } else {
      assert back[p] == b[p + 1];
      assert back[p] != b[p];
    }
  }

  /** The local-storage view's delete. The write to local storage sits
      inside the updater, before its `return`, so a failed write leaves the
      board as it was; the catch then runs the rollback on that old board,
      which appends the column only if it is missing. */
  method DeleteColumnLocal(board: BoardState, column: Column, saved: bool)
    modifies board
    ensures board.columns == if saved then DeleteColumn(old(board.columns), column.id)
      else RevertDeleteColumn(old(board.columns), column)
  {
    if saved {
      board.columns := DeleteColumn(board.columns, column.id);
    } else {
      board.columns := RevertDeleteColumn(board.columns, column);
    }
  }

  /** The document-database view's delete: optimistic filter, the gateway
      call with the column's id, the rollback when it fails. */
  method DeleteColumnRemote(board: BoardState, column: Column, gatewayOk: bool) returns (deletedId: string)
    modifies board
    ensures deletedId == column.id
    ensures var deleted := DeleteColumn(old(board.columns), column.id);
      board.columns == if gatewayOk then deleted else RevertDeleteColumn(deleted, column)
  {
    board.columns := DeleteColumn(board.columns, column.id);
    deletedId := column.id;
    if !gatewayOk {
      board.columns := RevertDeleteColumn(board.columns, column);
    }
  }

  /** The props each task card receives. */
  datatype TaskCardProps = TaskCardProps(task: Task, index: nat, columnId: string)

  /** The task part of the render of the column at `i`, shared by both
      views. The view's `tasks` prop is the column's own list in the board
      state, so `tasks.sort(...)` reorders that list in place, by rank
      (missing as 0). The badge shows the number of tasks, each card gets
      its position in the sorted list, and the add form is told the number
      of tasks. */
  method RenderTasks(board: BoardState, i: nat)
    returns (badge: nat, cards: seq<TaskCardProps>, tasksCount: nat)
    requires i < |board.columns|
    modifies board
    ensures var column := old(board.columns)[i];
      board.columns == old(board.columns)[i := column.(tasks := SortBy(column.tasks, TaskRank))]
    ensures badge == tasksCount == |old(board.columns)[i].tasks|
    ensures |cards| == |board.columns[i].tasks|
    ensures forall j :: 0 <= j < |cards| ==>
      cards[j] == TaskCardProps(board.columns[i].tasks[j], j, board.columns[i].id)
    ensures TasksRanked(old(board.columns)[i].tasks) ==> board.columns == old(board.columns)
  {
    var column := board.columns[i];
    var ts := column.tasks;
    badge := |ts|;
    var a := new Task[|ts|](j requires 0 <= j < |ts| => ts[j]);
    assert a[..] == ts;
    SortInPlace(a, TaskRank);
    if TasksRanked(ts) {
      RankedTasksKeepDisplayOrder(ts);
    }
    board.columns := board.columns[i := column.(tasks := a[..])];
    var sorted := a[..];
    cards := seq(|sorted|, j requires 0 <= j < |sorted| => TaskCardProps(sorted[j], j, column.id));
    tasksCount := |sorted|;
  }

  /** The document-database view passes the column's rank, 0 when missing,
      as its `Draggable` index, while the drag library reads that index as a
      position in the list. The two agree on a ranked board, which this
      states; the render itself computes nothing else to model. */
  lemma DraggableIndexIsPosition(b: Board, i: nat)
    requires ColumnsRanked(b) && i < |b|
    ensures ColumnRank(b[i]) == i
  {
  }
}
