/** Drag and drop on the board (src/App.jsx): the drag-start handler
    remembers what is being dragged, and the drag-end handler moves a
    column, moves a task inside its column, or moves a task to another
    column, re-ranking every list it touches. The drag-and-drop library
    itself is outside the model: its events arrive as `Active` and `Over`
    values. */
module Reorder {
  import opened Sequences
  import opened OrderSort
  import opened Kanban

  datatype DragKind = ColumnDrag | TaskDrag

  /** The sortable data the library attaches to an item: the id of the
      list it sits in and its index there. */
  datatype Sortable = Sortable(containerId: string, index: nat)

  /** `event.active`: `dataType` is `active.data.current?.type`. */
  datatype Active = Active(id: string, dataType: Option<string>, sortable: Sortable)

  /** `event.over`: the droppable under the pointer; `sortable` is absent
      when it is not a sortable item (an empty column, say). */
  datatype Over = Over(id: string, sortable: Option<Sortable>)

  /** The drag type recorded at drag start. */
  function KindOf(dataType: Option<string>): (k: DragKind)
    ensures k == ColumnDrag <==> dataType == Some("column")
    ensures k == TaskDrag <==> dataType != Some("column")
  {
    if dataType == Some("column") then ColumnDrag else TaskDrag
  }

  /** `over.data.current?.sortable.containerId || over.id`: an empty
      container id is falsy. */
  function OverContainer(over: Over): string {
    if over.sortable.Some? && over.sortable.value.containerId != "" then over.sortable.value.containerId
    else over.id
  }

  /** `over.data.current?.sortable.index ?? col.tasks.length`. */
  function OverIndex(over: Over, len: nat): nat {
    if over.sortable.Some? then over.sortable.value.index else len
  }

  /** `columns.findIndex(col => col.id === id)`, with -1 as `None`. */
  function ColumnIndex(b: Board, id: string): (r: Option<nat>)
    ensures r.Some? ==> r.value < |b| && b[r.value].id == id
    ensures r.Some? ==> forall j :: 0 <= j < r.value ==> b[j].id != id
    ensures r.None? <==> !HasColumn(b, id)
  {
    if b == [] then None
    else if b[0].id == id then Some(0)
    else
      match ColumnIndex(b[1..], id)
      case Some(k) => Some(k + 1)
      case None =>
        assert forall j :: 1 <= j < |b| ==> b[j] == b[1..][j - 1];
        None
  }

  function ColumnId(c: Column): string { c.id }

  /** The column branch's updater: move the dragged column to the index of
      the column it was dropped on and re-rank. When either id is missing
      the board is returned unchanged. */
  function MoveColumn(b: Board, activeId: string, overId: string): (r: Board)
    ensures |r| == |b|
    ensures HasColumn(b, activeId) && HasColumn(b, overId) ==>
      var from, to := ColumnIndex(b, activeId).value, ColumnIndex(b, overId).value;
      && ColumnsRanked(r)
      && UnrankColumn(r[to]) == UnrankColumn(b[from])
      && RemoveAt(Map(UnrankColumn, r), to) == RemoveAt(Map(UnrankColumn, b), from)
      && multiset(Map(UnrankColumn, r)) == multiset(Map(UnrankColumn, b))
    ensures !(HasColumn(b, activeId) && HasColumn(b, overId)) ==> r == b
  {
    match (ColumnIndex(b, activeId), ColumnIndex(b, overId))
    case (Some(from), Some(to)) =>
      ArrayMoveMap(UnrankColumn, b, from, to);
      assert Clamp(to, |b| - 1) == to;
      ReRankColumns(ArrayMove(b, from, to))
    case _ => b
  }

  /** The same-column updater on one task list: `arrayMove` then re-rank.
      The moved task lands at `to`, or last when `to` is past the end; the
      other tasks keep their relative order; only ranks change. */
  function MoveTask(ts: seq<Task>, from: nat, to: nat): (r: seq<Task>)
    ensures |r| == |ts|
    ensures from < |ts| ==>
      && TasksRanked(r)
      && Unrank(r[Clamp(to, |ts| - 1)]) == Unrank(ts[from])
      && RemoveAt(Map(Unrank, r), Clamp(to, |ts| - 1)) == RemoveAt(Map(Unrank, ts), from)
      && multiset(Map(Unrank, r)) == multiset(Map(Unrank, ts))
    ensures from >= |ts| ==> r == ts
  {
    if from < |ts| then
      ArrayMoveMap(Unrank, ts, from, to);
      ReRankTasks(ArrayMove(ts, from, to))
    else ts
  }

  /** Dropping a task back on its own slot leaves a ranked column as it
      was. */
  lemma MoveTaskToSameSlot(ts: seq<Task>, i: nat)
    requires i < |ts|
    requires TasksRanked(ts)
    ensures MoveTask(ts, i, i) == ts
  {
    ArrayMoveToSameIndex(ts, i);
    assert ReRankTasks(ts) == ts;
  }

  /** Dropping a task on the column itself (no index) moves it last. */
  lemma MoveTaskToColumnEnd(ts: seq<Task>, from: nat)
    requires from < |ts|
    ensures Unrank(MoveTask(ts, from, |ts|)[|ts| - 1]) == Unrank(ts[from])
    ensures MoveTask(ts, from, |ts|)[|ts| - 1].order == Some(|ts| - 1)
  {
    assert Clamp(|ts|, |ts| - 1) == |ts| - 1;
  }

  /** The same-column branch over the board: every column with the
      container's id gets its tasks moved; every other column is kept. */
  function MoveTaskWithin(b: Board, container: string, from: nat, over: Over): (r: Board)
    ensures |r| == |b|
    ensures forall i :: 0 <= i < |b| && b[i].id != container ==> r[i] == b[i]
    ensures forall i :: 0 <= i < |b| && b[i].id == container ==>
      r[i] == b[i].(tasks := MoveTask(b[i].tasks, from, OverIndex(over, |b[i].tasks|)))
  {
    UpdateTasks(b, container, ts => MoveTask(ts, from, OverIndex(over, |ts|)))
  }

  /** The destination side: splice the moved task, re-labelled with the
      destination column, in at `at` (clamped to the end), then re-rank. */
  function ReceiveTask(ts: seq<Task>, moving: Task, dest: string, at: nat): (r: seq<Task>)
    ensures |r| == |ts| + 1
    ensures TasksRanked(r)
    ensures r[Clamp(at, |ts|)] == moving.(columnId := dest, order := Some(Clamp(at, |ts|)))
    ensures RemoveAt(Map(Unrank, r), Clamp(at, |ts|)) == Map(Unrank, ts)
  {
    var spliced := InsertAt(ts, at, moving.(columnId := dest, order := Some(at)));
    MapRemoveAt(Unrank, spliced, Clamp(at, |ts|));
    ReRankTasks(spliced)
  }

  /** `{ ...activeTask, columnId, order }`: when no task has the id, the
      spread of `undefined` leaves only the two written fields, modelled as
      an otherwise empty record. */
  function MovingTask(found: Option<Task>): Task {
    match found
    case Some(t) => t
    case None => Task("", "", "", false, "", NoSchedule, "", None, None)
  }

  /** The cross-column branch over the board. The moved record is the
      first task with the id anywhere on the board. */
  function MoveTaskAcross(b: Board, taskId: string, source: string, dest: string, over: Over): (r: Board)
    ensures |r| == |b|
    ensures forall i :: 0 <= i < |b| && b[i].id != source && b[i].id != dest ==> r[i] == b[i]
    ensures forall i :: 0 <= i < |b| && b[i].id == source ==>
      r[i] == b[i].(tasks := DropTask(b[i].tasks, taskId))
    ensures forall i :: 0 <= i < |b| && b[i].id == dest && dest != source ==>
      r[i] == b[i].(tasks := ReceiveTask(b[i].tasks, MovingTask(FindTask(AllTasks(b), taskId)), dest,
                                         OverIndex(over, |b[i].tasks|)))
  {
    var moving := MovingTask(FindTask(AllTasks(b), taskId));
    seq(|b|, i requires 0 <= i < |b| =>
      if b[i].id == source then b[i].(tasks := DropTask(b[i].tasks, taskId))
      else if b[i].id == dest then b[i].(tasks := ReceiveTask(b[i].tasks, moving, dest, OverIndex(over, |b[i].tasks|)))
      else b[i])
  }

  /** Task ids are unique across the whole board. */
  ghost predicate UniqueTaskIds(b: Board) {
    var all := AllTasks(b);
    forall i, j :: 0 <= i < j < |all| ==> all[i].id != all[j].id
  }

  /** With unique ids, the record the destination receives is the dragged
      task itself. */
  lemma FoundTaskIsDragged(b: Board, s: nat, t: Task)
    requires s < |b| && t in b[s].tasks
    requires UniqueTaskIds(b)
    ensures FindTask(AllTasks(b), t.id) == Some(t)
  {
    var all := AllTasks(b);
    var found := FindTask(all, t.id);
    assert t in all;
    assert found.Some?;
    var i :| 0 <= i < |all| && all[i] == found.value;
    var j :| 0 <= j < |all| && all[j] == t;
    assert i == j;
  }

  /** A cross-column move between two distinct columns, of a task that sits
      once in the source column and whose id no other task shares, keeps
      the two columns' combined task count and delivers that very task to
      the destination slot, relabelled and re-ranked. */
  lemma CrossMoveConservesTasks(b: Board, t: Task, s: nat, d: nat, over: Over)
    requires s < |b| && d < |b| && b[s].id != b[d].id
    requires t in b[s].tasks && CountTask(b[s].tasks, t.id) == 1
    requires UniqueTaskIds(b)
    ensures var r := MoveTaskAcross(b, t.id, b[s].id, b[d].id, over);
      var k := Clamp(OverIndex(over, |b[d].tasks|), |b[d].tasks|);
      && |r[s].tasks| + |r[d].tasks| == |b[s].tasks| + |b[d].tasks|
      && r[d].tasks[k] == t.(columnId := b[d].id, order := Some(k))
      && forall i :: 0 <= i < |r[s].tasks| ==> r[s].tasks[i].id != t.id
  {
    FoundTaskIsDragged(b, s, t);
  }

  /** The whole drag-end updater: what happens to `columns` given the drag
      type recorded at drag start and the event's `active` and `over`. */
  function DragEndBoard(b: Board, kind: Option<DragKind>, active: Active, over: Option<Over>): (r: Board)
    ensures |r| == |b|
  {
    if over.None? then b
    else if kind == Some(ColumnDrag) then
      if active.id != over.value.id then MoveColumn(b, active.id, over.value.id) else b
    else if kind == Some(TaskDrag) then
      var source, dest := active.sortable.containerId, OverContainer(over.value);
      if !HasColumn(b, source) || !HasColumn(b, dest) then b
      else if source == dest then MoveTaskWithin(b, source, active.sortable.index, over.value)
      else MoveTaskAcross(b, active.id, source, dest, over.value)
    else b
  }

  /** Whether the handler reaches its final reset of the drag state: every
      path does except the early return for a missing column. */
  predicate ClearsDrag(b: Board, kind: Option<DragKind>, active: Active, over: Option<Over>) {
    || over.None?
    || kind != Some(TaskDrag)
    || (HasColumn(b, active.sortable.containerId) && HasColumn(b, OverContainer(over.value)))
  }

  /** A drop on nothing, a column dropped on itself and a task drop whose
      column is missing all leave the board as it was. */
  lemma DragEndNoOps(b: Board, kind: Option<DragKind>, active: Active, over: Option<Over>)
    ensures over.None? ==> DragEndBoard(b, kind, active, over) == b
    ensures over.Some? && kind == Some(ColumnDrag) && active.id == over.value.id ==>
      DragEndBoard(b, kind, active, over) == b
    ensures !ClearsDrag(b, kind, active, over) ==> DragEndBoard(b, kind, active, over) == b
  {
  }

  /** A task move relabels no column and reorders none: only task lists
      change. */
  lemma TaskMovesKeepColumns(b: Board, active: Active, over: Over)
    ensures var r := MoveTaskWithin(b, active.sortable.containerId, active.sortable.index, over);
      forall i :: 0 <= i < |b| ==> r[i].id == b[i].id && r[i].order == b[i].order
    ensures var r := MoveTaskAcross(b, active.id, active.sortable.containerId, OverContainer(over), over);
      forall i :: 0 <= i < |b| ==> r[i].id == b[i].id && r[i].order == b[i].order
  {
  }

  /** A column move only permutes the columns: each one keeps its tasks. */
  lemma {:induction false} ColumnMoveKeepsTaskRanks(b: Board, activeId: string, overId: string)
    requires BoardTasksRanked(b)
    ensures BoardTasksRanked(MoveColumn(b, activeId, overId))
  {
    if HasColumn(b, activeId) && HasColumn(b, overId) {
      var from, to := ColumnIndex(b, activeId).value, ColumnIndex(b, overId).value;
      var moved := ArrayMove(b, from, to);
      var r := MoveColumn(b, activeId, overId);
      assert r == ReRankColumns(moved);
      forall i | 0 <= i < |r|
        ensures TasksRanked(r[i].tasks)
      {
        assert moved[i] in multiset(b);
        var j :| 0 <= j < |b| && b[j] == moved[i];
        assert TasksRanked(b[j].tasks);
      }
    }
  }

  /** Re-ranking in the task branches keeps every task list ranked. */
  lemma TaskMovesKeepTaskRanks(b: Board, active: Active, over: Over)
    requires BoardTasksRanked(b)
    ensures BoardTasksRanked(MoveTaskWithin(b, active.sortable.containerId, active.sortable.index, over))
    ensures BoardTasksRanked(MoveTaskAcross(b, active.id, active.sortable.containerId, OverContainer(over), over))
  {
    var within := MoveTaskWithin(b, active.sortable.containerId, active.sortable.index, over);
    forall i | 0 <= i < |b|
      ensures TasksRanked(within[i].tasks)
    {
      assert TasksRanked(b[i].tasks);
    }
  }

  /** No drag adds, drops or renames a column: the column ids are permuted. */
  lemma {:induction false} DragEndKeepsColumnIds(b: Board, kind: Option<DragKind>, active: Active, over: Option<Over>)
    ensures multiset(Map(ColumnId, DragEndBoard(b, kind, active, over))) == multiset(Map(ColumnId, b))
  {
    var r := DragEndBoard(b, kind, active, over);
    if over.None? || kind.None? {
    } else if kind == Some(ColumnDrag) {
      if active.id != over.value.id && HasColumn(b, active.id) && HasColumn(b, over.value.id) {
        var from, to := ColumnIndex(b, active.id).value, ColumnIndex(b, over.value.id).value;
        var moved := ArrayMove(b, from, to);
        assert Map(ColumnId, r) == Map(ColumnId, moved) by {
          assert r == ReRankColumns(moved);
        }
        ArrayMoveMap(ColumnId, b, from, to);
      }
    } else {
      TaskMovesKeepColumns(b, active, over.value);
      assert Map(ColumnId, r) == Map(ColumnId, b);
    }
  }

  /** A board whose columns and task lists are ranked by position stays so
      after any drag: the display sorts then leave every list as stored. */
  lemma {:induction false} DragEndKeepsRanks(b: Board, kind: Option<DragKind>, active: Active, over: Option<Over>)
    requires ColumnsRanked(b) && BoardTasksRanked(b)
    ensures ColumnsRanked(DragEndBoard(b, kind, active, over))
    ensures BoardTasksRanked(DragEndBoard(b, kind, active, over))
  {
    if over.None? || kind.None? {
    } else if kind == Some(ColumnDrag) {
      ColumnMoveKeepsTaskRanks(b, active.id, over.value.id);
    } else {
      TaskMovesKeepColumns(b, active, over.value);
      TaskMovesKeepTaskRanks(b, active, over.value);
    }
  }

  /** The drag state of the board component. */
  class DragState {
    var activeId: Option<string>
    var activeType: Option<DragKind>

    constructor ()
      ensures activeId == None && activeType == None
    {
      activeId := None;
      activeType := None;
    }

    /** `handleDragStart`. */
    method HandleDragStart(active: Active)
      modifies this
      ensures activeId == Some(active.id)
      ensures activeType == Some(ColumnDrag) <==> active.dataType == Some("column")
      ensures activeType == Some(TaskDrag) <==> active.dataType != Some("column")
    {
      activeId := Some(active.id);
      if active.dataType == Some("column") {
        activeType := Some(ColumnDrag);
      } else {
        activeType := Some(TaskDrag);
      }
    }

    /** `handleDragEnd`: apply the updater, then clear the drag state,
        except on the early return for a missing column. */
    method HandleDragEnd(board: BoardState, active: Active, over: Option<Over>)
      modifies this, board
      ensures board.columns == DragEndBoard(old(board.columns), old(activeType), active, over)
      ensures ClearsDrag(old(board.columns), old(activeType), active, over) ==>
        activeId == None && activeType == None
      ensures !ClearsDrag(old(board.columns), old(activeType), active, over) ==>
        activeId == old(activeId) && activeType == old(activeType)
    {
      if over.None? {
        activeId := None;
        activeType := None;
        return;
      }
      var target := over.value;
      if activeType == Some(ColumnDrag) {
        if active.id != target.id {
          board.columns := MoveColumn(board.columns, active.id, target.id);
        }
      } else if activeType == Some(TaskDrag) {
        var activeContainer := active.sortable.containerId;
        var overContainer := OverContainer(target);
        if !HasColumn(board.columns, activeContainer) || !HasColumn(board.columns, overContainer) {
          return;
        }
        if activeContainer == overContainer {
          board.columns := MoveTaskWithin(board.columns, activeContainer, active.sortable.index, target);
        } else {
          board.columns := MoveTaskAcross(board.columns, active.id, activeContainer, overContainer, target);
        }
      }
      activeId := None;
      activeType := None;
    }
  }

  /** The board's render: `columns.sort(...)` sorts the state array itself
      by rank (missing as 0), and the add-column form is handed the number
      of columns. */
  method RenderColumns(board: BoardState) returns (shown: seq<Column>, columnsCount: nat)
    modifies board
    ensures board.columns == SortBy(old(board.columns), ColumnRank)
    ensures shown == board.columns
    ensures columnsCount == |old(board.columns)|
  {
    var cols := board.columns;
    var a := new Column[|cols|](i requires 0 <= i < |cols| => cols[i]);
    assert a[..] == cols;
    SortInPlace(a, ColumnRank);
    board.columns := a[..];
    shown := board.columns;
    columnsCount := a.Length;
  }
}
