/** The add-column forms: src/components/AddColumnForm.jsx appends the new
    column and writes through to local storage; src/component/AddColumnForm.jsx
    shows it at once under a temporary id, waits for the document database,
    then swaps in the durable id or tries to roll the column back, by an id
    stamped from a fresh clock reading. As for tasks, the
    awaited call splits that handler into `BeginSubmit` and `FinishSubmit`. */
module ColumnCreation {
  import opened Sequences
  import opened Text
  import opened Kanban
  import opened ColumnEdits

  /** `{ id, title, order: columnsCount, tasks: [] }`. */
  function NewColumn(id: string, title: string, columnsCount: nat): (c: Column)
    ensures c.id == id && c.title == title && c.order == Some(columnsCount) && c.tasks == []
  {
    Column(id, title, Some(columnsCount), [])
  }

  /** `[...prev, column]`. */
  function AppendColumn(b: Board, column: Column): (r: Board)
    ensures |r| == |b| + 1 && r[..|b|] == b && r[|b|] == column
  {
    b + [column]
  }

  /** `prev.map(col => col.id === tempId ? { ...col, id: columnId } : col)`:
      ids change, nothing else does, not even the `columnId` the column's
      tasks carry. */
  function ReplaceColumnId(b: Board, tempId: string, columnId: string): (r: Board)
    ensures |r| == |b|
    ensures forall i :: 0 <= i < |b| ==> r[i].(id := b[i].id) == b[i] && r[i].tasks == b[i].tasks
    ensures forall i :: 0 <= i < |b| ==> r[i].id == if b[i].id == tempId then columnId else b[i].id
  {
    Map((c: Column) => if c.id == tempId then c.(id := columnId) else c, b)
  }

  /** Appending a column under a fresh id and then confirming it is
      appending it under its durable id. */
  lemma AppendThenConfirmColumn(b: Board, column: Column, columnId: string)
    requires !HasColumn(b, column.id)
    ensures ReplaceColumnId(AppendColumn(b, column), column.id, columnId) == AppendColumn(b, column.(id := columnId))
  {
    var r := ReplaceColumnId(AppendColumn(b, column), column.id, columnId);
    assert forall i :: 0 <= i < |b| ==> r[i] == b[i];
  }

  /** The rollback as src/component/AddColumnForm.jsx writes it: the
      filter compares every column's id with an id stamped with the clock
      read while the rollback runs, not with the id the column was shown
      under. One reading `rollbackNow` stands for the clock during the
      filter. */
  function RollbackTempColumnAsWritten(b: Board, rollbackNow: nat): (r: Board)
    ensures !HasColumn(r, StampedId("temp-", rollbackNow))
    ensures |r| <= |b|
  {
    DeleteColumn(b, StampedId("temp-", rollbackNow))
  }

  /** The rollback by the id the column was shown under. */
  function RollbackTempColumn(b: Board, tempId: string): (r: Board)
    ensures !HasColumn(r, tempId)
    ensures |r| <= |b|
  {
    DeleteColumn(b, tempId)
  }

  /** As written, the temporary column survives the rollback exactly when
      the clock has moved on since it was created. */
  lemma AsWrittenRollbackKeepsTempColumn(b: Board, draft: Column, createdNow: nat, rollbackNow: nat)
    ensures var shown := AppendColumn(b, draft.(id := StampedId("temp-", createdNow)));
      HasColumn(RollbackTempColumnAsWritten(shown, rollbackNow), StampedId("temp-", createdNow))
      <==> createdNow != rollbackNow
  {
    var column := draft.(id := StampedId("temp-", createdNow));
    var shown := AppendColumn(b, column);
    StampedIdInjective("temp-", createdNow, rollbackNow);
    if createdNow != rollbackNow {
      assert column in shown;
      var r := RollbackTempColumnAsWritten(shown, rollbackNow);
      assert column in r;
      var k :| 0 <= k < |r| && r[k] == column;
    }
  }

  /** The corrected rollback removes the optimistic column and leaves the
      board as it was, when the temporary id was fresh. */
  lemma RollbackUndoesAppendColumn(b: Board, column: Column)
    requires !HasColumn(b, column.id)
    ensures RollbackTempColumn(AppendColumn(b, column), column.id) == b
  {
    DeleteColumnAppend(b, [column], column.id);
    assert forall c :: c in b ==> c.id != column.id;
    FilterKeepsAll(IsNotColumn(column.id), b);
    assert DeleteColumn([column], column.id) == [];
  }

  /** The local-storage form's state. */
  class LocalAddColumnForm {
    var isAdding: bool
    var title: string
    var isSubmitting: bool

    constructor ()
      ensures !isAdding && title == "" && !isSubmitting
    {
      isAdding, title, isSubmitting := false, "", false;
    }

    /** The "Add Column" button. */
    method Open()
      modifies this
      ensures isAdding && title == old(title) && isSubmitting == old(isSubmitting)
    {
      isAdding := true;
    }

    /** "Cancel" resets all three fields. */
    method Cancel()
      modifies this
      ensures !isAdding && !isSubmitting && title == ""
    {
      isAdding := false;
      isSubmitting := false;
      title := "";
    }

    /** `handleSubmit`. `now` is the clock reading behind the new id;
        `saved` is false when the write to local storage fails. The write
        sits inside the updater, before its `return`, so a failed write
        leaves the board as it was, and the catch only reports the error:
        the form stays open with its title. */
    method HandleSubmit(board: BoardState, columnsCount: nat, now: nat, saved: bool) returns (rejected: bool)
      modifies this, board
      ensures rejected <==> forall i :: 0 <= i < |old(title)| ==> IsJsSpace(old(title)[i])
      ensures rejected ==> board.columns == old(board.columns) && isAdding == old(isAdding)
                           && title == old(title) && isSubmitting == old(isSubmitting)
      ensures !rejected ==>
        && !isSubmitting
        && (saved ==> board.columns == AppendColumn(old(board.columns), NewColumn(StampedId("column-", now), old(title), columnsCount))
                      && title == "" && !isAdding)
        && (!saved ==> board.columns == old(board.columns) && title == old(title) && isAdding == old(isAdding))
    {
      BlankIffAllSpace(title);
      if IsBlank(title) {
        return true;
      }
      rejected := false;
      isSubmitting := true;
      var column := NewColumn(StampedId("column-", now), title, columnsCount);
      if saved {
        board.columns := AppendColumn(board.columns, column);
        title := "";
        isAdding := false;
      }
      isSubmitting := false;
    }
  }

  /** What the document-database form holds across the awaited call. */
  datatype PendingColumn = PendingColumn(tempId: string, draft: Column)

  /** The document-database form's state. */
  class RemoteAddColumnForm {
    var isAdding: bool
    var title: string
    var isSubmitting: bool

    constructor ()
      ensures !isAdding && title == "" && !isSubmitting
    {
      isAdding, title, isSubmitting := false, "", false;
    }

    method Open()
      modifies this
      ensures isAdding && title == old(title) && isSubmitting == old(isSubmitting)
    {
      isAdding := true;
    }

    /** "Cancel" here only hides the form: the title and the submitting
        flag are kept. */
    method Cancel()
      modifies this
      ensures !isAdding && title == old(title) && isSubmitting == old(isSubmitting)
    {
      isAdding := false;
    }

    /** `handleSubmit` up to `await addColumnToFirestore(newColumn)`. The
        record sent out has no id (modelled as an empty one). */
    method BeginSubmit(board: BoardState, columnsCount: nat, now: nat) returns (pending: Option<PendingColumn>)
      modifies this, board
      ensures pending.None? <==> IsBlank(title)
      ensures pending.None? ==> board.columns == old(board.columns) && isSubmitting == old(isSubmitting)
      ensures pending.Some? ==>
        && pending.value.tempId == StampedId("temp-", now)
        && pending.value.draft == NewColumn("", title, columnsCount)
        && board.columns == AppendColumn(old(board.columns), pending.value.draft.(id := pending.value.tempId))
        && isSubmitting
      ensures title == old(title) && isAdding == old(isAdding)
    {
      if IsBlank(title) {
        return None;
      }
      isSubmitting := true;
      var draft := NewColumn("", title, columnsCount);
      var tempId := StampedId("temp-", now);
      board.columns := AppendColumn(board.columns, draft.(id := tempId));
      pending := Some(PendingColumn(tempId, draft));
    }

    /** The rest of `handleSubmit`: swap in the durable id, clear the title
        and hide the form; or run the rollback as written, with the clock
        reading `rollbackNow` taken in the catch. */
    method FinishSubmit(board: BoardState, pending: PendingColumn, outcome: Created, rollbackNow: nat)
      modifies this, board
      ensures outcome.Created? ==>
        board.columns == ReplaceColumnId(old(board.columns), pending.tempId, outcome.id) && title == "" && !isAdding
      ensures outcome.CreateFailed? ==>
        board.columns == RollbackTempColumnAsWritten(old(board.columns), rollbackNow)
        && title == old(title) && isAdding == old(isAdding)
      ensures !isSubmitting
    {
      match outcome {
        case Created(columnId) =>
          board.columns := ReplaceColumnId(board.columns, pending.tempId, columnId);
          title := "";
          isAdding := false;
        case CreateFailed =>
          board.columns := RollbackTempColumnAsWritten(board.columns, rollbackNow);
      }
      isSubmitting := false;
    }
  }
}
