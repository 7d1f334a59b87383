/** The add-task forms: src/components/AddTaskForm.jsx writes through to
    local storage in one step; src/component/AddTaskForm.jsx shows the task
    at once under a temporary id, waits for the document database and then
    either swaps in the durable id or tries to roll the temporary task back,
    by an id stamped from a fresh clock reading. The
    wait is modelled by splitting that handler in two: `BeginSubmit` runs up
    to the awaited call, `FinishSubmit` runs with its outcome. */
module TaskCreation {
  import opened Sequences
  import opened Text
  import opened Kanban
  import opened TaskEdits

  /** `unit === "hours" ? "hr" : unit.slice(0, -1)`. */
  function ShortUnit(unit: string): (u: string)
    ensures unit == "hours" ==> u == "hr"
    ensures unit != "hours" && unit != "" ==> unit == u + [unit[|unit| - 1]]
    ensures unit == "" ==> u == ""
  {
    if unit == "hours" then "hr" else if unit == "" then "" else unit[..|unit| - 1]
  }

  /** `formatTimeframe(value, unit)`: "" for an empty value, otherwise the
      value, a space and the shortened unit, pluralised unless the value is
      exactly "1". */
  function FormatTimeframe(value: string, unit: string): (r: string)
    ensures value == "" <==> r == ""
    ensures value != "" ==> |r| > |value| && r[..|value| + 1] == value + " "
    ensures value == "1" ==> r == "1 " + ShortUnit(unit)
    ensures value != "" && value != "1" ==> r == value + " " + ShortUnit(unit) + "s"
  {
    if value == "" then ""
    else value + " " + ShortUnit(unit) + (if value == "1" then "" else "s")
  }

  lemma FormatTimeframeExamples()
    ensures FormatTimeframe("2", "hours") == "2 hrs"
    ensures FormatTimeframe("1", "days") == "1 day"
    ensures FormatTimeframe("3", "weeks") == "3 weeks"
    ensures FormatTimeframe("1", "hours") == "1 hr"
    ensures FormatTimeframe("", "days") == ""
  {
    assert "days"[..3] == "day";
    assert "weeks"[..4] == "week";
  }

  /** The text up to the first space. */
  function UpToSpace(s: string): (r: string)
    ensures |r| <= |s| && r == s[..|r|]
    ensures ' ' !in r
  {
    if s == [] || s[0] == ' ' then [] else [s[0]] + UpToSpace(s[1..])
  }

  /** The estimate's value can be read back from its formatted text when
      the value holds no space. */
  lemma {:induction false} FormattedValueReadsBack(value: string, unit: string)
    requires value != "" && ' ' !in value
    ensures UpToSpace(FormatTimeframe(value, unit)) == value
  {
    var r := FormatTimeframe(value, unit);
    UpToSpaceStops(value, r[|value|..]);
    assert r == value + r[|value|..];
  }

  lemma {:induction false} UpToSpaceStops(value: string, rest: string)
    requires ' ' !in value && rest != [] && rest[0] == ' '
    ensures UpToSpace(value + rest) == value
  {
    if value == [] {
      assert value + rest == rest;
    } else {
      assert (value + rest)[1..] == value[1..] + rest;
      assert ' ' !in value[1..];
      UpToSpaceStops(value[1..], rest);
    }
  }

  datatype Rejection = BlankTitle | MissingTimeframe

  /** The local form's checks, in order: a title that trims to nothing,
      then an empty timeframe. */
  function ValidateLocal(title: string, timeframe: string): (r: Option<Rejection>)
    ensures r == Some(BlankTitle) <==> forall i :: 0 <= i < |title| ==> IsJsSpace(title[i])
    ensures r == Some(MissingTimeframe) <==> !IsBlank(title) && timeframe == ""
    ensures r.None? <==> !IsBlank(title) && timeframe != ""
  {
    BlankIffAllSpace(title);
    if IsBlank(title) then Some(BlankTitle)
    else if timeframe == "" then Some(MissingTimeframe)
    else None
  }

  const DefaultAssignee := Assignee("You", "/placeholder.svg?height=40&width=40")

  /** The local form's `newTask`. */
  function NewLocalTask(id: string, title: string, description: string, completed: bool, priority: string,
                        timeframe: string, timeUnit: string, columnId: string, tasksCount: nat): (t: Task)
    ensures t.id == id && t.title == title && t.columnId == columnId && t.order == Some(tasksCount)
    ensures t.completed == completed && t.priority == priority
    ensures t.schedule.TimeEstimate? && t.schedule.value == timeframe && t.schedule.unit == timeUnit
    ensures t.schedule.formatted == FormatTimeframe(timeframe, timeUnit)
  {
    Task(id, title, description, completed, priority,
         TimeEstimate(timeframe, timeUnit, FormatTimeframe(timeframe, timeUnit)),
         columnId, Some(tasksCount), Some(DefaultAssignee))
  }

  /** The document-database form's `newTask`: it carries no id (modelled as
      an empty one), starts not completed, and has an optional due date. */
  function NewRemoteDraft(title: string, description: string, priority: string, dueDate: Option<string>,
                          columnId: string, tasksCount: nat): (t: Task)
    ensures t.id == "" && !t.completed && t.order == Some(tasksCount) && t.columnId == columnId
    ensures t.title == title && t.priority == priority
    ensures dueDate.Some? <==> t.schedule.DueDate?
  {
    Task("", title, description, false, priority,
         if dueDate.Some? then DueDate(dueDate.value) else NoSchedule,
         columnId, Some(tasksCount), Some(DefaultAssignee))
  }

  /** `tasks: [...(col.tasks || []), task]` on the column with the id. */
  function AppendTask(b: Board, columnId: string, task: Task): (r: Board)
    ensures |r| == |b|
    ensures forall i :: 0 <= i < |b| && b[i].id != columnId ==> r[i] == b[i]
    ensures forall i :: 0 <= i < |b| && b[i].id == columnId ==>
      r[i].(tasks := b[i].tasks) == b[i] && r[i].tasks == b[i].tasks + [task]
  {
    UpdateTasks(b, columnId, ts => ts + [task])
  }

  /** `tasks.map(t => t.id === tempId ? { ...t, id: taskId } : t)`. */
  function ReplaceTaskId(b: Board, columnId: string, tempId: string, taskId: string): (r: Board)
    ensures |r| == |b|
    ensures forall i :: 0 <= i < |b| && b[i].id != columnId ==> r[i] == b[i]
    ensures forall i :: 0 <= i < |b| && b[i].id == columnId ==>
      && r[i].(tasks := b[i].tasks) == b[i]
      && |r[i].tasks| == |b[i].tasks|
      && forall j :: 0 <= j < |b[i].tasks| ==>
           r[i].tasks[j] == if b[i].tasks[j].id == tempId then b[i].tasks[j].(id := taskId) else b[i].tasks[j]
  {
    UpdateTasks(b, columnId, ts => Map((t: Task) => if t.id == tempId then t.(id := taskId) else t, ts))
  }

  /** No column with the id holds a task with `taskId` yet. */
  ghost predicate FreshIn(b: Board, columnId: string, taskId: string) {
    forall i :: 0 <= i < |b| && b[i].id == columnId ==> !HasTask(b[i].tasks, taskId)
  }

  /** Rolling back by the appended task's own id undoes the append. */
  lemma AppendThenRemoveRestores(b: Board, columnId: string, task: Task)
    requires FreshIn(b, columnId, task.id)
    ensures DeleteTaskKeepingRanks(AppendTask(b, columnId, task), columnId, task.id) == b
  {
    var r := DeleteTaskKeepingRanks(AppendTask(b, columnId, task), columnId, task.id);
    forall i | 0 <= i < |b| ensures r[i] == b[i] {
      if b[i].id == columnId {
        WithoutTaskAppend(b[i].tasks, [task], task.id);
        WithoutAbsentTask(b[i].tasks, task.id);
        assert WithoutTask([task], task.id) == [];
      }
    }
  }

  /** The optimistic append followed by the id swap is the append of the
      task under its durable id. */
  lemma AppendThenConfirm(b: Board, columnId: string, task: Task, taskId: string)
    requires FreshIn(b, columnId, task.id)
    ensures ReplaceTaskId(AppendTask(b, columnId, task), columnId, task.id, taskId)
         == AppendTask(b, columnId, task.(id := taskId))
  {
    var r := ReplaceTaskId(AppendTask(b, columnId, task), columnId, task.id, taskId);
    var e := AppendTask(b, columnId, task.(id := taskId));
    forall i | 0 <= i < |b| ensures r[i] == e[i] {
      if b[i].id == columnId {
        var ts := b[i].tasks;
        forall j | 0 <= j < |ts| ensures ts[j].id != task.id {
          assert ts[j] in ts;
        }
        assert r[i].tasks == e[i].tasks;
      }
    }
  }

  /** The rollback as src/component/AddTaskForm.jsx writes it: the filter
      compares every task's id with an id stamped with the clock read while
      the rollback runs, not with the id the task was shown under. One
      reading `rollbackNow` stands for the clock during the filter. */
  function RollbackTempTaskAsWritten(b: Board, columnId: string, rollbackNow: nat): (r: Board)
    ensures |r| == |b|
    ensures forall i :: 0 <= i < |b| && b[i].id != columnId ==> r[i] == b[i]
    ensures forall i :: 0 <= i < |b| && b[i].id == columnId ==>
      !HasTask(r[i].tasks, StampedId("temp-", rollbackNow))
  {
    DeleteTaskKeepingRanks(b, columnId, StampedId("temp-", rollbackNow))
  }

  /** The rollback by the id the task was shown under. */
  function RollbackTempTask(b: Board, columnId: string, tempId: string): (r: Board)
    ensures |r| == |b|
    ensures forall i :: 0 <= i < |b| && b[i].id == columnId ==> !HasTask(r[i].tasks, tempId)
  {
    DeleteTaskKeepingRanks(b, columnId, tempId)
  }

  /** As written, the temporary task survives the rollback exactly when the
      clock has moved on between creating it and rolling it back. */
  lemma AsWrittenRollbackKeepsTempTask(b: Board, columnId: string, draft: Task, createdNow: nat, rollbackNow: nat, i: nat)
    requires i < |b| && b[i].id == columnId
    ensures var shown := AppendTask(b, columnId, draft.(id := StampedId("temp-", createdNow)));
      HasTask(RollbackTempTaskAsWritten(shown, columnId, rollbackNow)[i].tasks, StampedId("temp-", createdNow))
      <==> createdNow != rollbackNow
  {
    var tempId := StampedId("temp-", createdNow);
    var task := draft.(id := tempId);
    var shown := AppendTask(b, columnId, task);
    StampedIdInjective("temp-", createdNow, rollbackNow);
    if createdNow != rollbackNow {
      assert task in shown[i].tasks;
    }
  }

  /** A submit one millisecond after the previous one: the as-written
      rollback leaves the temporary task on the board. */
  lemma AsWrittenRollbackExample(draft: Task)
    ensures var b := [Column("todo", "To do", Some(0), [])];
      var shown := AppendTask(b, "todo", draft.(id := StampedId("temp-", 1000)));
      RollbackTempTaskAsWritten(shown, "todo", 1001) == shown
  {
    var b := [Column("todo", "To do", Some(0), [])];
    var task := draft.(id := StampedId("temp-", 1000));
    var shown := AppendTask(b, "todo", task);
    StampedIdInjective("temp-", 1000, 1001);
    assert shown[0].tasks == [task];
    WithoutAbsentTask([task], StampedId("temp-", 1001));
  }

  /** The corrected rollback always removes what the optimistic step
      added, and only that. */
  lemma RollbackUndoesAppend(b: Board, columnId: string, task: Task)
    requires FreshIn(b, columnId, task.id)
    ensures RollbackTempTask(AppendTask(b, columnId, task), columnId, task.id) == b
  {
    AppendThenRemoveRestores(b, columnId, task);
  }

  /** The catch of the local-storage form filters out an id the board it
      runs on does not hold, so it changes nothing. */
  lemma FailedLocalAddKeepsBoard(b: Board, columnId: string, taskId: string)
    requires FreshIn(b, columnId, taskId)
    ensures DeleteTaskKeepingRanks(b, columnId, taskId) == b
  {
    var r := DeleteTaskKeepingRanks(b, columnId, taskId);
    forall i | 0 <= i < |b| ensures r[i] == b[i] {
      if b[i].id == columnId {
        WithoutAbsentTask(b[i].tasks, taskId);
      }
    }
  }

  /** The local-storage form's state. */
  class LocalAddTaskForm {
    var title: string
    var description: string
    var priority: string
    var timeframe: string
    var timeUnit: string
    var completed: bool
    var isSubmitting: bool

    constructor ()
      ensures title == "" && description == "" && priority == "medium"
      ensures timeframe == "" && timeUnit == "hours" && !completed && !isSubmitting
    {
      title, description, priority := "", "", "medium";
      timeframe, timeUnit := "", "hours";
      completed, isSubmitting := false, false;
    }

    /** `handleSubmit`. `now` is the clock reading behind the new id;
        `saved` is false when the write to local storage fails. The write
        sits inside the updater, before its `return`, so a failed write
        leaves the board as it was, and the catch's filter runs on that old
        board. `closeForm` is the call that hides the form. */
    method HandleSubmit(board: BoardState, columnId: string, tasksCount: nat, now: nat, saved: bool)
      returns (rejected: Option<Rejection>, closeForm: bool)
      modifies this, board
      ensures rejected == ValidateLocal(title, timeframe)
      ensures rejected.Some? ==> board.columns == old(board.columns) && isSubmitting == old(isSubmitting) && !closeForm
      ensures rejected.None? ==>
        var task := NewLocalTask(StampedId("task-", now), title, description, completed, priority,
                                 timeframe, timeUnit, columnId, tasksCount);
        && board.columns == (if saved then AppendTask(old(board.columns), columnId, task)
                             else DeleteTaskKeepingRanks(old(board.columns), columnId, task.id))
        && !isSubmitting
        && closeForm == saved
      ensures title == old(title) && description == old(description) && priority == old(priority)
      ensures timeframe == old(timeframe) && timeUnit == old(timeUnit) && completed == old(completed)
    {
      closeForm := false;
      rejected := ValidateLocal(title, timeframe);
      if IsBlank(title) {
        return;
      }
      if timeframe == "" {
        return;
      }
      isSubmitting := true;
      var task := NewLocalTask(StampedId("task-", now), title, description, completed, priority,
                               timeframe, timeUnit, columnId, tasksCount);
      if saved {
        board.columns := AppendTask(board.columns, columnId, task);
        closeForm := true;
      } else {
        board.columns := DeleteTaskKeepingRanks(board.columns, columnId, task.id);
      }
      isSubmitting := false;
    }
  }

  /** What the document-database form holds across the awaited call: the
      temporary id the task is shown under and the record sent out. */
  datatype PendingTask = PendingTask(tempId: string, draft: Task)

  /** The document-database form's state. */
  class RemoteAddTaskForm {
    var title: string
    var description: string
    var priority: string
    var dueDate: Option<string>
    var isSubmitting: bool

    constructor ()
      ensures title == "" && description == "" && priority == "medium" && dueDate == None && !isSubmitting
    {
      title, description, priority := "", "", "medium";
      dueDate := None;
      isSubmitting := false;
    }

    /** `handleSubmit` up to `await addTaskToFirestore(newTask)`: validate,
        raise `isSubmitting`, and show the task under `temp-<now>`. */
    method BeginSubmit(board: BoardState, columnId: string, tasksCount: nat, now: nat)
      returns (pending: Option<PendingTask>)
      modifies this, board
      ensures pending.None? <==> IsBlank(title)
      ensures pending.None? ==> board.columns == old(board.columns) && isSubmitting == old(isSubmitting)
      ensures pending.Some? ==>
        && pending.value.tempId == StampedId("temp-", now)
        && pending.value.draft == NewRemoteDraft(title, description, priority, dueDate, columnId, tasksCount)
        && board.columns == AppendTask(old(board.columns), columnId, pending.value.draft.(id := pending.value.tempId))
        && isSubmitting
      ensures title == old(title) && description == old(description)
      ensures priority == old(priority) && dueDate == old(dueDate)
    {
      if IsBlank(title) {
        return None;
      }
      isSubmitting := true;
      var draft := NewRemoteDraft(title, description, priority, dueDate, columnId, tasksCount);
      var tempId := StampedId("temp-", now);
      board.columns := AppendTask(board.columns, columnId, draft.(id := tempId));
      pending := Some(PendingTask(tempId, draft));
    }

    /** The rest of `handleSubmit`, given the gateway's answer: swap in the
        durable id and close the form, or run the rollback as written, with
        the clock reading `rollbackNow` taken in the catch; in both cases
        lower `isSubmitting`. */
    method FinishSubmit(board: BoardState, columnId: string, pending: PendingTask, outcome: Created, rollbackNow: nat)
      returns (closeForm: bool)
      modifies this, board
      ensures outcome.Created? ==>
        board.columns == ReplaceTaskId(old(board.columns), columnId, pending.tempId, outcome.id) && closeForm
      ensures outcome.CreateFailed? ==>
        board.columns == RollbackTempTaskAsWritten(old(board.columns), columnId, rollbackNow) && !closeForm
      ensures !isSubmitting
      ensures title == old(title) && description == old(description)
      ensures priority == old(priority) && dueDate == old(dueDate)
    {
      match outcome {
        case Created(taskId) =>
          board.columns := ReplaceTaskId(board.columns, columnId, pending.tempId, taskId);
          closeForm := true;
        case CreateFailed =>
          board.columns := RollbackTempTaskAsWritten(board.columns, columnId, rollbackNow);
          closeForm := false;
      }
      isSubmitting := false;
    }
  }
}
