# Kanban board state, in Dafny

The Kanban app keeps one piece of state: the board. A board is an ordered list of columns. Each column holds an ordered list of tasks. Every column and every task carries an integer `order` rank. Each user action is an updater that maps the board to a new board:

- dragging a column or a task;
- deleting or toggling a task;
- adding a task or a column;
- deleting a column;
- the undo that runs when persisting fails.

The app exists in two near-identical variants:

- `src/components/*` writes the board to local storage.
- `src/component/*` writes it to a document database. It shows new items at once under a temporary id and swaps in the durable id once the database answers.

This project models those updaters, the handlers that apply them, and the grouping step that turns a database snapshot into a board. It proves what each of them promises.

Files:

- `Sequences.dfy`: JavaScript's `filter`, `map` and `splice`, and the drag-and-drop library's `arrayMove`, on sequences.
- `OrderSort.dfy`: a stable sort by an integer key, as a function and as an in-place array method, for `Array.prototype.sort`.
- `Text.dfy`: `String.prototype.trim`, blank titles, and the ids stamped with a clock reading.
- `Kanban.dfy`: tasks, columns and the board; re-ranking; the board's `columns` state as a class.
- `Reorder.dfy`: drag start and drag end (`src/App.jsx`).
- `TaskEdits.dfy`: both task cards.
- `TaskCreation.dfy`: both add-task forms.
- `ColumnEdits.dfy`: both column views.
- `ColumnCreation.dfy`: both add-column forms.
- `Snapshot.dfy`: the snapshot grouping (`src/lib/firebase.js`).

Modelling conventions:

- A missing `order` is `None`. `(x.order || 0)` is `RankOrZero`.
- A failing `localStorage.setItem` is a boolean `saved`. The write sits inside the updater, before its `return`, so when it fails the board keeps its old value. The handler's catch then applies its undo updater to that old board.
- The database gateway's answer is a parameter: `gatewayOk`, or `Created(id)` / `CreateFailed`.
- An awaited call splits a handler into `BeginSubmit` and `FinishSubmit`.
- The clock reading `Date.now()` is a `nat` parameter. `StampedId(prefix, now)` is the id built from it.

## Model

| member | source | states |
|---|---|---|
| Sequences.Filter | src/App.jsx:130-131 | `filter` keeps exactly the elements that pass, and never lengthens the list |
| Sequences.FilterAppend | src/components/KanbanColumn.jsx:49-50 | filtering distributes over concatenation, so survivors keep their relative order |
| Sequences.FilterDropsOnly | src/component/TaskCard.jsx:31 | a filter that rejects exactly one position removes that position and nothing else |
| Sequences.FilterCountsAll | src/lib/firebase.js:60 | an element the filter accepts survives with its full multiplicity |
| Sequences.InsertAt | src/App.jsx:142-147 | `splice(at, 0, x)` puts `x` at `at` clamped to the length, removing it gives the list back, and the multiset grows by `x` |
| Sequences.ArrayMove | src/App.jsx:93 | `arrayMove` puts the element from `from` at `to` (clamped), leaves the other elements in their relative order, and permutes the list |
| Sequences.ArrayMoveToSameIndex | src/App.jsx:117 | moving an element to its own index changes nothing |
| OrderSort.SortBy | src/App.jsx:224 | the sort by rank returns a sorted permutation of its input |
| OrderSort.SortByStable | src/lib/firebase.js:60 | among equal keys, the sort keeps the input order |
| OrderSort.SortByOfSorted | src/components/KanbanColumn.jsx:125-126 | sorting an already sorted list leaves it unchanged |
| OrderSort.SortInPlace | src/App.jsx:223-224 | the in-place array sort leaves the array equal to the sorted permutation of its old contents |
| Text.Trim | src/components/AddTaskForm.jsx:30 | `trim` returns a slice of the title whose first and last characters are not white space, and everything cut off either end is white space |
| Text.BlankIffAllSpace | src/components/AddColumnForm.jsx:19 | `!title.trim()` holds exactly when every character of the title is white space, including for the empty title |
| Text.StampedIdInjective | src/component/AddTaskForm.jsx:56 | two ids stamped with the same prefix are equal exactly when the clock readings are equal |
| Kanban.ReRankTasks | src/App.jsx:118 | `map((t, i) => ({ ...t, order: i }))` makes each task's rank its position and changes nothing else |
| Kanban.ReRankColumns | src/App.jsx:93-95 | re-ranking columns makes each column's rank its position and changes nothing else |
| Kanban.RankedTasksKeepDisplayOrder | src/components/KanbanColumn.jsx:125-126 | a list whose ranks are its positions is left as it is by the display sort |
| Kanban.RankedColumnsKeepDisplayOrder | src/App.jsx:223-224 | a ranked board is left as it is by the column display sort |
| Kanban.WithoutTask | src/component/TaskCard.jsx:31 | the id filter keeps exactly the tasks with other ids |
| Kanban.WithoutAbsentTask | src/components/AddTaskForm.jsx:83-94 | filtering out an id no task carries changes nothing |
| Kanban.WithoutTaskLength | src/components/AddTaskForm.jsx:88 | the filter drops exactly as many tasks as carry the id |
| Kanban.DropTask | src/App.jsx:130-132 | the source column loses every task with the id, and the survivors keep their relative order and are re-ranked 0..k-1 |
| Kanban.UpdateTasks | src/App.jsx:112-122 | the per-column updater changes only the task lists of columns with the id, and every other column is untouched |
| Kanban.FindTask | src/App.jsx:137-139 | `flatMap(...).find` returns a task exactly when one has the id, and then the first such task of the list |
| Kanban.BoardState.constructor | src/App.jsx:27 | the board state starts as the given board |
| Reorder.KindOf | src/App.jsx:70-74 | the drag type is "column" exactly when the data type is "column", otherwise "task" |
| Reorder.ColumnIndex | src/App.jsx:90-91 | `findIndex` returns the first index carrying the id, and nothing exactly when no column has it |
| Reorder.MoveColumn | src/App.jsx:87-98 | a column move permutes the columns, puts the dragged column at the target's index, keeps the others in order, and ranks columns 0..N-1; a missing id changes nothing |
| Reorder.MoveTask | src/App.jsx:114-118 | a same-column move permutes the tasks, puts the dragged task at the target index (last when past the end), keeps the others in order, and ranks 0..N-1 |
| Reorder.MoveTaskToSameSlot | src/App.jsx:117-118 | dropping a task on its own slot leaves a ranked column unchanged |
| Reorder.MoveTaskToColumnEnd | src/App.jsx:115 | with no target index, the task moves to the end with rank N-1 |
| Reorder.MoveTaskWithin | src/App.jsx:109-123 | a same-column move changes only that column's tasks |
| Reorder.ReceiveTask | src/App.jsx:141-152 | the destination gains the task at the target index (clamped), relabelled with the destination column, and every task is re-ranked; the others keep their order |
| Reorder.MoveTaskAcross | src/App.jsx:124-156 | a cross-column move drops the task from the source, inserts it into the destination, and leaves every other column untouched |
| Reorder.FoundTaskIsDragged | src/App.jsx:137-139 | with unique task ids, the record found for the destination is the dragged task |
| Reorder.CrossMoveConservesTasks | src/App.jsx:126-156 | with unique ids, a cross-column move keeps the two columns' combined task count, removes the task from the source and delivers it, relabelled and ranked, to its slot |
| Reorder.DragEndBoard | src/App.jsx:77-166 | a drag never changes the number of columns |
| Reorder.DragEndNoOps | src/App.jsx:80-84 | a drop on nothing, a column dropped on itself and a task drop naming a missing column all leave the board unchanged |
| Reorder.TaskMovesKeepColumns | src/App.jsx:109-156 | task moves change no column's id or rank |
| Reorder.ColumnMoveKeepsTaskRanks | src/App.jsx:93-95 | a column move keeps every column's tasks ranked |
| Reorder.TaskMovesKeepTaskRanks | src/App.jsx:117-152 | task moves keep every task list ranked |
| Reorder.DragEndKeepsColumnIds | src/App.jsx:77-166 | no drag adds, drops or renames a column: the column ids are permuted |
| Reorder.DragEndKeepsRanks | src/App.jsx:77-166 | a board ranked by position stays ranked after any drag |
| Reorder.DragState.constructor | src/App.jsx:29-30 | no drag is active at first |
| Reorder.DragState.HandleDragStart | src/App.jsx:66-75 | drag start records the dragged id, and the type "column" exactly when the data type is "column" |
| Reorder.DragState.HandleDragEnd | src/App.jsx:77-166 | drag end applies the drag-end updater and clears the drag state, except on the early return for a missing column, which keeps it |
| Reorder.RenderColumns | src/App.jsx:223-233 | the render sorts the board's columns in place by rank (missing as 0) and hands the form the column count |
| TaskEdits.DeleteTaskReRanked | src/components/TaskCard.jsx:43-54 | the local delete drops the task from its column and re-ranks the survivors in order; other columns are untouched |
| TaskEdits.DeleteTaskKeepingRanks | src/component/TaskCard.jsx:26-36 | the remote delete drops the task and keeps the survivors' old ranks; other columns are untouched |
| TaskEdits.RestoreTask | src/components/TaskCard.jsx:68-73 | the delete rollback re-adds the task only when absent, and then the list is a sorted permutation of the old one plus the task |
| TaskEdits.RestoreTaskOnBoard | src/component/TaskCard.jsx:53-66 | the rollback touches only the card's column |
| TaskEdits.RestoreTaskIdempotent | src/components/TaskCard.jsx:68 | rolling back twice is rolling back once |
| TaskEdits.RemoteDeleteThenRestore | src/component/TaskCard.jsx:26-66 | in a ranked column with the task's id unique, the remote delete followed by its rollback gives the column back exactly |
| TaskEdits.SetCompleted | src/components/TaskCard.jsx:112-114 | the revert sets the flag of the tasks with the id and leaves all others as they were |
| TaskEdits.ToggleTask | src/components/TaskCard.jsx:90-92 | toggle flips exactly the flags of the tasks with the id and changes nothing else |
| TaskEdits.ToggleOnBoard | src/component/TaskCard.jsx:73-83 | the toggle touches only the card's column |
| TaskEdits.RevertToggleOnBoard | src/component/TaskCard.jsx:95-105 | the toggle revert touches only the card's column |
| TaskEdits.ToggleTwice | src/components/TaskCard.jsx:86-96 | toggling twice restores the board |
| TaskEdits.RevertUndoesToggle | src/component/TaskCard.jsx:73-105 | when the captured flag is current, the revert undoes the toggle exactly |
| TaskEdits.FailedLocalDeleteKeepsBoard | src/components/TaskCard.jsx:65-79 | the local delete's rollback, run on the board the failed write left in place, changes nothing while the task is still in its column |
| TaskEdits.FailedLocalToggleKeepsBoard | src/components/TaskCard.jsx:107-121 | the local toggle's revert, run on the board the failed write left in place, changes nothing while the captured flag is current |
| TaskEdits.PriorityColor | src/components/TaskCard.jsx:126-137 | the badge is the gray default exactly for priorities other than high, medium and low |
| TaskEdits.PriorityBorderColor | src/component/TaskCard.jsx:122-133 | the border is the gray default exactly for unknown priorities |
| TaskEdits.PriorityMappingsAgree | src/components/TaskCard.jsx:126-150 | both mappings tell priorities apart in the same way: equal exactly for equal or both-unknown priorities |
| TaskEdits.DeleteTaskLocal | src/components/TaskCard.jsx:38-81 | when the write succeeds the board is the re-ranked delete of the old board; when it fails the board is the old board with the rollback applied |
| TaskEdits.ToggleTaskLocal | src/components/TaskCard.jsx:83-124 | when the write succeeds the board is the toggle of the old board; when it fails the board is the old board with the revert applied |
| TaskEdits.DeleteTaskRemote | src/component/TaskCard.jsx:21-68 | the remote handler deletes optimistically, asks to delete the task's id, and rolls back when the call fails |
| TaskEdits.ToggleTaskRemote | src/component/TaskCard.jsx:70-107 | the remote handler toggles optimistically, asks to store the negated flag, and reverts when the call fails |
| TaskCreation.ShortUnit | src/components/AddTaskForm.jsx:23 | "hours" becomes "hr"; any other unit loses its last character |
| TaskCreation.FormatTimeframe | src/components/AddTaskForm.jsx:21-25 | "" exactly for an empty value; otherwise the value, a space and the short unit, with "s" unless the value is "1" |
| TaskCreation.FormatTimeframeExamples | src/components/AddTaskForm.jsx:21-25 | ("2","hours") gives "2 hrs", ("1","days") gives "1 day", ("3","weeks") gives "3 weeks" |
| TaskCreation.FormattedValueReadsBack | src/components/AddTaskForm.jsx:24 | a value without spaces can be read back from its formatted text |
| TaskCreation.ValidateLocal | src/components/AddTaskForm.jsx:30-38 | the title is rejected exactly when all white space; then the timeframe exactly when empty; otherwise the submit goes on |
| TaskCreation.NewLocalTask | src/components/AddTaskForm.jsx:42-59 | the new task has rank `tasksCount`, the column id, the form's flag and priority, and the formatted timeframe |
| TaskCreation.NewRemoteDraft | src/component/AddTaskForm.jsx:40-52 | the draft is not completed, has rank `tasksCount` and the column id, and has a due date exactly when one was picked |
| TaskCreation.AppendTask | src/components/AddTaskForm.jsx:62-71 | the task is appended at the end of its column; other columns are untouched |
| TaskCreation.ReplaceTaskId | src/component/AddTaskForm.jsx:73-83 | only tasks with the temporary id get the durable id; length, positions and other fields are unchanged |
| TaskCreation.AppendThenRemoveRestores | src/components/AddTaskForm.jsx:83-92 | the rollback by the new task's id undoes the append |
| TaskCreation.AppendThenConfirm | src/component/AddTaskForm.jsx:57-83 | the optimistic append then the id swap equals appending the task under its durable id |
| TaskCreation.RollbackTempTaskAsWritten | src/component/AddTaskForm.jsx:98-108 | the rollback as written leaves no task in the card's column whose id is stamped with the clock as read inside the filter; the board keeps its columns and every other column is untouched |
| TaskCreation.AsWrittenRollbackKeepsTempTask | src/component/AddTaskForm.jsx:103 | as written, the temporary task survives the rollback exactly when the clock moved on since it was created |
| TaskCreation.AsWrittenRollbackExample | src/component/AddTaskForm.jsx:103 | created at 1000 and rolled back at 1001, the temporary task stays on the board |
| TaskCreation.RollbackTempTask | src/component/AddTaskForm.jsx:98-108 | the corrected rollback leaves no task with the temporary id |
| TaskCreation.RollbackUndoesAppend | src/component/AddTaskForm.jsx:57-108 | the corrected rollback undoes the optimistic append exactly |
| TaskCreation.LocalAddTaskForm.constructor | src/components/AddTaskForm.jsx:13-19 | the form starts empty, with priority "medium", unit "hours", not completed and not submitting |
| TaskCreation.FailedLocalAddKeepsBoard | src/components/AddTaskForm.jsx:83-96 | the catch's filter, run on the board the failed write left in place, changes nothing, since that board lacks the new id |
| TaskCreation.LocalAddTaskForm.HandleSubmit | src/components/AddTaskForm.jsx:27-100 | a rejected submit changes nothing; otherwise a successful write appends the task and closes the form, a failed one leaves the old board with the catch's filter applied, and `isSubmitting` ends false |
| TaskCreation.RemoteAddTaskForm.constructor | src/component/AddTaskForm.jsx:19-23 | the form starts empty, with priority "medium", no due date and not submitting |
| TaskCreation.RemoteAddTaskForm.BeginSubmit | src/component/AddTaskForm.jsx:29-67 | a blank title changes nothing; otherwise `isSubmitting` is raised and the draft is appended under `temp-<now>` |
| TaskCreation.RemoteAddTaskForm.FinishSubmit | src/component/AddTaskForm.jsx:70-111 | success swaps in the durable id and closes the form; failure runs the as-written rollback with the clock reading taken in the catch; `isSubmitting` ends false |
| ColumnEdits.DeleteColumn | src/components/KanbanColumn.jsx:49-50 | the column delete keeps exactly the columns with other ids, tasks and all |
| ColumnEdits.DeleteColumnAppend | src/component/KanbanColumn.jsx:23 | the surviving columns keep their relative order |
| ColumnEdits.RevertDeleteColumn | src/components/KanbanColumn.jsx:62-70 | the revert appends the captured column at the end only when absent, and otherwise changes nothing |
| ColumnEdits.RevertDeleteColumnIdempotent | src/component/KanbanColumn.jsx:40-45 | reverting twice is reverting once |
| ColumnEdits.DeleteThenRevert | src/component/KanbanColumn.jsx:23-45 | in the document-database view, delete then revert puts the column at the end of the board |
| ColumnEdits.DeleteThenRevertRestoresOnlyLast | src/component/KanbanColumn.jsx:23-45 | with unique ids, delete then revert gives the board back exactly when the column was the last one |
| ColumnEdits.DeleteColumnLocal | src/components/KanbanColumn.jsx:46-72 | when the write succeeds the board is the old board without the column; when it fails it is the old board with the revert applied, which appends the column only if it is missing |
| ColumnEdits.DeleteColumnRemote | src/component/KanbanColumn.jsx:20-47 | the remote handler deletes optimistically, asks to delete the column's id, and reverts when the call fails |
| ColumnEdits.RenderTasks | src/components/KanbanColumn.jsx:95-143 | the render sorts the column's own task list in the board state by rank (missing as 0) and changes nothing else on the board; each card gets its task and its position in the sorted list; the badge and the form both get the task count; a ranked list, and so the board, stays as it was |
| ColumnEdits.DraggableIndexIsPosition | src/component/KanbanColumn.jsx:50 | on a ranked board the column's `Draggable` index is its position |
| ColumnCreation.NewColumn | src/components/AddColumnForm.jsx:26-31 | the new column has rank `columnsCount` and no tasks |
| ColumnCreation.AppendColumn | src/components/AddColumnForm.jsx:35-39 | the column is appended at the end; the old board is the prefix |
| ColumnCreation.ReplaceColumnId | src/component/AddColumnForm.jsx:48 | only columns with the temporary id get the durable id; their tasks, including the tasks' `columnId`, are untouched |
| ColumnCreation.AppendThenConfirmColumn | src/component/AddColumnForm.jsx:42-48 | the optimistic append then the id swap equals appending under the durable id |
| ColumnCreation.RollbackTempColumnAsWritten | src/component/AddColumnForm.jsx:64 | the rollback as written leaves no column whose id is stamped with the clock as read inside the filter |
| ColumnCreation.AsWrittenRollbackKeepsTempColumn | src/component/AddColumnForm.jsx:64 | as written, the temporary column survives exactly when the clock moved on |
| ColumnCreation.RollbackTempColumn | src/component/AddColumnForm.jsx:64 | the corrected rollback leaves no column with the temporary id |
| ColumnCreation.RollbackUndoesAppendColumn | src/component/AddColumnForm.jsx:42-64 | the corrected rollback undoes the optimistic append exactly |
| ColumnCreation.LocalAddColumnForm.constructor | src/components/AddColumnForm.jsx:12-14 | the form starts closed, empty and not submitting |
| ColumnCreation.LocalAddColumnForm.Open | src/components/AddColumnForm.jsx:57 | the button opens the form and keeps the title |
| ColumnCreation.LocalAddColumnForm.Cancel | src/components/AddColumnForm.jsx:85-89 | cancel closes the form, clears the title and lowers `isSubmitting` |
| ColumnCreation.LocalAddColumnForm.HandleSubmit | src/components/AddColumnForm.jsx:16-50 | a blank title changes nothing; otherwise a successful write appends the column, clears the title and closes the form, and a failed one leaves the board and the form as they were; `isSubmitting` ends false |
| ColumnCreation.RemoteAddColumnForm.constructor | src/component/AddColumnForm.jsx:14-16 | the form starts closed, empty and not submitting |
| ColumnCreation.RemoteAddColumnForm.Open | src/component/AddColumnForm.jsx:75 | the button opens the form |
| ColumnCreation.RemoteAddColumnForm.Cancel | src/component/AddColumnForm.jsx:97 | cancel only closes the form |
| ColumnCreation.RemoteAddColumnForm.BeginSubmit | src/component/AddColumnForm.jsx:22-42 | a blank title changes nothing; otherwise `isSubmitting` is raised and the column appended under `temp-<now>` |
| ColumnCreation.RemoteAddColumnForm.FinishSubmit | src/component/AddColumnForm.jsx:45-67 | success swaps in the durable id, clears the title and closes the form; failure runs the as-written rollback with the clock reading taken in the catch; `isSubmitting` ends false |
| Snapshot.ColumnFromDoc | src/lib/firebase.js:43-47 | every column starts with an empty task list and keeps its document's id, title and rank |
| Snapshot.ColumnTasksSelects | src/lib/firebase.js:60 | a column's list holds exactly the fetched tasks naming it, each as often as fetched, sorted by rank |
| Snapshot.ColumnTasksStable | src/lib/firebase.js:60 | tasks of equal rank keep their fetch order |
| Snapshot.GroupedColumn | src/lib/firebase.js:59-61 | grouping changes only a column's tasks |
| Snapshot.Grouped | src/lib/firebase.js:59-61 | the snapshot has one column per document, in document order |
| Snapshot.GroupBoard | src/lib/firebase.js:43-61 | building the columns and then the pass that assigns each column's tasks yield the snapshot |
| Snapshot.OrphanTasksDropped | src/lib/firebase.js:59-60 | a task naming no column appears in no list |
| Snapshot.TasksLandOnce | src/lib/firebase.js:59-60 | with unique column ids, a task naming a column appears in that column, as often as fetched, and in no other |

## Left out

- Rendering, CSS beyond the priority mappings, toasts, dropdowns, hover state and the background particle animation: UI only.
- Loading the board from local storage, and the effect that saves it on every change: I/O and JSON. A write is only the `saved` outcome.
- The database wrappers (initialisation, add, update and delete calls, the listener plumbing and the cascade delete of a column's tasks): calls into a library that is not part of this model. Each is the outcome parameter of the handler that awaits it.
- The drag sensors and collision detection: the drag-end event arrives as `Active` and `Over` values.
- The `try`/`catch` around drag end: the errors it catches are JavaScript type errors on absent fields, which the typed model cannot produce.
- React's scheduling of updaters: a handler is modelled as its updaters applied in order, and an updater whose write throws as one that leaves the board unchanged, after which the handler's catch runs. In React itself the error never reaches that catch. When React calls an updater eagerly, it does so inside its own `try` and drops the error; the updater then runs again during the next render and throws there. So a failing `localStorage.setItem` in src/components/TaskCard.jsx:56 and :98, src/components/KanbanColumn.jsx:52, src/components/AddColumnForm.jsx:37 and src/components/AddTaskForm.jsx:73 surfaces as a render error. The `saved == false` branches of TaskEdits.DeleteTaskLocal, TaskEdits.ToggleTaskLocal, ColumnEdits.DeleteColumnLocal and both local `HandleSubmit` methods model the catch blocks as written, a path the running program does not take.
- The write to local storage inside a catch's undo updater can fail as well. The model treats that write as succeeding.
- Interleaving of awaited calls with later actions: the model is sequential.
- Date formatting (`formatDistanceToNow`, the due date's ISO string): the due date is an opaque string.
- `description || ""`, and `col.tasks || []` for columns without a task list: every column and task in the model carries both.
- Reorder.MoveColumn: when either id is missing, the model leaves the board unchanged. The code passes index -1 to `arrayMove`, whose behaviour is the library's and is not part of this model.
- Reorder.MoveTask: a source index past the end leaves the list unchanged. The library always reports the dragged item's own index.
- Reorder.MovingTask: when no task has the dragged id, the spread of `undefined` is modelled as an otherwise empty task.
- Snapshot.ColumnTasks: the comparator `a.order - b.order` is modelled with a missing rank as 0. In JavaScript it yields `NaN` for a missing rank, and the resulting order is up to the engine.
- Snapshot.ColumnFromDoc: a stored field named `id` would override the document id through the spread. The model carries only the title and the rank.
- The database query that orders column documents by rank: the documents arrive in the order the database returns them.
- The rollbacks do not always put a deleted item back where it was. In the document-database view, a column whose delete fails comes back at the end of the board (ColumnEdits.DeleteThenRevertRestoresOnlyLast).
- RollbackTempTaskAsWritten and RollbackTempColumnAsWritten: `Date.now()` is read anew for every element the filter looks at. One reading `rollbackNow` stands for all of them. The conclusion does not change: no reading inside the catch can equal the creation reading once the clock has moved on.

## Findings

| source | as written | input that shows it | evidently intended | confidence | as-written member | corrected member |
|---|---|---|---|---|---|---|
| src/component/AddTaskForm.jsx:103 | the failure rollback's filter compares each task's id with `temp-${Date.now()}`, an id stamped with the clock read inside the filter callback, not with the captured `tempId` | the task is shown as `temp-1000`; the database call fails and the rollback runs at 1001; `temp-1000` stays on the board | filter out the `tempId` the task was shown under | high (not executed) | TaskCreation.AsWrittenRollbackExample | TaskCreation.RollbackUndoesAppend |
| src/component/AddColumnForm.jsx:64 | the failure rollback's filter compares each column's id with `temp-${Date.now()}`, read inside the filter callback, not with the captured `tempId` | the column is shown as `temp-1000`; the call fails at 1001; `temp-1000` stays on the board | filter out the captured `tempId` | high (not executed) | ColumnCreation.AsWrittenRollbackKeepsTempColumn | ColumnCreation.RollbackUndoesAppendColumn |
