/** The task card's edits (src/components/TaskCard.jsx, local storage, and
    src/component/TaskCard.jsx, document database): delete a task, toggle
    its completion, and the updaters that undo each on failure; plus the
    priority-to-class mappings. Both variants share the toggle and the
    restore updaters; they differ in whether delete re-ranks. */
module TaskEdits {
  import opened Sequences
  import opened OrderSort
  import opened Kanban

  /** Delete in the local-storage card: drop the task from the column and
      re-rank the survivors. */
  function DeleteTaskReRanked(b: Board, columnId: string, taskId: string): (r: Board)
    ensures |r| == |b|
    ensures forall i :: 0 <= i < |b| && b[i].id != columnId ==> r[i] == b[i]
    ensures forall i :: 0 <= i < |b| && b[i].id == columnId ==>
      && r[i].(tasks := b[i].tasks) == b[i]
      && TasksRanked(r[i].tasks)
      && Map(Unrank, r[i].tasks) == Map(Unrank, WithoutTask(b[i].tasks, taskId))
      && !HasTask(r[i].tasks, taskId)
  {
    UpdateTasks(b, columnId, ts => DropTask(ts, taskId))
  }

  /** Delete in the document-database card: drop the task, keep every
      other task and its old rank. */
  function DeleteTaskKeepingRanks(b: Board, columnId: string, taskId: string): (r: Board)
    ensures |r| == |b|
    ensures forall i :: 0 <= i < |b| && b[i].id != columnId ==> r[i] == b[i]
    ensures forall i :: 0 <= i < |b| && b[i].id == columnId ==>
      && r[i].(tasks := b[i].tasks) == b[i]
      && (forall t :: t in r[i].tasks <==> t in b[i].tasks && t.id != taskId)
      && |r[i].tasks| == |b[i].tasks| - CountTask(b[i].tasks, taskId)
  {
    forall ts ensures |WithoutTask(ts, taskId)| == |ts| - CountTask(ts, taskId) {
      WithoutTaskLength(ts, taskId);
    }
    UpdateTasks(b, columnId, ts => WithoutTask(ts, taskId))
  }

  /** The delete rollback on one list: re-add the captured task only when
      no task with its id is present, then sort by rank (missing as 0). */
  function RestoreTask(ts: seq<Task>, task: Task): (r: seq<Task>)
    ensures HasTask(ts, task.id) ==> r == ts
    ensures !HasTask(ts, task.id) ==>
      && multiset(r) == multiset(ts) + multiset{task}
      && SortedBy(r, TaskRank)
      && HasTask(r, task.id)
  {
    if HasTask(ts, task.id) then ts
    else
      assert task in multiset(SortBy(ts + [task], TaskRank));
      SortBy(ts + [task], TaskRank)
  }

  function RestoreTaskOnBoard(b: Board, columnId: string, task: Task): (r: Board)
    ensures |r| == |b|
    ensures forall i :: 0 <= i < |b| && b[i].id != columnId ==> r[i] == b[i]
    ensures forall i :: 0 <= i < |b| && b[i].id == columnId ==> r[i] == b[i].(tasks := RestoreTask(b[i].tasks, task))
  {
    UpdateTasks(b, columnId, ts => RestoreTask(ts, task))
  }

  /** Restoring twice is restoring once. */
  lemma RestoreTaskIdempotent(ts: seq<Task>, task: Task)
    ensures RestoreTask(RestoreTask(ts, task), task) == RestoreTask(ts, task)
  {
  }

  /** `tasks.map(t => t.id === id ? { ...t, completed } : t)`. */
  function SetCompleted(ts: seq<Task>, taskId: string, completed: bool): (r: seq<Task>)
    ensures |r| == |ts|
    ensures forall i :: 0 <= i < |ts| && ts[i].id == taskId ==> r[i] == ts[i].(completed := completed)
    ensures forall i :: 0 <= i < |ts| && ts[i].id != taskId ==> r[i] == ts[i]
  {
    seq(|ts|, i requires 0 <= i < |ts| => if ts[i].id == taskId then ts[i].(completed := completed) else ts[i])
  }

  /** `tasks.map(t => t.id === id ? { ...t, completed: !t.completed } : t)`. */
  function ToggleTask(ts: seq<Task>, taskId: string): (r: seq<Task>)
    ensures |r| == |ts|
    ensures forall i :: 0 <= i < |ts| ==> r[i].(completed := ts[i].completed) == ts[i]
    ensures forall i :: 0 <= i < |ts| ==> (r[i].completed != ts[i].completed <==> ts[i].id == taskId)
  {
    seq(|ts|, i requires 0 <= i < |ts| => if ts[i].id == taskId then ts[i].(completed := !ts[i].completed) else ts[i])
  }

  /** The toggle updater of both cards. */
  function ToggleOnBoard(b: Board, columnId: string, taskId: string): (r: Board)
    ensures |r| == |b|
    ensures forall i :: 0 <= i < |b| && b[i].id != columnId ==> r[i] == b[i]
    ensures forall i :: 0 <= i < |b| && b[i].id == columnId ==> r[i] == b[i].(tasks := ToggleTask(b[i].tasks, taskId))
  {
    UpdateTasks(b, columnId, ts => ToggleTask(ts, taskId))
  }

  /** The toggle's revert: set the flag back to the captured task's. */
  function RevertToggleOnBoard(b: Board, columnId: string, task: Task): (r: Board)
    ensures |r| == |b|
    ensures forall i :: 0 <= i < |b| && b[i].id != columnId ==> r[i] == b[i]
    ensures forall i :: 0 <= i < |b| && b[i].id == columnId ==> r[i] == b[i].(tasks := SetCompleted(b[i].tasks, task.id, task.completed))
  {
    UpdateTasks(b, columnId, ts => SetCompleted(ts, task.id, task.completed))
  }

  /** Toggling twice restores every flag. */
  lemma ToggleTwice(b: Board, columnId: string, taskId: string)
    ensures ToggleOnBoard(ToggleOnBoard(b, columnId, taskId), columnId, taskId) == b
  {
    var r := ToggleOnBoard(ToggleOnBoard(b, columnId, taskId), columnId, taskId);
    forall i | 0 <= i < |b| ensures r[i] == b[i] {
      if b[i].id == columnId {
        assert ToggleTask(ToggleTask(b[i].tasks, taskId), taskId) == b[i].tasks;
      }
    }
  }

  /** Every copy of the task in the column carries the flag the card
      captured. */
  ghost predicate FlagAsCaptured(b: Board, columnId: string, task: Task) {
    forall i, j :: 0 <= i < |b| && b[i].id == columnId && 0 <= j < |b[i].tasks| && b[i].tasks[j].id == task.id ==>
      b[i].tasks[j].completed == task.completed
  }

  /** When the card's captured task is current, the revert undoes the
      optimistic toggle exactly. */
  lemma RevertUndoesToggle(b: Board, columnId: string, task: Task)
    requires FlagAsCaptured(b, columnId, task)
    ensures RevertToggleOnBoard(ToggleOnBoard(b, columnId, task.id), columnId, task) == b
  {
    var r := RevertToggleOnBoard(ToggleOnBoard(b, columnId, task.id), columnId, task);
    forall i | 0 <= i < |b| ensures r[i] == b[i] {
      if b[i].id == columnId {
        var ts := b[i].tasks;
        assert SetCompleted(ToggleTask(ts, task.id), task.id, task.completed) == ts;
      }
    }
  }

  /** Filtering out an id that only position `p` carries removes exactly
      that position. */
  lemma WithoutUniqueTask(ts: seq<Task>, p: nat)
    requires p < |ts|
    requires forall j :: 0 <= j < |ts| && j != p ==> ts[j].id != ts[p].id
    ensures WithoutTask(ts, ts[p].id) == RemoveAt(ts, p)
  {
    FilterDropsOnly(IsNotTask(ts[p].id), ts, p);
  }

  /** Restoring into a list sorted by rank puts the task after every
      rank not above its own and before every rank above it. */
  lemma RestoreIntoSorted(kept: seq<Task>, x: Task, p: nat)
    requires p <= |kept| && !HasTask(kept, x.id)
    requires SortedBy(kept, TaskRank)
    requires forall m :: p <= m < |kept| ==> TaskRank(kept[m]) > TaskRank(x)
    requires p == 0 || TaskRank(kept[p - 1]) <= TaskRank(x)
    ensures RestoreTask(kept, x) == kept[..p] + [x] + kept[p..]
  {
    assert (kept + [x])[..|kept|] == kept;
    assert SortBy(kept + [x], TaskRank) == InsertByKey(SortBy(kept, TaskRank), x, TaskRank);
    SortByOfSorted(kept, TaskRank);
    InsertByKeyAt(kept, x, TaskRank, p);
  }

  /** Taking one task out of a ranked list leaves it sorted, with every
      rank from the gap on above the removed task's and the one before the
      gap below it. */
  lemma RankedGap(ts: seq<Task>, p: nat)
    requires p < |ts| && TasksRanked(ts)
    ensures var kept := RemoveAt(ts, p);
      && SortedBy(kept, TaskRank)
      && (forall m :: p <= m < |kept| ==> TaskRank(kept[m]) > TaskRank(ts[p]))
      && (p == 0 || TaskRank(kept[p - 1]) <= TaskRank(ts[p]))
  {
    var kept := RemoveAt(ts, p);
    assert forall m :: 0 <= m < |kept| ==> TaskRank(kept[m]) == if m < p then m else m + 1;
  }

  /** The only copy of an id is gone once its position is removed. */
  lemma UniqueTaskGone(ts: seq<Task>, p: nat)
    requires p < |ts|
    requires forall j :: 0 <= j < |ts| && j != p ==> ts[j].id != ts[p].id
    ensures !HasTask(RemoveAt(ts, p), ts[p].id)
  {
    var kept := RemoveAt(ts, p);
    forall t | t in kept ensures t.id != ts[p].id {
      var m :| 0 <= m < |kept| && kept[m] == t;
      assert t == ts[if m < p then m else m + 1];
    }
  }

  /** With positions as ranks and the task's id unique in the column, the
      document-database delete followed by its rollback gives the column
      back exactly: the kept ranks put the task back in its slot. */
  lemma RemoteDeleteThenRestore(ts: seq<Task>, p: nat)
    requires p < |ts|
    requires TasksRanked(ts)
    requires forall j :: 0 <= j < |ts| && j != p ==> ts[j].id != ts[p].id
    ensures RestoreTask(WithoutTask(ts, ts[p].id), ts[p]) == ts
  {
    SplitAround(ts, p);
    RankedGap(ts, p);
    UniqueTaskGone(ts, p);
    WithoutUniqueTask(ts, p);
    RestoreIntoSorted(RemoveAt(ts, p), ts[p], p);
  }

  /** The revert of a failed local delete, run on the board the delete
      never replaced, changes nothing while the task is still in its
      column. */
  lemma FailedLocalDeleteKeepsBoard(b: Board, columnId: string, task: Task)
    requires forall i :: 0 <= i < |b| && b[i].id == columnId ==> HasTask(b[i].tasks, task.id)
    ensures RestoreTaskOnBoard(b, columnId, task) == b
  {
    var r := RestoreTaskOnBoard(b, columnId, task);
    forall i | 0 <= i < |b| ensures r[i] == b[i] {
      if b[i].id == columnId {
        assert RestoreTask(b[i].tasks, task) == b[i].tasks;
      }
    }
  }

  /** The revert of a failed local toggle, run on the board the toggle
      never replaced, changes nothing while the card's captured flag is
      current. */
  lemma FailedLocalToggleKeepsBoard(b: Board, columnId: string, task: Task)
    requires FlagAsCaptured(b, columnId, task)
    ensures RevertToggleOnBoard(b, columnId, task) == b
  {
    var r := RevertToggleOnBoard(b, columnId, task);
    forall i | 0 <= i < |b| ensures r[i] == b[i] {
      if b[i].id == columnId {
        var ts := b[i].tasks;
        assert SetCompleted(ts, task.id, task.completed) == ts;
      }
    }
  }

  const HighBadge := "bg-red-50 text-red-700 hover:bg-red-100 dark:bg-red-900/20 dark:text-red-300"
  const MediumBadge := "bg-amber-50 text-amber-700 hover:bg-amber-100 dark:bg-amber-900/20 dark:text-amber-300"
  const LowBadge := "bg-green-50 text-green-700 hover:bg-green-100 dark:bg-green-900/20 dark:text-green-300"
  const DefaultBadge := "bg-gray-50 text-gray-700 hover:bg-gray-100 dark:bg-gray-800 dark:text-gray-300"

  predicate KnownPriority(p: string) {
    p == "high" || p == "medium" || p == "low"
  }

  /** `getPriorityColor`. */
  function PriorityColor(p: string): (cls: string)
    ensures KnownPriority(p) <==> cls != DefaultBadge
  {
    match p
    case "high" => HighBadge
    case "medium" => MediumBadge
    case "low" => LowBadge
    case _ => DefaultBadge
  }

  /** `getPriorityBorderColor`. */
  function PriorityBorderColor(p: string): (cls: string)
    ensures KnownPriority(p) <==> cls != "border-l-gray-300"
  {
    match p
    case "high" => "border-l-red-400"
    case "medium" => "border-l-amber-400"
    case "low" => "border-l-green-400"
    case _ => "border-l-gray-300"
  }

  /** Both mappings tell priorities apart in the same way: two priorities
      get the same badge exactly when they get the same border, which is
      exactly when they are equal or both unknown. */
  lemma PriorityMappingsAgree(p: string, q: string)
    ensures PriorityColor(p) == PriorityColor(q) <==> PriorityBorderColor(p) == PriorityBorderColor(q)
    ensures PriorityColor(p) == PriorityColor(q) <==> p == q || (!KnownPriority(p) && !KnownPriority(q))
  {
  }

  /** The local-storage card's delete. `saved` is false when the write to
      local storage fails. The write sits inside the updater, before its
      `return`, so a failure leaves the board as it was; the catch then
      runs the rollback updater on that old board. */
  method DeleteTaskLocal(board: BoardState, columnId: string, task: Task, saved: bool)
    modifies board
    ensures board.columns == if saved then DeleteTaskReRanked(old(board.columns), columnId, task.id)
      else RestoreTaskOnBoard(old(board.columns), columnId, task)
  {
    if saved {
      board.columns := DeleteTaskReRanked(board.columns, columnId, task.id);
    } else {
      board.columns := RestoreTaskOnBoard(board.columns, columnId, task);
    }
  }

  /** The local-storage card's toggle. A failed write leaves the board as
      it was, and the catch's revert runs on that old board. */
  method ToggleTaskLocal(board: BoardState, columnId: string, task: Task, saved: bool)
    modifies board
    ensures board.columns == if saved then ToggleOnBoard(old(board.columns), columnId, task.id)
      else RevertToggleOnBoard(old(board.columns), columnId, task)
  {
    if saved {
      board.columns := ToggleOnBoard(board.columns, columnId, task.id);
    } else {
      board.columns := RevertToggleOnBoard(board.columns, columnId, task);
    }
  }

  /** The document-database card's delete: optimistic filter, the gateway
      call with the task's id, and the rollback when it fails. */
  method DeleteTaskRemote(board: BoardState, columnId: string, task: Task, gatewayOk: bool)
    returns (deletedId: string)
    modifies board
    ensures deletedId == task.id
    ensures var deleted := DeleteTaskKeepingRanks(old(board.columns), columnId, task.id);
      board.columns == if gatewayOk then deleted else RestoreTaskOnBoard(deleted, columnId, task)
  {
    board.columns := DeleteTaskKeepingRanks(board.columns, columnId, task.id);
    deletedId := task.id;
    if !gatewayOk {
      board.columns := RestoreTaskOnBoard(board.columns, columnId, task);
    }
  }

  /** The document-database card's toggle: the gateway is asked to store
      the negation of the captured flag. */
  method ToggleTaskRemote(board: BoardState, columnId: string, task: Task, gatewayOk: bool)
    returns (storedCompleted: bool)
    modifies board
    ensures storedCompleted == !task.completed
    ensures var toggled := ToggleOnBoard(old(board.columns), columnId, task.id);
      board.columns == if gatewayOk then toggled else RevertToggleOnBoard(toggled, columnId, task)
  {
    board.columns := ToggleOnBoard(board.columns, columnId, task.id);
    storedCompleted := !task.completed;
    if !gatewayOk {
      board.columns := RevertToggleOnBoard(board.columns, columnId, task);
    }
  }
}
