/** The board state every part of the Kanban board works on: an ordered
    sequence of columns, each holding an ordered sequence of tasks, with an
    integer rank `order` on both. All updaters are pure transformations of
    this value; `BoardState` is the one mutable cell holding it. */
module Kanban {
  import opened Sequences
  import opened OrderSort

  datatype Option<T> = None | Some(value: T)

  /** How a task records its timing: the local-storage variant stores a time
      estimate, the document-database variant an optional ISO due date. */
  datatype Schedule =
    | NoSchedule
    | TimeEstimate(value: string, unit: string, formatted: string)
    | DueDate(iso: string)

  datatype Assignee = Assignee(name: string, avatar: string)

  /** A task record. `order` is optional because records loaded from storage
      need not carry it; every reader treats a missing rank as 0. */
  datatype Task = Task(
    id: string,
    title: string,
    description: string,
    completed: bool,
    priority: string,
    schedule: Schedule,
    columnId: string,
    order: Option<int>,
    assignee: Option<Assignee>)

  datatype Column = Column(id: string, title: string, order: Option<int>, tasks: seq<Task>)

  type Board = seq<Column>

  /** What a document-database write reports back to the caller. */
  datatype Created = Created(id: string) | CreateFailed

  /** `x.order || 0`. */
  function RankOrZero(order: Option<int>): int {
    if order.Some? then order.value else 0
  }

  function TaskRank(t: Task): int { RankOrZero(t.order) }

  function ColumnRank(c: Column): int { RankOrZero(c.order) }

  /** A record with its rank forgotten: what re-ranking must not change. */
  function Unrank(t: Task): Task { t.(order := None) }

  function UnrankColumn(c: Column): Column { c.(order := None) }

  /** Every rank equals the record's position. */
  ghost predicate TasksRanked(ts: seq<Task>) {
    forall i :: 0 <= i < |ts| ==> ts[i].order == Some(i)
  }

  ghost predicate ColumnsRanked(b: Board) {
    forall i :: 0 <= i < |b| ==> b[i].order == Some(i)
  }

  /** Every column's tasks are ranked by position. */
  ghost predicate BoardTasksRanked(b: Board) {
    forall i :: 0 <= i < |b| ==> TasksRanked(b[i].tasks)
  }

  /** `tasks.map((t, i) => ({ ...t, order: i }))`. */
  function ReRankTasks(ts: seq<Task>): (r: seq<Task>)
    ensures TasksRanked(r)
    ensures Map(Unrank, r) == Map(Unrank, ts)
  {
    seq(|ts|, i requires 0 <= i < |ts| => ts[i].(order := Some(i)))
  }

  /** `columns.map((col, i) => ({ ...col, order: i }))`. */
  function ReRankColumns(b: Board): (r: Board)
    ensures ColumnsRanked(r)
    ensures Map(UnrankColumn, r) == Map(UnrankColumn, b)
  {
    seq(|b|, i requires 0 <= i < |b| => b[i].(order := Some(i)))
  }

  /** Ranks that equal positions are ascending, so the display sort leaves
      a re-ranked list exactly as it is. */
  lemma RankedTasksKeepDisplayOrder(ts: seq<Task>)
    requires TasksRanked(ts)
    ensures SortBy(ts, TaskRank) == ts
  {
    assert SortedBy(ts, TaskRank);
    SortByOfSorted(ts, TaskRank);
  }

  lemma RankedColumnsKeepDisplayOrder(b: Board)
    requires ColumnsRanked(b)
    ensures SortBy(b, ColumnRank) == b
  {
    assert SortedBy(b, ColumnRank);
    SortByOfSorted(b, ColumnRank);
  }

  function IsNotTask(id: string): Task -> bool {
    (t: Task) => t.id != id
  }

  function IsTask(id: string): Task -> bool {
    (t: Task) => t.id == id
  }

  /** `tasks.filter(t => t.id !== id)`. */
  function WithoutTask(ts: seq<Task>, id: string): (r: seq<Task>)
    ensures forall t :: t in r <==> t in ts && t.id != id
  {
    Filter(IsNotTask(id), ts)
  }

  /** How many tasks in `ts` carry the id. */
  function CountTask(ts: seq<Task>, id: string): nat {
    |Filter(IsTask(id), ts)|
  }

  /** `tasks.some(t => t.id === id)`. */
  predicate HasTask(ts: seq<Task>, id: string) {
    exists t :: t in ts && t.id == id
  }

  /** Filtering out an id that is absent changes nothing. */
  lemma WithoutAbsentTask(ts: seq<Task>, id: string)
    requires !HasTask(ts, id)
    ensures WithoutTask(ts, id) == ts
  {
    FilterKeepsAll(IsNotTask(id), ts);
  }

  /** The survivors of the filter keep their relative order. */
  lemma WithoutTaskAppend(a: seq<Task>, b: seq<Task>, id: string)
    ensures WithoutTask(a + b, id) == WithoutTask(a, id) + WithoutTask(b, id)
  {
    FilterAppend(IsNotTask(id), a, b);
  }

  /** The filter drops exactly the tasks that carry the id. */
  lemma WithoutTaskLength(ts: seq<Task>, id: string)
    ensures |WithoutTask(ts, id)| == |ts| - CountTask(ts, id)
  {
    FilterSplitsLength(IsNotTask(id), IsTask(id), ts);
  }

  /** `tasks.filter(t => t.id !== id).map((t, i) => ({ ...t, order: i }))`:
      drop the task and re-rank the survivors, which keep their relative
      order. */
  function DropTask(ts: seq<Task>, taskId: string): (r: seq<Task>)
    ensures TasksRanked(r)
    ensures Map(Unrank, r) == Map(Unrank, WithoutTask(ts, taskId))
    ensures forall i :: 0 <= i < |r| ==> r[i].id != taskId
    ensures |r| == |ts| - CountTask(ts, taskId)
  {
    var kept := WithoutTask(ts, taskId);
    WithoutTaskLength(ts, taskId);
    assert forall i :: 0 <= i < |kept| ==> kept[i] in kept;
    ReRankTasks(kept)
  }

  /** `columns.map(col => col.id === id ? { ...col, tasks: f(col.tasks) } : col)`. */
  function UpdateTasks(b: Board, columnId: string, f: seq<Task> -> seq<Task>): (r: Board)
    ensures |r| == |b|
    ensures forall i :: 0 <= i < |b| && b[i].id != columnId ==> r[i] == b[i]
    ensures forall i :: 0 <= i < |b| && b[i].id == columnId ==> r[i] == b[i].(tasks := f(b[i].tasks))
  {
    seq(|b|, i requires 0 <= i < |b| =>
      if b[i].id == columnId then b[i].(tasks := f(b[i].tasks)) else b[i])
  }

  /** `columns.flatMap(col => col.tasks)`. */
  function AllTasks(b: Board): (r: seq<Task>)
    ensures forall i, t :: 0 <= i < |b| && t in b[i].tasks ==> t in r
  {
    if b == [] then []
    else
      assert forall i :: 1 <= i < |b| ==> b[i] == b[1..][i - 1];
      b[0].tasks + AllTasks(b[1..])
  }

  /** `tasks.find(t => t.id === id)`: the first task with the id. */
  function FindTask(ts: seq<Task>, id: string): (r: Option<Task>)
    ensures r.Some? <==> HasTask(ts, id)
    ensures r.Some? ==> r.value in ts && r.value.id == id
    ensures r.Some? ==> exists k: nat :: FirstWithId(ts, id, k) && ts[k] == r.value
  {
    if ts == [] then None
    else if ts[0].id == id then
      assert FirstWithId(ts, id, 0);
      Some(ts[0])
    else
      assert forall t :: t in ts ==> t == ts[0] || t in ts[1..];
      var r := FindTask(ts[1..], id);
      if r.Some? then
        var k: nat :| FirstWithId(ts[1..], id, k) && ts[1..][k] == r.value;
        assert FirstWithId(ts, id, k + 1);
        r
      else r
  }

  /** Position `k` holds the first task of `ts` with the id. */
  predicate FirstWithId(ts: seq<Task>, id: string, k: nat) {
    k < |ts| && ts[k].id == id && forall j :: 0 <= j < k ==> ts[j].id != id
  }

  /** `columns.some(col => col.id === id)`, as the truthiness of `find`. */
  predicate HasColumn(b: Board, id: string) {
    exists i :: 0 <= i < |b| && b[i].id == id
  }

  /** The board's `columns` state. Every update replaces the whole value,
      as React's `setColumns` does. */
  class BoardState {
    var columns: Board

    constructor (initial: Board)
      ensures columns == initial
    {
      columns := initial;
    }
  }
}
