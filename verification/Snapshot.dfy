/** The grouping step of the document-database snapshot listener
    (src/lib/firebase.js): column documents become columns with empty task
    lists, then a pass over the columns gives each one the fetched tasks
    that name it, sorted by rank. */
module Snapshot {
  import opened Sequences
  import opened OrderSort
  import opened Kanban

  /** A column document as fetched: its id and its stored fields. */
  datatype ColumnDoc = ColumnDoc(id: string, title: string, order: Option<int>)

  /** `{ id: doc.id, ...doc.data(), tasks: [] }`. */
  function ColumnFromDoc(d: ColumnDoc): (c: Column)
    ensures c.id == d.id && c.title == d.title && c.order == d.order
    ensures c.tasks == []
  {
    Column(d.id, d.title, d.order, [])
  }

  function InColumn(columnId: string): Task -> bool {
    (t: Task) => t.columnId == columnId
  }

  /** `tasks.filter(t => t.columnId === id).sort((a, b) => a.order - b.order)`. */
  function ColumnTasks(tasks: seq<Task>, columnId: string): seq<Task> {
    SortBy(Filter(InColumn(columnId), tasks), TaskRank)
  }

  /** A column's list holds exactly the fetched tasks naming it, as often
      as they were fetched, in rank order. */
  lemma ColumnTasksSelects(tasks: seq<Task>, columnId: string)
    ensures var r := ColumnTasks(tasks, columnId);
      && (forall t :: t in r <==> t in tasks && t.columnId == columnId)
      && SortedBy(r, TaskRank)
      && multiset(r) == multiset(Filter(InColumn(columnId), tasks))
  {
    var mine := Filter(InColumn(columnId), tasks);
    var r := SortBy(mine, TaskRank);
    forall t ensures t in r <==> t in mine {
      assert t in r <==> t in multiset(r);
      assert t in mine <==> t in multiset(mine);
    }
  }

  /** Tasks of equal rank keep the order they were fetched in. */
  lemma ColumnTasksStable(tasks: seq<Task>, columnId: string, k: int)
    ensures WithKey(ColumnTasks(tasks, columnId), TaskRank, k) == WithKey(Filter(InColumn(columnId), tasks), TaskRank, k)
  {
    SortByStable(Filter(InColumn(columnId), tasks), TaskRank, k);
  }

  /** One column of the snapshot: its document's fields and its tasks. */
  function GroupedColumn(tasks: seq<Task>, d: ColumnDoc): (c: Column)
    ensures c.id == d.id && c.title == d.title && c.order == d.order
    ensures c.tasks == ColumnTasks(tasks, d.id)
  {
    ColumnFromDoc(d).(tasks := ColumnTasks(tasks, d.id))
  }

  /** The snapshot handed to the callback, as a value. */
  function Grouped(docs: seq<ColumnDoc>, tasks: seq<Task>): (b: Board)
    ensures |b| == |docs|
    ensures forall i :: 0 <= i < |docs| ==> b[i] == GroupedColumn(tasks, docs[i])
  {
    Map((d: ColumnDoc) => GroupedColumn(tasks, d), docs)
  }

  /** The snapshot callback's grouping: build the columns with empty task
      lists, then assign each column's `tasks` in a pass over them. */
  method GroupBoard(docs: seq<ColumnDoc>, tasks: seq<Task>) returns (board: Board)
    ensures board == Grouped(docs, tasks)
  {
    var columns := Map(ColumnFromDoc, docs);
    var i := 0;
    while i < |columns|
      invariant 0 <= i <= |columns| == |docs|
      invariant forall j :: 0 <= j < i ==> columns[j] == GroupedColumn(tasks, docs[j])
      invariant forall j :: i <= j < |columns| ==> columns[j] == ColumnFromDoc(docs[j])
    {
      var column := columns[i];
      columns := columns[i := column.(tasks := ColumnTasks(tasks, column.id))];
      i := i + 1;
    }
    board := columns;
  }

  /** A task whose `columnId` names no column appears in no list. */
  lemma OrphanTasksDropped(docs: seq<ColumnDoc>, tasks: seq<Task>, t: Task)
    requires forall i :: 0 <= i < |docs| ==> docs[i].id != t.columnId
    ensures forall i :: 0 <= i < |docs| ==> t !in Grouped(docs, tasks)[i].tasks
  {
    forall i | 0 <= i < |docs| ensures t !in Grouped(docs, tasks)[i].tasks {
      ColumnTasksSelects(tasks, docs[i].id);
    }
  }

  /** With unique column ids, each fetched task naming a column lands in
      exactly one list, once for every time it was fetched. */
  lemma TasksLandOnce(docs: seq<ColumnDoc>, tasks: seq<Task>, t: Task, i: nat)
    requires forall a, b :: 0 <= a < b < |docs| ==> docs[a].id != docs[b].id
    requires i < |docs| && t in tasks && t.columnId == docs[i].id
    ensures var g := Grouped(docs, tasks);
      && multiset(g[i].tasks)[t] == multiset(tasks)[t]
      && forall j :: 0 <= j < |docs| && j != i ==> t !in g[j].tasks
  {
    FilterCountsAll(InColumn(docs[i].id), tasks, t);
    ColumnTasksSelects(tasks, docs[i].id);
    forall j | 0 <= j < |docs| && j != i ensures t !in Grouped(docs, tasks)[j].tasks {
      ColumnTasksSelects(tasks, docs[j].id);
    }
  }
}
