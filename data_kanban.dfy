/** The basic Kanban board (src/features/tasks/components/data-kanban.tsx): five fixed
    status columns, tasks bucketed by status and sorted by position, drag-and-drop
    with the shared payload rules, and the shared selection handlers. */
module DataKanban {
  import opened Common
  import opened Sorting
  import opened Kanban

  /** The five boards, in display order. */
  const Boards: seq<string> := ["BACKLOG", "TODO", "IN_PROGRESS", "IN_REVIEW", "DONE"]

  /** No board is listed twice. */
  lemma BoardsDistinct()
    ensures NoDuplicates(Boards)
  {
    forall i, j | 0 <= i < j < |Boards| ensures Boards[i] != Boards[j] {
      assert |Boards[i]| != |Boards[j]| || Boards[i][0] != Boards[j][0];
    }
  }

  /** The tasks of `data` whose status is `s`, in input order: what the `push` loop
      leaves in column `s`. */
  function WithStatus(data: seq<Task>, s: string): seq<Task>
    decreases |data|
  {
    if data == [] then []
    else
      var k := |data| - 1;
      WithStatus(data[..k], s) + (if data[k].status == s then [data[k]] else [])
  }

  /** Column `s` holds each task of status `s` as often as the input does, and no
      other task. */
  lemma {:induction false} WithStatusContents(data: seq<Task>, s: string)
    ensures forall t :: multiset(WithStatus(data, s))[t] == if t.status == s then multiset(data)[t] else 0
    ensures forall t :: t in WithStatus(data, s) <==> t in data && t.status == s
    decreases |data|
  {
    if data != [] {
      var k := |data| - 1;
      WithStatusContents(data[..k], s);
      assert data == data[..k] + [data[k]];
      var r := WithStatus(data, s);
      forall t ensures t in r <==> multiset(r)[t] > 0 {}
      forall t ensures t in data <==> multiset(data)[t] > 0 {}
    }
  }

  /** One more task of the input extends exactly the column of its status. */
  lemma WithStatusStep(data: seq<Task>, i: nat, s: string)
    requires i < |data|
    ensures WithStatus(data[..i + 1], s)
            == WithStatus(data[..i], s) + (if data[i].status == s then [data[i]] else [])
  {
    assert data[..i + 1][..i] == data[..i];
  }

  /** Each board holding the tasks with its status, in input order. */
  function ByStatus(data: seq<Task>): Columns {
    map s | s in Boards :: WithStatus(data, s)
  }

  /** Pushing the next task onto the board its status names gives the boards of the
      one-longer prefix. */
  lemma PushStep(data: seq<Task>, i: nat)
    requires i < |data| && data[i].status in Boards
    ensures var before := ByStatus(data[..i]);
            ByStatus(data[..i + 1]) == before[data[i].status := before[data[i].status] + [data[i]]]
  {
    var before := ByStatus(data[..i]);
    var after := before[data[i].status := before[data[i].status] + [data[i]]];
    forall s | s in after ensures after[s] == ByStatus(data[..i + 1])[s] {
      WithStatusStep(data, i, s);
    }
  }

  /** The board state the bucketing produces: each board holds its tasks sorted by
      position. */
  function Bucketed(data: seq<Task>): Columns {
    map s | s in Boards :: SortBy(WithStatus(data, s), PositionKey)
  }

  /** After bucketing every column is sorted by position, and a task sits in a column
      exactly when its status names it, as often as it occurs in the input. */
  lemma BucketedPlacement(data: seq<Task>)
    requires forall t :: t in data ==> t.status in Boards
    ensures Bucketed(data).Keys == set s | s in Boards
    ensures forall s :: s in Bucketed(data) ==> SortedBy(Bucketed(data)[s], PositionKey)
    ensures forall t :: t in data ==> t.status in Bucketed(data) && t in Bucketed(data)[t.status]
    ensures forall s, t :: s in Bucketed(data) && t in Bucketed(data)[s] ==> t.status == s && t in data
    ensures forall s, t :: s in Bucketed(data) ==>
              multiset(Bucketed(data)[s])[t] == if t.status == s then multiset(data)[t] else 0
  {
    var b := Bucketed(data);
    forall s | s in b ensures SortedBy(b[s], PositionKey) {
      assert b[s] == SortBy(WithStatus(data, s), PositionKey);
    }
    forall s, t | s in b
      ensures t in b[s] <==> t in data && t.status == s
      ensures multiset(b[s])[t] == if t.status == s then multiset(data)[t] else 0
    {
      ColumnPlacement(data, s, t);
    }
    forall t | t in data ensures t.status in b && t in b[t.status] {
      ColumnPlacement(data, t.status, t);
    }
    forall s, t: Task | s in b && t in b[s] ensures t.status == s && t in data {
      ColumnPlacement(data, s, t);
    }
  }

  /** One column of the bucketing, for one task. */
  lemma ColumnPlacement(data: seq<Task>, s: string, t: Task)
    requires s in Boards
    ensures s in Bucketed(data)
    ensures t in Bucketed(data)[s] <==> t in data && t.status == s
    ensures multiset(Bucketed(data)[s])[t] == if t.status == s then multiset(data)[t] else 0
  {
    var col := WithStatus(data, s);
    assert Bucketed(data)[s] == SortBy(col, PositionKey);
    WithStatusContents(data, s);
    SortByMembers(col, PositionKey, t);
  }

  /** Some task carries a status that is not one of the five boards (the task
      statuses also include ASSIGNED, COMPLETED and CLOSED). For such a task
      `newTasks[task.status]` is `undefined`, and calling `push` on it throws a
      `TypeError`. */
  predicate OffBoard(data: seq<Task>) {
    exists i :: 0 <= i < |data| && data[i].status !in Boards
  }

  /** A task off the boards takes the whole input off. */
  lemma OffBoardAt(data: seq<Task>, i: nat)
    requires i < |data| && data[i].status !in Boards
    ensures OffBoard(data)
  {
  }

  /** A prefix whose tasks are all on the boards stays so when the next task is. */
  lemma OnBoardStep(data: seq<Task>, i: nat)
    requires i < |data| && !OffBoard(data[..i]) && data[i].status in Boards
    ensures !OffBoard(data[..i + 1])
  {
    var d := data[..i + 1];
    forall j | 0 <= j < |d| ensures d[j].status in Boards {
      if j < i {
        assert d[j] == data[..i][j];
      }
    }
  }

  /** The five boards, empty. */
  const NoTasks: Columns := map s | s in Boards :: []

  /** The bucketing of the initial `useState` and of the `[data]` effect: push each task
      into the column named by its status, then sort every column by position.
      `None` is the `TypeError` thrown by a task that is on no board. */
  method BucketTasks(data: seq<Task>) returns (cols: Option<Columns>)
    ensures cols.None? <==> OffBoard(data)
    ensures cols.Some? ==> cols.value == Bucketed(data)
  {
    var pushed := PushByStatus(data);
    if pushed.None? {
      return None;
    }
    BoardsDistinct();
    var sorted := SortColumns(Boards, pushed.value);
    cols := Some(sorted);
  }

  /** The `data.forEach(task => newTasks[task.status].push(task))` loop over five empty
      columns. It stops with `None` (the `TypeError`) at the first task whose status
      has no column. */
  method PushByStatus(data: seq<Task>) returns (cols: Option<Columns>)
    ensures cols.None? <==> OffBoard(data)
    ensures cols.Some? ==> forall s :: s in cols.value <==> s in Boards
    ensures cols.Some? ==> forall s :: s in cols.value ==> cols.value[s] == WithStatus(data, s)
  {
    var acc := NoTasks;
    var i := 0;
    assert data[..0] == [];
    while i < |data|
      invariant 0 <= i <= |data|
      invariant !OffBoard(data[..i])
      invariant acc == ByStatus(data[..i])
    {
      var task := data[i];
      if task.status !in acc {
        OffBoardAt(data, i);
        return None;
      }
      OnBoardStep(data, i);
      PushStep(data, i);
      acc := acc[task.status := acc[task.status] + [task]];
      i := i + 1;
    }
    assert data[..i] == data;
    cols := Some(acc);
  }

  /** The component's state: the bucketed columns, the selection, and whether a
      render or the effect has thrown, which takes the board down. */
  class Board {
    var tasks: Columns
    var crashed: bool
    const selection: Selection

    ghost predicate Valid()
      reads this, selection
    {
      tasks.Keys == (set s | s in Boards) && selection.Valid()
    }

    /** The lazy `useState` initialiser, with an empty selection out of selection mode.
        When the initialiser throws there is no state; the model then keeps the five
        empty boards and marks the board crashed. */
    constructor(data: seq<Task>)
      ensures Valid() && fresh(selection)
      ensures crashed <==> OffBoard(data)
      ensures tasks == if OffBoard(data) then NoTasks else Bucketed(data)
      ensures selection.selected == [] && !selection.selectionMode
    {
      var cols := BucketTasks(data);
      tasks := if cols.Some? then cols.value else NoTasks;
      crashed := cols.None?;
      selection := new Selection();
    }

    /** The `[data]` effect: the columns are rebuilt from the new data; the selection
        is kept. When the bucketing throws, `setTasks` is never reached: the columns
        stay and the board is crashed. */
    method Sync(data: seq<Task>)
      requires Valid()
      modifies this
      ensures Valid()
      ensures crashed <==> old(crashed) || OffBoard(data)
      ensures tasks == if OffBoard(data) then old(tasks) else Bucketed(data)
      ensures selection.selected == old(selection.selected)
      ensures selection.selectionMode == old(selection.selectionMode)
    {
      var cols := BucketTasks(data);
      if cols.None? {
        crashed := true;
      } else {
        tasks := cols.value;
      }
    }

    /** `handleSelectAll` for one status column. */
    method SelectAll(status: string, isSelected: bool)
      requires Valid() && status in Boards
      modifies selection
      ensures Valid()
      ensures selection.selected == if isSelected then AddTaskIds(old(selection.selected), tasks[status])
                                    else RemoveTaskIds(old(selection.selected), tasks[status])
      ensures selection.selectionMode == old(selection.selectionMode)
    {
      selection.SelectAll(tasks[status], isSelected);
    }

    /** `onDragEnd`. The result is the argument `onChange` is called with, or `None`
        when it is not called. A drop outside any list changes nothing and calls
        nothing; when no task sits at the source index the columns stay as they were
        and `onChange` still receives the empty payload. */
    method OnDragEnd(result: DropResult) returns (change: Option<seq<Update>>)
      requires Valid()
      requires result.source.droppableId in Boards
      requires result.destination.Some? ==> result.destination.value.droppableId in Boards
      modifies this
      ensures Valid()
      ensures crashed == old(crashed)
      ensures result.destination.None? ==> change == None && tasks == old(tasks)
      ensures result.destination.Some? ==>
        var src, si := result.source.droppableId, result.source.index;
        var dst, di := result.destination.value.droppableId, result.destination.value.index;
        if si < |old(tasks)[src]| then
          tasks == Dragged(old(tasks), src, si, dst, di) && change == Some(DragPayload(old(tasks), src, si, dst, di))
        else
          tasks == old(tasks) && change == Some([])
    {
      if result.destination.None? {
        return None;
      }
      var src, si := result.source.droppableId, result.source.index;
      var dst, di := result.destination.value.droppableId, result.destination.value.index;
      var newCols, payload, moved := ApplyDrag(tasks, src, si, dst, di);
      tasks := newCols;
      change := Some(payload);
    }
  }
}
