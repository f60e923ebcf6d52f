/** The Kanban board with configurable columns
    (src/features/custom-columns/components/enhanced-data-kanban.tsx): enabled default
    columns and custom columns merged and sorted by position, tasks bucketed with a
    fallback for disabled columns, columns reordered by drag, and the shared task-drag,
    selection and bulk rules. */
module EnhancedKanban {
  import opened Common
  import opened Sorting
  import opened Kanban

  const Todo: string := "TODO"

  datatype ColumnKind = Default | Custom

  /** `ColumnData`: a board column with its id, its kind and its position. */
  datatype ColumnData = ColumnData(id: string, kind: ColumnKind, position: int)

  /** An enabled default column; its position may be unset. */
  datatype DefaultColumn = DefaultColumn(id: string, position: Option<int>)

  /** A custom column document. */
  datatype CustomColumn = CustomColumn(id: string, position: int)

  /** One entry of the column-order request: `{ id, type, position }`. */
  datatype ColumnOrder = ColumnOrder(id: string, kind: ColumnKind, position: int)

  function ColumnPosition(c: ColumnData): int { c.position }

  // ----- allColumns -----

  /** A default column's board entry; `col.position || 0` turns an unset position into 0. */
  function FromDefault(d: DefaultColumn): ColumnData {
    ColumnData(d.id, Default, d.position.GetOr(0))
  }

  function FromCustom(c: CustomColumn): ColumnData {
    ColumnData(c.id, Custom, c.position)
  }

  /** The defaults, then the custom columns, before sorting. */
  function Merged(defaults: seq<DefaultColumn>, customs: seq<CustomColumn>): (r: seq<ColumnData>)
    ensures |r| == |defaults| + |customs|
    ensures forall i :: 0 <= i < |defaults| ==> r[i] == FromDefault(defaults[i])
    ensures forall i :: 0 <= i < |customs| ==> r[|defaults| + i] == FromCustom(customs[i])
  {
    if defaults != [] then [FromDefault(defaults[0])] + Merged(defaults[1..], customs)
    else if customs != [] then [FromCustom(customs[0])] + Merged([], customs[1..])
    else []
  }

  /** `allColumns`: the merged columns sorted by position. */
  function AllColumns(defaults: seq<DefaultColumn>, customs: seq<CustomColumn>): seq<ColumnData> {
    SortBy(Merged(defaults, customs), ColumnPosition)
  }

  /** `allColumns` is sorted by position, holds every enabled default and every custom
      column (as often as given) and nothing else. */
  lemma AllColumnsContents(defaults: seq<DefaultColumn>, customs: seq<CustomColumn>)
    ensures SortedBy(AllColumns(defaults, customs), ColumnPosition)
    ensures |AllColumns(defaults, customs)| == |defaults| + |customs|
    ensures multiset(AllColumns(defaults, customs)) == multiset(Merged(defaults, customs))
    ensures forall d :: d in defaults ==> FromDefault(d) in AllColumns(defaults, customs)
    ensures forall c :: c in customs ==> FromCustom(c) in AllColumns(defaults, customs)
    ensures forall x :: x in AllColumns(defaults, customs) ==>
              (exists d :: d in defaults && x == FromDefault(d)) || (exists c :: c in customs && x == FromCustom(c))
  {
    var m := Merged(defaults, customs);
    forall x ensures x in AllColumns(defaults, customs) <==> x in m {
      SortByMembers(m, ColumnPosition, x);
    }
    forall d | d in defaults ensures FromDefault(d) in m {
      var i :| 0 <= i < |defaults| && defaults[i] == d;
      assert m[i] == FromDefault(d);
    }
    forall c | c in customs ensures FromCustom(c) in m {
      var i :| 0 <= i < |customs| && customs[i] == c;
      assert m[|defaults| + i] == FromCustom(c);
    }
    forall x | x in m
      ensures (exists d :: d in defaults && x == FromDefault(d)) || (exists c :: c in customs && x == FromCustom(c))
    {
      var i :| 0 <= i < |m| && m[i] == x;
      if i < |defaults| {
        assert defaults[i] in defaults;
      } else {
        assert customs[i - |defaults|] in customs;
      }
    }
  }

  // ----- bucketing -----

  /** Some column of `cols` has id `x`. */
  predicate HasColumnId(cols: seq<ColumnData>, x: string) {
    exists i :: 0 <= i < |cols| && cols[i].id == x
  }

  /** The key order of the task map after `orderedColumns.forEach(col => newTasks[col.id] = [])`:
      each column id once, in order of first appearance. */
  function ColumnKeys(cols: seq<ColumnData>): (r: seq<string>)
    ensures NoDuplicates(r)
    ensures forall x :: x in r <==> HasColumnId(cols, x)
    ensures cols != [] ==> r != [] && r[0] == cols[0].id
    decreases |cols|
  {
    if cols == [] then []
    else
      var k := |cols| - 1;
      var init := cols[..k];
      var r0 := ColumnKeys(init);
      assert forall x :: HasColumnId(cols, x) <==> HasColumnId(init, x) || cols[k].id == x by {
        forall x | HasColumnId(cols, x) ensures HasColumnId(init, x) || cols[k].id == x {
          var i :| 0 <= i < |cols| && cols[i].id == x;
          if i < k { assert init[i] == cols[i]; }
        }
        forall x | HasColumnId(init, x) ensures HasColumnId(cols, x) {
          var i :| 0 <= i < |init| && init[i].id == x;
          assert cols[i] == init[i];
        }
      }
      assert init != [] ==> init[0] == cols[0];
      SetAdd(r0, cols[k].id)
  }

  /** The column a task with status `status` is pushed into: its own column when that
      exists, otherwise TODO when that exists, otherwise the first column; with no
      columns the task is dropped. */
  function Target(keys: seq<string>, status: string): (r: Option<string>)
    ensures r.Some? <==> keys != []
    ensures r.Some? ==> r.value in keys
    ensures status in keys ==> r == Some(status)
    ensures status !in keys && Todo in keys ==> r == Some(Todo)
    ensures status !in keys && Todo !in keys && keys != [] ==> r == Some(keys[0])
  {
    if status in keys then Some(status)
    else if Todo in keys then Some(Todo)
    else if keys != [] then Some(keys[0])
    else None
  }

  /** The tasks of `data` routed to column `k`, in input order. */
  function Routed(data: seq<Task>, keys: seq<string>, k: string): seq<Task>
    decreases |data|
  {
    if data == [] then []
    else
      var n := |data| - 1;
      Routed(data[..n], keys, k) + (if Target(keys, data[n].status) == Some(k) then [data[n]] else [])
  }

  /** A column receives every task routed to it, as often as it occurs, and no other. */
  lemma {:induction false} RoutedCount(data: seq<Task>, keys: seq<string>, k: string, t: Task)
    ensures multiset(Routed(data, keys, k))[t] == if Target(keys, t.status) == Some(k) then multiset(data)[t] else 0
    decreases |data|
  {
    if data != [] {
      var n := |data| - 1;
      RoutedCount(data[..n], keys, k, t);
      assert data == data[..n] + [data[n]];
    }
  }

  lemma RoutedStep(data: seq<Task>, keys: seq<string>, i: nat, k: string)
    requires i < |data|
    ensures Routed(data[..i + 1], keys, k)
            == Routed(data[..i], keys, k) + (if Target(keys, data[i].status) == Some(k) then [data[i]] else [])
  {
    assert data[..i + 1][..i] == data[..i];
  }

  /** The task map the effect builds: every column holds the tasks routed to it,
      sorted by position. */
  function BucketedBy(keys: seq<string>, data: seq<Task>): Columns {
    map k | k in keys :: SortBy(Routed(data, keys, k), PositionKey)
  }

  /** Where every task ends up: a task whose status is a column sits in that column,
      otherwise in TODO when that is a column, otherwise in the first column; every
      column is sorted, and with no columns there is nothing. */
  lemma BucketedByPlacement(keys: seq<string>, data: seq<Task>, t: Task)
    requires t in data
    ensures forall k :: k in BucketedBy(keys, data) ==> SortedBy(BucketedBy(keys, data)[k], PositionKey)
    ensures t.status in keys ==> t in BucketedBy(keys, data)[t.status]
    ensures t.status !in keys && Todo in keys ==> t in BucketedBy(keys, data)[Todo]
    ensures t.status !in keys && Todo !in keys && keys != [] ==> t in BucketedBy(keys, data)[keys[0]]
    ensures keys == [] ==> BucketedBy(keys, data) == map[]
    ensures forall k :: k in BucketedBy(keys, data) && t in BucketedBy(keys, data)[k] ==> Target(keys, t.status) == Some(k)
  {
    forall k | k in keys ensures t in BucketedBy(keys, data)[k] <==> Target(keys, t.status) == Some(k) {
      var r := Routed(data, keys, k);
      SortByMembers(r, PositionKey, t);
      RoutedCount(data, keys, k, t);
      assert t in r <==> multiset(r)[t] > 0;
    }
  }

  /** The `[data, orderedColumns]` effect: one empty column per column id, each task
      pushed into its target column, then every column sorted by position. */
  method BucketTasks(ordered: seq<ColumnData>, data: seq<Task>) returns (keys: seq<string>, cols: Columns)
    ensures keys == ColumnKeys(ordered)
    ensures cols == BucketedBy(keys, data)
  {
    var empty;
    keys, empty := EmptyColumns(ordered);
    var pushed := PushTasks(keys, empty, data);
    cols := SortColumns(keys, pushed);
    BucketedByExt(keys, data, pushed, cols);
  }

  /** A map with the keys `keys` whose every column is the sorted routed tasks is the
      bucketed map. */
  lemma BucketedByExt(keys: seq<string>, data: seq<Task>, pushed: Columns, cols: Columns)
    requires forall s :: s in pushed ==> pushed[s] == Routed(data, keys, s)
    requires forall s :: s in cols <==> s in keys
    requires forall s :: s in pushed <==> s in keys
    requires forall s :: s in cols ==> cols[s] == SortBy(pushed[s], PositionKey)
    ensures cols == BucketedBy(keys, data)
  {
  }

  /** `orderedColumns.forEach(col => { newTasks[col.id] = []; })`, with the key order
      the object keeps. */
  method EmptyColumns(ordered: seq<ColumnData>) returns (keys: seq<string>, cols: Columns)
    ensures keys == ColumnKeys(ordered)
    ensures forall s :: s in cols <==> s in keys
    ensures forall s :: s in cols ==> cols[s] == []
  {
    keys := [];
    cols := map[];
    var i := 0;
    while i < |ordered|
      invariant 0 <= i <= |ordered|
      invariant keys == ColumnKeys(ordered[..i])
      invariant forall s :: s in cols <==> s in keys
      invariant forall s :: s in cols ==> cols[s] == []
    {
      assert ordered[..i + 1][..i] == ordered[..i];
      cols := cols[ordered[i].id := []];
      keys := SetAdd(keys, ordered[i].id);
      i := i + 1;
    }
    assert ordered[..i] == ordered;
  }

  /** The `data.forEach` loop: push each task into its target column. */
  method PushTasks(keys: seq<string>, empty: Columns, data: seq<Task>) returns (cols: Columns)
    requires forall s :: s in empty <==> s in keys
    requires forall s :: s in empty ==> empty[s] == []
    ensures forall s :: s in cols <==> s in keys
    ensures forall s :: s in cols ==> cols[s] == Routed(data, keys, s)
  {
    cols := empty;
    var i := 0;
    while i < |data|
      invariant 0 <= i <= |data|
      invariant forall s :: s in cols <==> s in keys
      invariant forall s :: s in cols ==> cols[s] == Routed(data[..i], keys, s)
    {
      var task := data[i];
      var target := Target(keys, task.status);
      if target.Some? {
        cols := cols[target.value := cols[target.value] + [task]];
      }
      forall s | s in cols ensures cols[s] == Routed(data[..i + 1], keys, s) {
        RoutedStep(data, keys, i, s);
      }
      i := i + 1;
    }
    assert data[..i] == data;
  }

  // ----- column reordering -----

  /** The columns after dragging the column at `si` to `di`. */
  function ReorderColumns(cols: seq<ColumnData>, si: nat, di: nat): (r: seq<ColumnData>)
    requires si < |cols|
    ensures |r| == |cols| && multiset(r) == multiset(cols)
  {
    InsertAt(RemoveAt(cols, si), di, cols[si])
  }

  /** A reorder puts the dragged column at the drop index (the end when the index is
      past it) and keeps the other columns in their order. */
  lemma ReorderColumnsSpec(cols: seq<ColumnData>, si: nat, di: nat)
    requires si < |cols|
    ensures var r := ReorderColumns(cols, si, di);
      && r[Min(di, |cols| - 1)] == cols[si]
      && RemoveAt(r, Min(di, |cols| - 1)) == RemoveAt(cols, si)
  {
    var rest := RemoveAt(cols, si);
    var r := ReorderColumns(cols, si, di);
    var k := Min(di, |rest|);
    assert r == r[..k] + [r[k]] + r[k + 1..];
  }

  /** `newColumns.map((col, index) => ({ id, type, position: (index + 1) * 1000 }))`. */
  function ColumnOrderUpdates(cols: seq<ColumnData>): (r: seq<ColumnOrder>)
    ensures |r| == |cols|
    ensures forall i :: 0 <= i < |r| ==> r[i].id == cols[i].id && r[i].kind == cols[i].kind
    ensures forall i :: 0 <= i < |r| ==> r[i].position == (i + 1) * 1000
    decreases |cols|
  {
    if cols == [] then []
    else
      var k := |cols| - 1;
      ColumnOrderUpdates(cols[..k]) + [ColumnOrder(cols[k].id, cols[k].kind, (k + 1) * 1000)]
  }

  /** Column positions strictly increase along the board and, unlike task positions,
      are not capped: the 1001st column is past 1_000_000. */
  lemma ColumnOrderPositions(cols: seq<ColumnData>)
    ensures forall i, j :: 0 <= i < j < |cols| ==>
              0 < ColumnOrderUpdates(cols)[i].position < ColumnOrderUpdates(cols)[j].position
    ensures |cols| > 1000 ==> ColumnOrderUpdates(cols)[1000].position > MaxPosition
  {
    var r := ColumnOrderUpdates(cols);
    forall i, j | 0 <= i < j < |cols|
      ensures 0 < r[i].position < r[j].position
    {
      assert r[i].position == (i + 1) * 1000 && r[j].position == (j + 1) * 1000;
    }
    if |cols| > 1000 {
      assert r[1000].position == 1001 * 1000;
    }
  }

  /** The component's state: the ordered columns, the task map and its key order, and
      the selection. `projectId` is `""` when the prop is absent. */
  class Board {
    var orderedColumns: seq<ColumnData>
    var keys: seq<string>
    var tasks: Columns
    const projectId: string
    const selection: Selection

    ghost predicate Valid()
      reads this, selection
    {
      NoDuplicates(keys) && (forall s :: s in tasks <==> s in keys) && selection.Valid()
    }

    constructor(projectId: string)
      ensures Valid() && fresh(selection)
      ensures orderedColumns == [] && keys == [] && tasks == map[] && this.projectId == projectId
      ensures selection.selected == [] && !selection.selectionMode
    {
      orderedColumns := [];
      keys := [];
      tasks := map[];
      this.projectId := projectId;
      selection := new Selection();
    }

    /** The `[allColumns]` effect. */
    method SetColumns(defaults: seq<DefaultColumn>, customs: seq<CustomColumn>)
      modifies this
      ensures orderedColumns == AllColumns(defaults, customs)
      ensures keys == old(keys) && tasks == old(tasks)
    {
      orderedColumns := AllColumns(defaults, customs);
    }

    /** The `[data, orderedColumns]` effect; absent data is the empty list. */
    method Sync(data: seq<Task>)
      requires Valid()
      modifies this
      ensures Valid()
      ensures orderedColumns == old(orderedColumns)
      ensures keys == ColumnKeys(orderedColumns)
      ensures tasks == BucketedBy(keys, data)
    {
      var newKeys, newTasks := BucketTasks(orderedColumns, data);
      keys, tasks := newKeys, newTasks;
    }

    /** `handleSelectAll` for one column. */
    method SelectAll(columnId: string, isSelected: bool)
      requires Valid() && columnId in tasks
      modifies selection
      ensures Valid()
      ensures selection.selected == if isSelected then AddTaskIds(old(selection.selected), tasks[columnId])
                                    else RemoveTaskIds(old(selection.selected), tasks[columnId])
      ensures selection.selectionMode == old(selection.selectionMode)
    {
      selection.SelectAll(tasks[columnId], isSelected);
    }

    /** `onDragEnd` for a column drag: equal indices change nothing; otherwise the
        columns are reordered and, when a project is set, the new order is the
        request sent. */
    method OnColumnDragEnd(si: nat, di: nat) returns (request: Option<seq<ColumnOrder>>)
      requires si < |orderedColumns|
      modifies this
      ensures si == di ==> orderedColumns == old(orderedColumns) && request == None
      ensures si != di ==> orderedColumns == ReorderColumns(old(orderedColumns), si, di)
      ensures si != di ==> request == if projectId != "" then Some(ColumnOrderUpdates(orderedColumns)) else None
      ensures keys == old(keys) && tasks == old(tasks)
    {
      if si == di {
        return None;
      }
      var newColumns := ReorderColumns(orderedColumns, si, di);
      orderedColumns := newColumns;
      var updatedColumns := ColumnOrderUpdates(newColumns);
      if projectId != "" {
        request := Some(updatedColumns);
      } else {
        request := None;
      }
    }

    /** `onDragEnd` for a task drag: the shared splice and payload, with `onChange`
        called (the result is `Some`) only for a non-empty payload, that is exactly
        when a task was found at the source index. */
    method OnTaskDragEnd(src: string, si: nat, dst: string, di: nat) returns (change: Option<seq<Update>>)
      requires Valid()
      requires src in tasks && dst in tasks
      modifies this
      ensures Valid()
      ensures change.Some? <==> si < |old(tasks)[src]|
      ensures si < |old(tasks)[src]| ==>
                tasks == Dragged(old(tasks), src, si, dst, di) && change == Some(DragPayload(old(tasks), src, si, dst, di))
      ensures si >= |old(tasks)[src]| ==> tasks == old(tasks)
      ensures orderedColumns == old(orderedColumns) && keys == old(keys)
    {
      var newCols, payload, moved := ApplyDrag(tasks, src, si, dst, di);
      tasks := newCols;
      if |payload| > 0 {
        change := Some(payload);
      } else {
        change := None;
      }
    }

    /** `onDragEnd`: a drop outside any list does nothing; a drop of type "column"
        reorders columns; anything else moves a task. */
    method OnDragEnd(result: DropResult) returns (change: Option<seq<Update>>, request: Option<seq<ColumnOrder>>)
      requires Valid()
      requires result.destination.Some? && result.kind == "column" ==> result.source.index < |orderedColumns|
      requires result.destination.Some? && result.kind != "column" ==>
                 result.source.droppableId in tasks && result.destination.value.droppableId in tasks
      modifies this
      ensures Valid()
      ensures result.destination.None? ==>
                change == None && request == None && orderedColumns == old(orderedColumns) && tasks == old(tasks)
                && keys == old(keys)
      ensures result.destination.Some? && result.kind == "column" ==>
                var si, di := result.source.index, result.destination.value.index;
                change == None && tasks == old(tasks) && keys == old(keys)
                && (si == di ==> orderedColumns == old(orderedColumns) && request == None)
                && (si != di ==>
                      orderedColumns == ReorderColumns(old(orderedColumns), si, di)
                      && request == if projectId != "" then Some(ColumnOrderUpdates(orderedColumns)) else None)
      ensures result.destination.Some? && result.kind != "column" ==>
                var src, si := result.source.droppableId, result.source.index;
                var dst, di := result.destination.value.droppableId, result.destination.value.index;
                request == None && orderedColumns == old(orderedColumns) && keys == old(keys)
                && (change.Some? <==> si < |old(tasks)[src]|)
                && (si < |old(tasks)[src]| ==>
                      tasks == Dragged(old(tasks), src, si, dst, di) && change == Some(DragPayload(old(tasks), src, si, dst, di)))
                && (si >= |old(tasks)[src]| ==> tasks == old(tasks))
    {
      change, request := None, None;
      if result.destination.None? {
        return;
      }
      var destination := result.destination.value;
      if result.kind == "column" {
        request := OnColumnDragEnd(result.source.index, destination.index);
        return;
      }
      change := OnTaskDragEnd(result.source.droppableId, result.source.index, destination.droppableId, destination.index);
    }
  }
}
