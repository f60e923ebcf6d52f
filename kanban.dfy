/** What both Kanban boards share: tasks, the capped position formula, the array
    splice that moves a task, the drag-end state change and the "only what changed"
    update payload, and the selection set with its bulk updates.
    (src/features/tasks/components/data-kanban.tsx and
    src/features/custom-columns/components/enhanced-data-kanban.tsx run the same code.) */
module Kanban {
  import opened Common
  import opened Sorting

  /** A task as the board sees it: id, status (a column id) and stored position. */
  datatype Task = Task(id: string, status: string, position: int)

  /** One entry of the batch-update payload: `{ $id, status, position }`. */
  datatype Update = Update(id: string, status: string, position: int)

  /** A place reported by the drag-and-drop library: a droppable id and an index. */
  datatype Location = Location(droppableId: string, index: nat)

  /** The library's `DropResult`: where the drag started, where it was dropped
      (absent when dropped outside any list) and the draggable type. */
  datatype DropResult = DropResult(source: Location, destination: Option<Location>, kind: string)

  /** Column id to the tasks shown in it, top to bottom. */
  type Columns = map<string, seq<Task>>

  const MaxPosition: int := 1_000_000

  function PositionKey(t: Task): int { t.position }

  // ----- positions -----

  /** `Math.min((index + 1) * 1000, 1_000_000)`. */
  function CappedPosition(index: nat): (p: int)
    ensures 0 < p <= MaxPosition
    ensures p % 1000 == 0
    ensures index < 1000 ==> p == (index + 1) * 1000
    ensures index >= 999 ==> p == MaxPosition
  {
    Min((index + 1) * 1000, MaxPosition)
  }

  /** Positions never decrease along a column. */
  lemma CappedPositionMonotone(i: nat, j: nat)
    requires i <= j
    ensures CappedPosition(i) <= CappedPosition(j)
  {
  }

  /** Below the cap, distinct indices get distinct positions. */
  lemma CappedPositionInjectiveBelowCap(i: nat, j: nat)
    requires i < j < 1000
    ensures CappedPosition(i) < CappedPosition(j)
  {
  }

  // ----- splice -----

  /** `s.splice(i, 1)` on a copy: removes the element at `i`, or nothing when `i` is
      past the end. */
  function RemoveAt<T>(s: seq<T>, i: nat): (r: seq<T>)
    ensures i < |s| ==> |r| == |s| - 1 && r == s[..i] + s[i + 1..]
    ensures i < |s| ==> multiset(r) + multiset{s[i]} == multiset(s)
    ensures i >= |s| ==> r == s
  {
    if i < |s| then
      assert s == s[..i] + [s[i]] + s[i + 1..];
      s[..i] + s[i + 1..]
    else s
  }

  /** `s.splice(i, 0, x)` on a copy: inserts `x` at `i`, or at the end when `i` is past it. */
  function InsertAt<T>(s: seq<T>, i: nat, x: T): (r: seq<T>)
    ensures |r| == |s| + 1
    ensures r[Min(i, |s|)] == x
    ensures r[..Min(i, |s|)] == s[..Min(i, |s|)]
    ensures r[Min(i, |s|) + 1..] == s[Min(i, |s|)..]
    ensures multiset(r) == multiset(s) + multiset{x}
  {
    var k := Min(i, |s|);
    assert s == s[..k] + s[k..];
    s[..k] + [x] + s[k..]
  }

  // ----- drag end -----

  /** The moved task keeps its status within a column and takes the destination
      column's id as its status when it changes column. */
  function MovedTask(t: Task, src: string, dst: string): Task {
    if src != dst then t.(status := dst) else t
  }

  /** The columns after a task is dragged from `src[si]` to `dst` at `di`. */
  function Dragged(cols: Columns, src: string, si: nat, dst: string, di: nat): (r: Columns)
    requires src in cols && dst in cols && si < |cols[src]|
    ensures r.Keys == cols.Keys
    ensures forall c :: c in cols && c != src && c != dst ==> r[c] == cols[c]
  {
    var moved := MovedTask(cols[src][si], src, dst);
    var removed := cols[src := RemoveAt(cols[src], si)];
    removed[dst := InsertAt(removed[dst], di, moved)]
  }

  /** A task needs an update when it is not the skipped (moved) task and its stored
      position differs from the capped position of its index. */
  predicate NeedsUpdate(t: Task, index: nat, skip: Option<string>) {
    skip != Some(t.id) && t.position != CappedPosition(index)
  }

  /** The updates one `forEach((task, index) => ...)` pass over a column pushes. */
  function Renumber(col: seq<Task>, status: string, skip: Option<string>): seq<Update>
    decreases |col|
  {
    if col == [] then []
    else
      var k := |col| - 1;
      Renumber(col[..k], status, skip)
      + (if NeedsUpdate(col[k], k, skip) then [Update(col[k].id, status, CappedPosition(k))] else [])
  }

  /** The payload of a drag: the moved task first, then the destination column's
      changed tasks, then (across columns) the source column's changed tasks. */
  function DragPayload(cols: Columns, src: string, si: nat, dst: string, di: nat): (r: seq<Update>)
    requires src in cols && dst in cols && si < |cols[src]|
    ensures |r| >= 1 && r[0] == Update(cols[src][si].id, dst, CappedPosition(di))
  {
    var moved := MovedTask(cols[src][si], src, dst);
    var after := Dragged(cols, src, si, dst, di);
    [Update(moved.id, dst, CappedPosition(di))]
    + Renumber(after[dst], dst, Some(moved.id))
    + (if src != dst then Renumber(after[src], src, None) else [])
  }

  /** The body of the `setTasks` updater in `onDragEnd`, step by step: splice the task
      out of a copy of its column, into a copy of the destination column, and push one
      payload entry per changed task. When no task sits at the source index the
      board is left as it was and the payload stays empty. */
  method ApplyDrag(cols: Columns, src: string, si: nat, dst: string, di: nat)
    returns (newCols: Columns, payload: seq<Update>, moved: bool)
    requires src in cols && dst in cols
    ensures moved <==> si < |cols[src]|
    ensures newCols.Keys == cols.Keys
    ensures !moved ==> newCols == cols && payload == []
    ensures moved ==> newCols == Dragged(cols, src, si, dst, di)
    ensures moved ==> payload == DragPayload(cols, src, si, dst, di)
  {
    var sourceColumn := cols[src];
    if si >= |sourceColumn| {
      return cols, [], false;
    }
    moved := true;
    var movedTask := sourceColumn[si];
    sourceColumn := RemoveAt(sourceColumn, si);
    var updatedMovedTask := MovedTask(movedTask, src, dst);
    newCols := cols[src := sourceColumn];
    var destColumn := InsertAt(newCols[dst], di, updatedMovedTask);
    newCols := newCols[dst := destColumn];

    var first := Update(updatedMovedTask.id, dst, CappedPosition(di));
    payload := PushRenumbered([first], destColumn, dst, Some(updatedMovedTask.id));
    if src != dst {
      payload := PushRenumbered(payload, newCols[src], src, None);
    }
  }

  /** One `forEach((task, index) => ...)` pass of `onDragEnd`: push an update for every
      task of `col` (other than the skipped one) whose position is not the capped
      position of its index. */
  method PushRenumbered(payload0: seq<Update>, col: seq<Task>, status: string, skip: Option<string>)
    returns (payload: seq<Update>)
    ensures payload == payload0 + Renumber(col, status, skip)
  {
    payload := payload0;
    var i := 0;
    while i < |col|
      invariant 0 <= i <= |col|
      invariant payload == payload0 + Renumber(col[..i], status, skip)
    {
      var task := col[i];
      assert col[..i + 1][..i] == col[..i];
      if skip != Some(task.id) {
        var newPosition := CappedPosition(i);
        if task.position != newPosition {
          payload := payload + [Update(task.id, status, newPosition)];
        }
      }
      i := i + 1;
    }
    assert col[..i] == col;
  }

  // ----- properties of the drag -----

  /** Every entry of a renumbering pass belongs to one index of the column whose
      task needs an update, and every such index contributes its entry. */
  lemma {:induction false} RenumberMembers(col: seq<Task>, status: string, skip: Option<string>, u: Update)
    ensures u in Renumber(col, status, skip) <==>
      exists k :: 0 <= k < |col| && NeedsUpdate(col[k], k, skip)
                  && u == Update(col[k].id, status, CappedPosition(k))
    decreases |col|
  {
    if col != [] {
      var k := |col| - 1;
      var init := col[..k];
      RenumberMembers(init, status, skip, u);
      assert forall m :: 0 <= m < k ==> init[m] == col[m];
    }
  }


  /** The drag moves one task and touches nothing but the two columns involved:
      across columns the source loses one task and the destination gains one; within a
      column the length is kept and the result is a permutation. */
  lemma DragPreservesTasks(cols: Columns, src: string, si: nat, dst: string, di: nat)
    requires src in cols && dst in cols && si < |cols[src]|
    ensures var after := Dragged(cols, src, si, dst, di);
      && after.Keys == cols.Keys
      && (forall c :: c in cols && c != src && c != dst ==> after[c] == cols[c])
      && (src == dst ==> |after[dst]| == |cols[dst]| && multiset(after[dst]) == multiset(cols[dst]))
      && (src != dst ==>
            |after[src]| == |cols[src]| - 1 && |after[dst]| == |cols[dst]| + 1
            && multiset(after[src]) + multiset{cols[src][si]} == multiset(cols[src])
            && multiset(after[dst]) == multiset(cols[dst]) + multiset{cols[src][si].(status := dst)})
  {
  }

  /** The moved task lands at the drop index (at the end when the index is past the
      end), carrying the destination's status when it changed column. */
  lemma DragPlacesMovedTask(cols: Columns, src: string, si: nat, dst: string, di: nat)
    requires src in cols && dst in cols && si < |cols[src]|
    ensures var after := Dragged(cols, src, si, dst, di);
      var landing := Min(di, |after[dst]| - 1);
      && 0 <= landing < |after[dst]|
      && after[dst][landing] == MovedTask(cols[src][si], src, dst)
      && (di < |after[dst]| ==> landing == di)
      && (src != dst ==> after[dst][landing].status == dst)
  {
    var removed := cols[src := RemoveAt(cols[src], si)];
    assert |Dragged(cols, src, si, dst, di)[dst]| == |removed[dst]| + 1;
  }

  /** The first payload entry is the moved task at the capped drop position; every
      other entry is a task of the destination column (other than the moved one) or,
      across columns, of the source column, whose stored position differs from the
      capped position of its new index, and each such task has its entry. */
  lemma DragPayloadShape(cols: Columns, src: string, si: nat, dst: string, di: nat, u: Update)
    requires src in cols && dst in cols && si < |cols[src]|
    ensures var p := DragPayload(cols, src, si, dst, di);
      var moved := MovedTask(cols[src][si], src, dst);
      var after := Dragged(cols, src, si, dst, di);
      && |p| >= 1
      && p[0] == Update(moved.id, dst, CappedPosition(di))
      && (u in p[1..] <==>
            (exists k :: 0 <= k < |after[dst]| && NeedsUpdate(after[dst][k], k, Some(moved.id))
                         && u == Update(after[dst][k].id, dst, CappedPosition(k)))
            || (src != dst
                && (exists k :: 0 <= k < |after[src]| && NeedsUpdate(after[src][k], k, None)
                                && u == Update(after[src][k].id, src, CappedPosition(k)))))
  {
    var moved := MovedTask(cols[src][si], src, dst);
    var after := Dragged(cols, src, si, dst, di);
    var p := DragPayload(cols, src, si, dst, di);
    var tail := Renumber(after[dst], dst, Some(moved.id))
      + (if src != dst then Renumber(after[src], src, None) else []);
    assert p[1..] == tail;
    RenumberMembers(after[dst], dst, Some(moved.id), u);
    RenumberMembers(after[src], src, None, u);
  }

  /** Every position in a payload is in (0, 1_000_000]. */
  lemma DragPayloadPositionsInRange(cols: Columns, src: string, si: nat, dst: string, di: nat)
    requires src in cols && dst in cols && si < |cols[src]|
    ensures forall u :: u in DragPayload(cols, src, si, dst, di) ==> 0 < u.position <= MaxPosition
  {
    var moved := MovedTask(cols[src][si], src, dst);
    var after := Dragged(cols, src, si, dst, di);
    forall u | u in DragPayload(cols, src, si, dst, di) ensures 0 < u.position <= MaxPosition {
      RenumberMembers(after[dst], dst, Some(moved.id), u);
      RenumberMembers(after[src], src, None, u);
    }
  }

  // ----- task ids in a payload -----

  predicate DistinctIds(col: seq<Task>) {
    forall i, j :: 0 <= i < j < |col| ==> col[i].id != col[j].id
  }

  /** No task id occurs in both columns. */
  predicate DisjointIds(a: seq<Task>, b: seq<Task>) {
    forall i, j :: 0 <= i < |a| && 0 <= j < |b| ==> a[i].id != b[j].id
  }

  predicate HasId(col: seq<Task>, x: string) {
    exists k :: 0 <= k < |col| && col[k].id == x
  }

  predicate DistinctUpdateIds(us: seq<Update>) {
    forall i, j :: 0 <= i < j < |us| ==> us[i].id != us[j].id
  }

  /** A renumbering pass over a column with distinct ids names each id at most once,
      and only ids of the column other than the skipped one. */
  lemma {:induction false} RenumberIds(col: seq<Task>, status: string, skip: Option<string>)
    requires DistinctIds(col)
    ensures DistinctUpdateIds(Renumber(col, status, skip))
    ensures forall u :: u in Renumber(col, status, skip) ==> HasId(col, u.id) && skip != Some(u.id)
    decreases |col|
  {
    forall u | u in Renumber(col, status, skip) ensures HasId(col, u.id) && skip != Some(u.id) {
      RenumberMembers(col, status, skip, u);
    }
    if col != [] {
      var k := |col| - 1;
      var init := col[..k];
      RenumberIds(init, status, skip);
      var ri := Renumber(init, status, skip);
      forall u | u in ri ensures u.id != col[k].id {
        var m :| 0 <= m < |init| && init[m].id == u.id;
        assert col[m] == init[m];
      }
    }
  }

  /** Removing one task keeps ids distinct and leaves only ids other than its own. */
  lemma RemoveAtIds(c: seq<Task>, si: nat)
    requires si < |c| && DistinctIds(c)
    ensures DistinctIds(RemoveAt(c, si))
    ensures forall m :: 0 <= m < |RemoveAt(c, si)| ==>
              RemoveAt(c, si)[m].id != c[si].id && HasId(c, RemoveAt(c, si)[m].id)
  {
    var r := RemoveAt(c, si);
    assert forall m :: 0 <= m < |r| ==> r[m] == (if m < si then c[m] else c[m + 1]);
  }

  /** Inserting a task whose id is new keeps ids distinct. */
  lemma InsertAtIds(r: seq<Task>, di: nat, x: Task)
    requires DistinctIds(r) && forall m :: 0 <= m < |r| ==> r[m].id != x.id
    ensures DistinctIds(InsertAt(r, di, x))
    ensures forall m :: 0 <= m < |InsertAt(r, di, x)| ==>
              InsertAt(r, di, x)[m].id == x.id || HasId(r, InsertAt(r, di, x)[m].id)
  {
    var q := InsertAt(r, di, x);
    var k := Min(di, |r|);
    forall i, j | 0 <= i < j < |q| ensures q[i].id != q[j].id {
      InsertAtIndex(r, di, x, i);
      InsertAtIndex(r, di, x, j);
    }
    forall m | 0 <= m < |q| ensures q[m].id == x.id || HasId(r, q[m].id) {
      InsertAtIndex(r, di, x, m);
      if m < k {
        assert r[m].id == q[m].id;
      } else if m > k {
        assert r[m - 1].id == q[m].id;
      }
    }
  }

  /** Where each element of an insertion comes from. */
  lemma InsertAtIndex<T>(r: seq<T>, di: nat, x: T, m: nat)
    requires m <= |r|
    ensures var k := Min(di, |r|);
      InsertAt(r, di, x)[m] == if m < k then r[m] else if m == k then x else r[m - 1]
  {
    var q := InsertAt(r, di, x);
    var k := Min(di, |r|);
    if m < k {
      assert q[m] == q[..k][m];
    } else if m > k {
      assert q[m] == q[k + 1..][m - k - 1];
    }
  }

  lemma DistinctUpdateConcat(a: seq<Update>, b: seq<Update>)
    requires DistinctUpdateIds(a) && DistinctUpdateIds(b)
    requires forall u, v :: u in a && v in b ==> u.id != v.id
    ensures DistinctUpdateIds(a + b)
  {
    var s := a + b;
    forall i, j | 0 <= i < j < |s| ensures s[i].id != s[j].id {
      if j < |a| {
        assert s[i] == a[i] && s[j] == a[j];
      } else if i >= |a| {
        assert s[i] == b[i - |a|] && s[j] == b[j - |a|];
      } else {
        assert s[i] == a[i] && s[j] == b[j - |a|];
      }
    }
  }

  /** The payload names only tasks of the two columns involved, and when task ids are
      distinct within and across those columns no id appears twice. */
  lemma DragPayloadIds(cols: Columns, src: string, si: nat, dst: string, di: nat)
    requires src in cols && dst in cols && si < |cols[src]|
    requires DistinctIds(cols[src]) && DistinctIds(cols[dst])
    requires src != dst ==> DisjointIds(cols[src], cols[dst])
    ensures forall u :: u in DragPayload(cols, src, si, dst, di) ==>
              HasId(cols[src], u.id) || HasId(cols[dst], u.id)
    ensures DistinctUpdateIds(DragPayload(cols, src, si, dst, di))
  {
    if src == dst {
      SameColumnPayloadIds(cols, src, si, di);
    } else {
      CrossColumnPayloadIds(cols, src, si, dst, di);
    }
  }

  /** `DragPayloadIds` for a move within one column. */
  lemma SameColumnPayloadIds(cols: Columns, c: string, si: nat, di: nat)
    requires c in cols && si < |cols[c]| && DistinctIds(cols[c])
    ensures forall u :: u in DragPayload(cols, c, si, c, di) ==> HasId(cols[c], u.id)
    ensures DistinctUpdateIds(DragPayload(cols, c, si, c, di))
  {
    var moved := cols[c][si];
    var removed := RemoveAt(cols[c], si);
    var col := Dragged(cols, c, si, c, di)[c];
    assert col == InsertAt(removed, di, moved);
    var first := [Update(moved.id, c, CappedPosition(di))];
    RemoveAtIds(cols[c], si);
    InsertAtIds(removed, di, moved);
    var rd := Renumber(col, c, Some(moved.id));
    RenumberIds(col, c, Some(moved.id));
    assert DragPayload(cols, c, si, c, di) == first + rd;
    forall u | u in rd ensures HasId(cols[c], u.id) {
      assert HasId(col, u.id) && u.id != moved.id;
      var m :| 0 <= m < |col| && col[m].id == u.id;
      assert HasId(removed, u.id);
      var m' :| 0 <= m' < |removed| && removed[m'].id == u.id;
      assert HasId(cols[c], removed[m'].id);
    }
    DistinctUpdateConcat(first, rd);
  }

  /** `DragPayloadIds` for a move between two columns. */
  lemma CrossColumnPayloadIds(cols: Columns, src: string, si: nat, dst: string, di: nat)
    requires src in cols && dst in cols && src != dst && si < |cols[src]|
    requires DistinctIds(cols[src]) && DistinctIds(cols[dst]) && DisjointIds(cols[src], cols[dst])
    ensures forall u :: u in DragPayload(cols, src, si, dst, di) ==>
              HasId(cols[src], u.id) || HasId(cols[dst], u.id)
    ensures DistinctUpdateIds(DragPayload(cols, src, si, dst, di))
  {
    var moved := cols[src][si].(status := dst);
    var removed := RemoveAt(cols[src], si);
    var after := Dragged(cols, src, si, dst, di);
    var col := InsertAt(cols[dst], di, moved);
    assert after[dst] == col && after[src] == removed;
    var first := [Update(moved.id, dst, CappedPosition(di))];
    RemoveAtIds(cols[src], si);
    forall m | 0 <= m < |cols[dst]| ensures cols[dst][m].id != moved.id {
      assert cols[src][si].id == moved.id;
    }
    InsertAtIds(cols[dst], di, moved);
    var rd := Renumber(col, dst, Some(moved.id));
    var rs := Renumber(removed, src, None);
    RenumberIds(col, dst, Some(moved.id));
    RenumberIds(removed, src, None);
    assert DragPayload(cols, src, si, dst, di) == first + rd + rs;
    forall u | u in rd ensures HasId(cols[dst], u.id) {
      assert HasId(col, u.id) && u.id != moved.id;
      var m :| 0 <= m < |col| && col[m].id == u.id;
      assert HasId(cols[dst], col[m].id);
    }
    forall v | v in rs ensures HasId(cols[src], v.id) && v.id != moved.id
      && forall j :: 0 <= j < |cols[dst]| ==> cols[dst][j].id != v.id
    {
      assert HasId(removed, v.id);
      var m :| 0 <= m < |removed| && removed[m].id == v.id;
      assert removed[m].id != cols[src][si].id && HasId(cols[src], removed[m].id);
      var m' :| 0 <= m' < |cols[src]| && cols[src][m'].id == v.id;
    }
    DistinctUpdateConcat(first, rd);
    DistinctUpdateConcat(first + rd, rs);
  }

  /** `Object.keys(newTasks).forEach(id => newTasks[id].sort((a, b) => a.position - b.position))`
      over a board whose keys are `keys`. */
  method SortColumns(keys: seq<string>, pushed: Columns) returns (cols: Columns)
    requires NoDuplicates(keys)
    requires forall s :: s in pushed <==> s in keys
    ensures forall s :: s in cols <==> s in keys
    ensures forall s :: s in cols ==> cols[s] == SortBy(pushed[s], PositionKey)
  {
    cols := pushed;
    var k := 0;
    while k < |keys|
      invariant 0 <= k <= |keys|
      invariant forall s :: s in cols <==> s in keys
      invariant forall s :: s in keys[..k] ==> cols[s] == SortBy(pushed[s], PositionKey)
      invariant forall s :: s in cols && s !in keys[..k] ==> cols[s] == pushed[s]
    {
      var id := keys[k];
      assert keys[..k + 1] == keys[..k] + [id];
      assert id !in keys[..k] by {
        forall m | 0 <= m < k ensures keys[..k][m] != id {
          assert keys[..k][m] == keys[m];
        }
      }
      cols := cols[id := SortBy(cols[id], PositionKey)];
      k := k + 1;
    }
    assert keys[..k] == keys;
  }

  // ----- selection -----

  /** The ids of `col` added to `sel`, in column order. */
  function AddTaskIds(sel: seq<string>, col: seq<Task>): (r: seq<string>)
    ensures forall y :: y in r <==> y in sel || HasId(col, y)
    ensures |r| >= |sel| && r[..|sel|] == sel
    ensures NoDuplicates(sel) ==> NoDuplicates(r)
    decreases |col|
  {
    if col == [] then sel
    else
      var k := |col| - 1;
      var init := col[..k];
      assert forall y :: HasId(col, y) <==> HasId(init, y) || col[k].id == y by {
        forall y | HasId(col, y) ensures HasId(init, y) || col[k].id == y {
          var m :| 0 <= m < |col| && col[m].id == y;
          if m < k { assert init[m] == col[m]; }
        }
        forall y | HasId(init, y) ensures HasId(col, y) {
          var m :| 0 <= m < |init| && init[m].id == y;
          assert col[m] == init[m];
        }
      }
      var r0 := AddTaskIds(sel, init);
      var r := SetAdd(r0, col[k].id);
      assert r[..|sel|] == r[..|r0|][..|sel|];
      r
  }

  /** `sel` without the ids of `col`, the rest in their order. */
  function RemoveTaskIds(sel: seq<string>, col: seq<Task>): (r: seq<string>)
    ensures forall y :: y in r <==> y in sel && !HasId(col, y)
    ensures NoDuplicates(sel) ==> NoDuplicates(r)
    decreases |col|
  {
    if col == [] then sel
    else
      var k := |col| - 1;
      var init := col[..k];
      assert forall y :: HasId(col, y) <==> HasId(init, y) || col[k].id == y by {
        forall y | HasId(col, y) ensures HasId(init, y) || col[k].id == y {
          var m :| 0 <= m < |col| && col[m].id == y;
          if m < k { assert init[m] == col[m]; }
        }
        forall y | HasId(init, y) ensures HasId(col, y) {
          var m :| 0 <= m < |init| && init[m].id == y;
          assert col[m] == init[m];
        }
      }
      SetDelete(RemoveTaskIds(sel, init), col[k].id)
  }

  /** One entry of a bulk request: `{ $id, status }` or `{ $id, assigneeId }`. */
  datatype BulkUpdate = StatusChange(id: string, status: string) | AssigneeChange(id: string, assigneeId: string)

  /** `Array.from(selectedTasks).map(taskId => ({ $id: taskId, status }))`. */
  function StatusUpdates(ids: seq<string>, status: string): (r: seq<BulkUpdate>)
    ensures |r| == |ids|
    ensures forall i :: 0 <= i < |r| ==> r[i] == StatusChange(ids[i], status)
  {
    if ids == [] then [] else [StatusChange(ids[0], status)] + StatusUpdates(ids[1..], status)
  }

  /** `Array.from(selectedTasks).map(taskId => ({ $id: taskId, assigneeId }))`. */
  function AssigneeUpdates(ids: seq<string>, assigneeId: string): (r: seq<BulkUpdate>)
    ensures |r| == |ids|
    ensures forall i :: 0 <= i < |r| ==> r[i] == AssigneeChange(ids[i], assigneeId)
  {
    if ids == [] then [] else [AssigneeChange(ids[0], assigneeId)] + AssigneeUpdates(ids[1..], assigneeId)
  }

  /** A bulk request built from a selection names every selected task exactly once. */
  lemma BulkUpdatesDistinct(ids: seq<string>, status: string, assigneeId: string)
    requires NoDuplicates(ids)
    ensures forall i, j :: 0 <= i < j < |ids| ==>
              StatusUpdates(ids, status)[i].id != StatusUpdates(ids, status)[j].id
              && AssigneeUpdates(ids, assigneeId)[i].id != AssigneeUpdates(ids, assigneeId)[j].id
    ensures forall x :: x in ids <==> exists i :: 0 <= i < |ids| && StatusUpdates(ids, status)[i].id == x
  {
    var su := StatusUpdates(ids, status);
    var au := AssigneeUpdates(ids, assigneeId);
    forall i, j | 0 <= i < j < |ids| ensures su[i].id != su[j].id && au[i].id != au[j].id {
      assert su[i].id == ids[i] && su[j].id == ids[j];
      assert au[i].id == ids[i] && au[j].id == ids[j];
    }
    forall x | x in ids ensures exists i :: 0 <= i < |ids| && su[i].id == x {
      var i :| 0 <= i < |ids| && ids[i] == x;
      assert su[i].id == x;
    }
  }

  /** The board's selection state: the selected task ids (a JavaScript `Set`, kept in
      insertion order since `Array.from` reads it in that order) and the selection-mode
      flag. Both boards run the same handlers over it. */
  class Selection {
    var selected: seq<string>
    var selectionMode: bool

    /** A set holds each id once. */
    ghost predicate Valid()
      reads this
    {
      NoDuplicates(selected)
    }

    constructor()
      ensures Valid()
      ensures selected == [] && !selectionMode
    {
      selected := [];
      selectionMode := false;
    }

    /** `handleTaskSelect`: add or delete one id. */
    method TaskSelect(taskId: string, isSelected: bool)
      requires Valid()
      modifies this
      ensures Valid()
      ensures selected == if isSelected then SetAdd(old(selected), taskId) else SetDelete(old(selected), taskId)
      ensures selectionMode == old(selectionMode)
    {
      if isSelected {
        selected := SetAdd(selected, taskId);
      } else {
        selected := SetDelete(selected, taskId);
      }
    }

    /** `handleSelectAll`: add (or delete) the id of every task of one column, one at a
        time, in column order; ids of other tasks are untouched. */
    method SelectAll(column: seq<Task>, isSelected: bool)
      requires Valid()
      modifies this
      ensures Valid()
      ensures selected == if isSelected then AddTaskIds(old(selected), column)
                          else RemoveTaskIds(old(selected), column)
      ensures selectionMode == old(selectionMode)
    {
      var newSet := selected;
      var i := 0;
      while i < |column|
        invariant 0 <= i <= |column|
        invariant newSet == if isSelected then AddTaskIds(selected, column[..i])
                            else RemoveTaskIds(selected, column[..i])
      {
        assert column[..i + 1][..i] == column[..i];
        if isSelected {
          newSet := SetAdd(newSet, column[i].id);
        } else {
          newSet := SetDelete(newSet, column[i].id);
        }
        i := i + 1;
      }
      assert column[..i] == column;
      selected := newSet;
    }

    /** `handleClearSelection`. */
    method ClearSelection()
      modifies this
      ensures Valid()
      ensures selected == [] && selectionMode == old(selectionMode)
    {
      selected := [];
    }

    /** `toggleSelectionMode`: flips the mode and, when leaving selection mode, empties
        the selection. */
    method ToggleSelectionMode()
      requires Valid()
      modifies this
      ensures Valid()
      ensures selectionMode == !old(selectionMode)
      ensures selected == if old(selectionMode) then [] else old(selected)
    {
      var wasOn := selectionMode;
      selectionMode := !selectionMode;
      if wasOn {
        selected := [];
      }
    }

    /** `handleBulkStatusChange`: nothing happens on an empty selection; otherwise the
        request carries one status update per selected id and the selection is cleared. */
    method BulkStatusChange(status: string) returns (request: Option<seq<BulkUpdate>>)
      requires Valid()
      modifies this
      ensures Valid()
      ensures old(selected) == [] ==> request == None && selected == old(selected)
      ensures old(selected) != [] ==> request == Some(StatusUpdates(old(selected), status)) && selected == []
      ensures selectionMode == old(selectionMode)
    {
      if |selected| == 0 {
        return None;
      }
      var updates := StatusUpdates(selected, status);
      request := Some(updates);
      selected := [];
    }

    /** `handleBulkAssigneeChange`: as the status change, with `assigneeId` updates. */
    method BulkAssigneeChange(assigneeId: string) returns (request: Option<seq<BulkUpdate>>)
      requires Valid()
      modifies this
      ensures Valid()
      ensures old(selected) == [] ==> request == None && selected == old(selected)
      ensures old(selected) != [] ==> request == Some(AssigneeUpdates(old(selected), assigneeId)) && selected == []
      ensures selectionMode == old(selectionMode)
    {
      if |selected| == 0 {
        return None;
      }
      var updates := AssigneeUpdates(selected, assigneeId);
      request := Some(updates);
      selected := [];
    }
  }
}
