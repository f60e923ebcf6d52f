/** Moving every task out of a column that is being disabled: fetch the tasks of the
    source status, send one bulk update that gives each of them the target status
    (TODO unless another is named), and report how many moved. The two remote calls
    are inputs here: whether each one answered ok, and the fetched body, which may not
    be JSON. */
module MoveTasks {
  import opened Common

  datatype TaskDoc = TaskDoc(id: string, status: string)

  datatype StatusUpdate = StatusUpdate(id: string, status: string)

  /** The column the tasks go to. */
  function Target(toColumn: Option<string>): (r: string)
    ensures toColumn.Some? ==> r == toColumn.value
    ensures toColumn.None? ==> r == "TODO"
  {
    toColumn.GetOr("TODO")
  }

  /** The ids of the tasks in `fromColumn`, in order. */
  function IdsToMove(docs: seq<TaskDoc>, fromColumn: string): (ids: seq<string>)
    ensures |ids| <= |docs|
    ensures forall x :: x in ids <==> exists d :: d in docs && d.status == fromColumn && d.id == x
  {
    if docs == [] then []
    else
      var rest := IdsToMove(docs[1..], fromColumn);
      assert forall d :: d in docs <==> d == docs[0] || d in docs[1..];
      if docs[0].status == fromColumn then [docs[0].id] + rest else rest
  }

  /** Selecting distributes over concatenation, so the moved ids keep the order of the
      fetched documents. */
  lemma {:induction false} IdsToMoveAppend(a: seq<TaskDoc>, b: seq<TaskDoc>, fromColumn: string)
    ensures IdsToMove(a + b, fromColumn) == IdsToMove(a, fromColumn) + IdsToMove(b, fromColumn)
  {
    if a == [] {
      assert a + b == b;
    } else {
      assert (a + b)[1..] == a[1..] + b;
      IdsToMoveAppend(a[1..], b, fromColumn);
      if a[0].status == fromColumn {
        AppendAssoc([a[0].id], IdsToMove(a[1..], fromColumn), IdsToMove(b, fromColumn));
      }
    }
  }

  /** One update per id, in the same order, each to `status`. */
  function UpdatesTo(ids: seq<string>, status: string): (r: seq<StatusUpdate>)
    ensures |r| == |ids|
    ensures forall i :: 0 <= i < |r| ==> r[i].id == ids[i] && r[i].status == status
  {
    seq(|ids|, i requires 0 <= i < |ids| => StatusUpdate(ids[i], status))
  }

  /** What the mutation did: whether it fetched, the bulk request it sent, and either
      the moved count or the error it raised. */
  datatype Run = Run(fetched: bool, bulkRequest: Option<seq<StatusUpdate>>, outcome: Result)

  /** The error `mutationFn` raises: its own message, or the `SyntaxError` of
      `response.json()` on a body that is not JSON. */
  datatype Result = Moved(count: nat) | Failed(message: string) | BodyNotJson

  /** The fetch answer's body: not JSON, or parsed, with its `data.documents` when
      present. */
  datatype FetchBody = NotJson | Parsed(documents: Option<seq<TaskDoc>>)

  /** `mutationFn`. A fetched body that is not JSON raises before any update; an
      absent document list reads as empty. */
  function MoveTasks(
    workspaceId: string, fromColumn: string, toColumn: Option<string>,
    fetchOk: bool, body: FetchBody, bulkOk: bool): (r: Run)
    ensures workspaceId == "" ==> r == Run(false, None, Failed("Workspace ID is required"))
    ensures workspaceId != "" ==> r.fetched
    ensures workspaceId != "" && !fetchOk ==> r == Run(true, None, Failed("Failed to fetch tasks"))
    ensures workspaceId != "" && fetchOk && body.NotJson? ==> r == Run(true, None, BodyNotJson)
    ensures r.bulkRequest.Some? ==>
      && workspaceId != "" && fetchOk && body.Parsed?
      && r.bulkRequest.value != []
      && (forall u :: u in r.bulkRequest.value ==> u.status == Target(toColumn))
    ensures r.outcome.Moved? ==> r.outcome.count as int == (if r.bulkRequest.Some? then |r.bulkRequest.value| else 0)
    ensures r.outcome.Moved? && r.outcome.count == 0 ==> r.bulkRequest.None?
    ensures r.bulkRequest.Some? && !bulkOk ==> r.outcome == Failed("Failed to update tasks")
  {
    if workspaceId == "" then Run(false, None, Failed("Workspace ID is required"))
    else if !fetchOk then Run(true, None, Failed("Failed to fetch tasks"))
    else if body.NotJson? then Run(true, None, BodyNotJson)
    else
      var ids := IdsToMove(body.documents.GetOr([]), fromColumn);
      if |ids| > 0 then
        var updates := UpdatesTo(ids, Target(toColumn));
        Run(true, Some(updates), if bulkOk then Moved(|ids|) else Failed("Failed to update tasks"))
      else Run(true, None, Moved(0))
  }

  /** When both calls answer ok, the bulk request moves exactly the fetched tasks of the
      source column, in order, and the count is how many there were. */
  lemma MoveTasksSucceeds(
    workspaceId: string, fromColumn: string, toColumn: Option<string>, docs: seq<TaskDoc>)
    requires workspaceId != ""
    ensures var r := MoveTasks(workspaceId, fromColumn, toColumn, true, Parsed(Some(docs)), true);
      var ids := IdsToMove(docs, fromColumn);
      && r.outcome == Moved(|ids|)
      && (ids == [] <==> r.bulkRequest.None?)
      && (ids != [] ==> r.bulkRequest == Some(UpdatesTo(ids, Target(toColumn))))
  {
  }

  /** `Moved N task(s) from X to Y`. */
  function MovedMessage(count: nat, fromColumn: string, toColumn: string): string {
    var head := "Moved " + NatToString(count) + " task";
    head + (if count == 1 then "" else "s") + (" from " + fromColumn + " to " + toColumn)
  }

  /** `onSuccess`: a toast only when something moved. */
  function SuccessToast(movedCount: nat, fromColumn: string, toColumn: Option<string>): (r: Option<string>)
    ensures r.Some? <==> movedCount > 0
    ensures r.Some? ==> r.value == MovedMessage(movedCount, fromColumn, Target(toColumn))
  {
    if movedCount > 0 then Some(MovedMessage(movedCount, fromColumn, Target(toColumn))) else None
  }

  /** The message says "task" for one task and "tasks" for any other count, and the
      count it shows reads back as the number moved. */
  lemma MovedMessageWording(count: nat, fromColumn: string, toColumn: string)
    ensures var m := MovedMessage(count, fromColumn, toColumn);
      var n := NatToString(count);
      && StartsWith(m, "Moved " + n + " task")
      && DecimalValue(n) == count
      && (count == 1 <==> StartsWith(m, "Moved " + n + " task "))
      && (count != 1 <==> StartsWith(m, "Moved " + n + " tasks "))
  {
    NatToStringRoundTrip(count);
    var head := "Moved " + NatToString(count) + " task";
    var tail := " from " + fromColumn + " to " + toColumn;
    assert tail[0] == ' ';
    PluralEnding(head, if count == 1 then "" else "s", tail);
    assert head + "s" + " " == "Moved " + NatToString(count) + " tasks ";
  }

  /** After `head`, an ending of "" or "s" and then a tail starting with a space: the
      message starts with `head` followed by a space exactly for the empty ending, and
      with `head` followed by "s " exactly for the "s" ending. */
  lemma PluralEnding(head: string, ending: string, tail: string)
    requires ending == "" || ending == "s"
    requires tail != [] && tail[0] == ' '
    ensures StartsWith(head + ending + tail, head)
    ensures StartsWith(head + ending + tail, head + " ") <==> ending == ""
    ensures StartsWith(head + ending + tail, head + "s" + " ") <==> ending == "s"
  {
    var m := head + ending + tail;
    assert m[..|head|] == head;
    assert m[|head|] == if ending == "" then ' ' else 's';
    assert (head + " ")[|head|] == ' ';
    assert (head + "s" + " ")[|head|] == 's';
    if ending == "" {
      assert m[..|head| + 1] == head + " ";
    } else {
      assert m[|head| + 1] == ' ';
      assert m[..|head| + 2] == head + "s" + " ";
    }
  }
}
