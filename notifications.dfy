/** Notification fan-out for task events: who is notified, the title and message of
    each event type, the collapse of event types onto the types the database accepts,
    the metadata attached to each notification, the stored record and the choice of
    email template. Database and messaging calls are abstracted: the documents a
    fan-out stores are returned, and the recipients whose store call fails are a
    parameter. */
module Notifications {
  import opened Common

  datatype NotificationType =
    | TaskAssigned | TaskUpdated | TaskCompleted | TaskStatusChanged
    | TaskPriorityChanged | TaskDueDateChanged | TaskAttachmentAdded | TaskAttachmentDeleted

  function TypeName(t: NotificationType): (r: string)
    ensures |r| > 5 && r[..5] == "task_"
  {
    match t
    case TaskAssigned => "task_assigned"
    case TaskUpdated => "task_updated"
    case TaskCompleted => "task_completed"
    case TaskStatusChanged => "task_status_changed"
    case TaskPriorityChanged => "task_priority_changed"
    case TaskDueDateChanged => "task_due_date_changed"
    case TaskAttachmentAdded => "task_attachment_added"
    case TaskAttachmentDeleted => "task_attachment_deleted"
  }

  /** The type names the notifications collection accepts. */
  const SupportedTypes: seq<string> := ["task_assigned", "task_updated", "task_completed", "task_deleted", "task_comment"]

  /** The stored type: the event's own name when the database accepts it,
      `task_updated` otherwise. */
  function DbType(t: NotificationType): (r: string)
    ensures r in SupportedTypes
  {
    if TypeName(t) in SupportedTypes then TypeName(t) else "task_updated"
  }

  /** Exactly assignment, update and completion keep their own name; every other
      event is stored as `task_updated`. */
  lemma DbTypeCollapse(t: NotificationType)
    ensures DbType(t) == TypeName(t) <==> t in {TaskAssigned, TaskUpdated, TaskCompleted}
    ensures DbType(t) != TypeName(t) ==> DbType(t) == "task_updated"
  {
    match t
    case TaskStatusChanged => assert TypeName(t)[5] == 's';
    case TaskPriorityChanged => assert TypeName(t)[5] == 'p';
    case TaskDueDateChanged => assert TypeName(t)[5] == 'd' && TypeName(t)[6] == 'u';
    case TaskAttachmentAdded => assert TypeName(t)[6] == 't';
    case TaskAttachmentDeleted => assert TypeName(t)[6] == 't';
    case _ =>
  }

  // ----- titles and messages -----

  function Quoted(s: string): string { "\"" + s + "\"" }

  /** The title an assignee sees for an event. */
  function AssigneeTitle(t: NotificationType): (r: string)
    ensures r != "" && 'A' <= r[0] <= 'Z'
  {
    match t
    case TaskAssigned => "New Task Assigned"
    case TaskCompleted => "Task Completed"
    case TaskStatusChanged => "Task Status Changed"
    case TaskPriorityChanged => "Task Priority Changed"
    case TaskDueDateChanged => "Due Date Changed"
    case TaskAttachmentAdded => "Attachment Added"
    case TaskAttachmentDeleted => "Attachment Removed"
    case TaskUpdated => "Task Updated"
  }

  /** The message an assignee sees: who acted, what they did, and the quoted task
      name. */
  function AssigneeMessage(t: NotificationType, who: string, taskName: string): (r: string)
    ensures StartsWith(r, who + " ")
  {
    var q := Quoted(taskName);
    var rest := match t
      case TaskAssigned => "assigned you to " + q
      case TaskCompleted => "marked " + q + " as completed"
      case TaskStatusChanged => "changed status of " + q
      case TaskPriorityChanged => "changed priority of " + q
      case TaskDueDateChanged => "updated the due date for " + q
      case TaskAttachmentAdded => "added an attachment to " + q
      case TaskAttachmentDeleted => "removed an attachment from " + q
      case TaskUpdated => "updated " + q;
    who + " " + rest
  }

  /** The title an administrator sees for an event. */
  function AdminTitle(t: NotificationType): (r: string)
    ensures t != TaskAssigned ==> r == AssigneeTitle(t)
  {
    match t
    case TaskAssigned => "New Task Created"
    case TaskCompleted => "Task Completed"
    case TaskStatusChanged => "Task Status Changed"
    case TaskPriorityChanged => "Task Priority Changed"
    case TaskDueDateChanged => "Due Date Changed"
    case TaskAttachmentAdded => "Attachment Added"
    case TaskAttachmentDeleted => "Attachment Removed"
    case TaskUpdated => "Task Updated"
  }

  function AdminMessage(t: NotificationType, who: string, taskName: string): (r: string)
    ensures StartsWith(r, who + " ")
  {
    var q := Quoted(taskName);
    var rest := match t
      case TaskAssigned => "created a new task " + q
      case TaskCompleted => "completed " + q
      case TaskStatusChanged => "changed status of " + q
      case TaskPriorityChanged => "changed priority of " + q
      case TaskDueDateChanged => "updated the due date for " + q
      case TaskAttachmentAdded => "added an attachment to " + q
      case TaskAttachmentDeleted => "removed an attachment from " + q
      case TaskUpdated => "updated " + q;
    who + " " + rest
  }

  /** Each event has its own assignee title. */
  lemma AssigneeTitlesDistinct(a: NotificationType, b: NotificationType)
    requires AssigneeTitle(a) == AssigneeTitle(b)
    ensures a == b
  {
    var x, y := AssigneeTitle(a), AssigneeTitle(b);
    assert x[0] == y[0] && x[|x| - 1] == y[|y| - 1] && |x| == |y|;
    if |x| > 6 {
      assert x[5] == y[5] && x[6] == y[6];
    }
  }

  /** Administrators and assignees see the same titles, except that an assignment
      reads as a newly created task for administrators. */
  lemma AdminTitlesDiffer(t: NotificationType)
    ensures AdminTitle(TaskAssigned) == "New Task Created" && AssigneeTitle(TaskAssigned) == "New Task Assigned"
    ensures AdminTitle(TaskAssigned) != AssigneeTitle(TaskAssigned)
  {
    assert AdminTitle(TaskAssigned)[9] != AssigneeTitle(TaskAssigned)[9];
  }

  // ----- recipients, metadata and the stored record -----

  /** The task fields the fan-out reads. */
  datatype TaskInfo = TaskInfo(
    id: string, name: string, status: string, projectId: string,
    assigneeIds: Option<seq<string>>, assigneeId: Option<string>)

  /** `assigneeIds`, when present (even empty), else the single non-empty
      `assigneeId`, else nobody. */
  function Recipients(task: TaskInfo): (r: seq<string>)
    ensures task.assigneeIds.Some? ==> r == task.assigneeIds.value
    ensures task.assigneeIds.None? && task.assigneeId.Some? && task.assigneeId.value != "" ==> r == [task.assigneeId.value]
    ensures task.assigneeIds.None? && !(task.assigneeId.Some? && task.assigneeId.value != "") ==> r == []
  {
    match task.assigneeIds
    case Some(ids) => ids
    case None => if task.assigneeId.Some? && task.assigneeId.value != "" then [task.assigneeId.value] else []
  }

  /** Metadata values are kept as strings. */
  type Metadata = map<string, string>

  /** The task's name, status and project, overridden by the caller's keys. */
  function MergeMetadata(task: TaskInfo, extra: Metadata): (r: Metadata)
    ensures "taskName" in r && "taskStatus" in r && "projectId" in r
    ensures forall k :: k in extra ==> k in r && r[k] == extra[k]
    ensures forall k :: k in r ==> k in extra || k in {"taskName", "taskStatus", "projectId"}
  {
    map["taskName" := task.name, "taskStatus" := task.status, "projectId" := task.projectId] + extra
  }

  /** Keys the caller does not supply keep the task's values. */
  lemma MetadataDefaults(task: TaskInfo, extra: Metadata)
    ensures "taskName" !in extra ==> MergeMetadata(task, extra)["taskName"] == task.name
    ensures "taskStatus" !in extra ==> MergeMetadata(task, extra)["taskStatus"] == task.status
    ensures "projectId" !in extra ==> MergeMetadata(task, extra)["projectId"] == task.projectId
  {
  }

  datatype Permission = Read(user: string) | Update(user: string) | Delete(user: string)

  /** A stored in-app notification, with whether an email is attempted for it. */
  datatype Notification = Notification(
    userId: string, notificationType: string, title: string, message: string,
    taskId: string, workspaceId: string, triggeredBy: string, metadata: Metadata,
    read: bool, permissions: seq<Permission>, emailAttempted: bool)

  /** The record `createNotification` stores: unread, readable, updatable and
      deletable by the recipient alone; an email is attempted only when both the task
      and the acting user's name are given. */
  function CreateNotification(
    userId: string, notificationType: string, title: string, message: string,
    taskId: string, workspaceId: string, triggeredBy: string, metadata: Metadata,
    hasTask: bool, triggeredByName: Option<string>): (r: Notification)
    ensures !r.read
    ensures |r.permissions| == 3 && forall p :: p in r.permissions ==> p.user == userId
    ensures r.emailAttempted <==> hasTask && triggeredByName.Some? && triggeredByName.value != ""
    ensures r.userId == userId && r.notificationType == notificationType && r.metadata == metadata
  {
    Notification(userId, notificationType, title, message, taskId, workspaceId, triggeredBy, metadata,
      false, [Read(userId), Update(userId), Delete(userId)],
      hasTask && triggeredByName.Some? && triggeredByName.value != "")
  }

  /** What every notification of one fan-out shares. */
  datatype Content = Content(
    notificationType: string, title: string, message: string, taskId: string,
    workspaceId: string, triggeredBy: string, metadata: Metadata, triggeredByName: string)

  function RecordFor(userId: string, c: Content): Notification {
    CreateNotification(userId, c.notificationType, c.title, c.message, c.taskId, c.workspaceId,
      c.triggeredBy, c.metadata, true, Some(c.triggeredByName))
  }

  /** The notifications stored when `recipients` are notified in order: the acting
      user is skipped, and a recipient whose store call fails gets nothing without
      stopping the others. */
  function Fanned(recipients: seq<string>, actor: string, failing: set<string>, c: Content): seq<Notification>
  {
    if recipients == [] then []
    else
      var u := recipients[|recipients| - 1];
      Fanned(recipients[..|recipients| - 1], actor, failing, c)
        + (if u != actor && u !in failing then [RecordFor(u, c)] else [])
  }

  /** The per-recipient loop. */
  method FanOut(recipients: seq<string>, actor: string, failing: set<string>, c: Content)
      returns (created: seq<Notification>)
    ensures created == Fanned(recipients, actor, failing, c)
  {
    created := [];
    for i := 0 to |recipients|
      invariant created == Fanned(recipients[..i], actor, failing, c)
    {
      assert recipients[..i + 1][..i] == recipients[..i];
      var u := recipients[i];
      if u == actor {
        AppendEmpty(created);
        continue;
      }
      if u in failing {
        AppendEmpty(created);
        continue;
      }
      created := created + [RecordFor(u, c)];
    }
    assert recipients[..|recipients|] == recipients;
  }

  function UserIds(ns: seq<Notification>): seq<string> {
    if ns == [] then [] else UserIds(ns[..|ns| - 1]) + [ns[|ns| - 1].userId]
  }

  lemma {:induction false} UserIdsAppend(a: seq<Notification>, b: seq<Notification>)
    ensures UserIds(a + b) == UserIds(a) + UserIds(b)
    decreases |b|
  {
    if b == [] {
      assert a + b == a;
    } else {
      var b' := b[..|b| - 1];
      assert (a + b)[..|a + b| - 1] == a + b';
      UserIdsAppend(a, b');
      AppendAssoc(UserIds(a), UserIds(b'), [b[|b| - 1].userId]);
    }
  }

  /** The acting user is never notified; every other recipient whose store call
      succeeds gets one notification per time it is listed, and one whose call fails
      gets none. */
  lemma FannedCounts(recipients: seq<string>, actor: string, failing: set<string>, c: Content, u: string)
    ensures multiset(UserIds(Fanned(recipients, actor, failing, c)))[u]
        == if u == actor || u in failing then 0 else multiset(recipients)[u]
  {
    FannedIds(recipients, actor, failing, c);
    KeptCounts(recipients, actor, failing, u);
  }

  /** The recipients that are neither the acting user nor failing, in order. */
  function Kept(recipients: seq<string>, actor: string, failing: set<string>): seq<string> {
    if recipients == [] then []
    else
      var last := recipients[|recipients| - 1];
      Kept(recipients[..|recipients| - 1], actor, failing)
        + (if last != actor && last !in failing then [last] else [])
  }

  /** The fan-out stores one notification per kept recipient, in order. */
  lemma {:induction false} FannedIds(recipients: seq<string>, actor: string, failing: set<string>, c: Content)
    ensures UserIds(Fanned(recipients, actor, failing, c)) == Kept(recipients, actor, failing)
    decreases |recipients|
  {
    if recipients != [] {
      FannedIds(recipients[..|recipients| - 1], actor, failing, c);
      FannedIdsStep(recipients, actor, failing, c);
    }
  }

  lemma {:induction false} KeptCounts(recipients: seq<string>, actor: string, failing: set<string>, u: string)
    ensures multiset(Kept(recipients, actor, failing))[u]
        == if u == actor || u in failing then 0 else multiset(recipients)[u]
    decreases |recipients|
  {
    if recipients != [] {
      var init := recipients[..|recipients| - 1];
      var last := recipients[|recipients| - 1];
      KeptCounts(init, actor, failing, u);
      CountStep(Kept(init, actor, failing), init, last, last != actor && last !in failing, actor, failing, u);
      assert recipients == init + [last];
    }
  }

  /** The ids of one more round of the fan-out: the last recipient's, unless skipped. */
  lemma FannedIdsStep(recipients: seq<string>, actor: string, failing: set<string>, c: Content)
    requires recipients != []
    ensures var last := recipients[|recipients| - 1];
      UserIds(Fanned(recipients, actor, failing, c))
        == UserIds(Fanned(recipients[..|recipients| - 1], actor, failing, c))
          + (if last != actor && last !in failing then [last] else [])
  {
    var last := recipients[|recipients| - 1];
    var before := Fanned(recipients[..|recipients| - 1], actor, failing, c);
    var tail := if last != actor && last !in failing then [RecordFor(last, c)] else [];
    assert Fanned(recipients, actor, failing, c) == before + tail;
    UserIdsAppend(before, tail);
    if tail != [] {
      assert tail[..0] == [];
      assert UserIds(tail) == [last];
    } else {
      assert UserIds(tail) == [];
    }
  }

  /** The counting step on plain ids. */
  lemma CountStep(ids: seq<string>, init: seq<string>, last: string, keep: bool,
                  actor: string, failing: set<string>, u: string)
    requires keep <==> last != actor && last !in failing
    requires multiset(ids)[u] == if u == actor || u in failing then 0 else multiset(init)[u]
    ensures multiset(ids + (if keep then [last] else []))[u]
      == if u == actor || u in failing then 0 else multiset(init + [last])[u]
  {
    assert multiset(init + [last]) == multiset(init) + multiset{last};
    if keep {
      assert multiset(ids + [last]) == multiset(ids) + multiset{last};
    } else {
      assert ids + [] == ids;
    }
  }

  /** Every stored notification carries the shared content and is unread. */
  lemma {:induction false} FannedContent(recipients: seq<string>, actor: string, failing: set<string>, c: Content)
    ensures forall n :: n in Fanned(recipients, actor, failing, c) ==>
      && n.userId in recipients && n.userId != actor && n.userId !in failing
      && n.notificationType == c.notificationType && n.title == c.title && n.message == c.message
      && n.metadata == c.metadata && !n.read
    decreases |recipients|
  {
    if recipients != [] {
      FannedContent(recipients[..|recipients| - 1], actor, failing, c);
      assert forall x :: x in recipients[..|recipients| - 1] ==> x in recipients;
    }
  }

  /** `notifyTaskAssignees`: nothing without recipients; otherwise the assignee
      title, message, stored type and merged metadata, fanned out over the
      recipients. */
  method NotifyTaskAssignees(
    task: TaskInfo, actor: string, actorName: string, t: NotificationType,
    workspaceId: string, extra: Metadata, failing: set<string>)
      returns (created: seq<Notification>)
    ensures Recipients(task) == [] ==> created == []
    ensures created == Fanned(Recipients(task), actor, failing, AssigneeContent(task, actor, actorName, t, workspaceId, extra))
  {
    var ids := Recipients(task);
    if |ids| == 0 {
      return [];
    }
    created := FanOut(ids, actor, failing, AssigneeContent(task, actor, actorName, t, workspaceId, extra));
  }

  function AssigneeContent(task: TaskInfo, actor: string, actorName: string, t: NotificationType,
    workspaceId: string, extra: Metadata): Content
  {
    Content(DbType(t), AssigneeTitle(t), AssigneeMessage(t, actorName, task.name), task.id,
      workspaceId, actor, MergeMetadata(task, extra), actorName)
  }

  function AdminContent(task: TaskInfo, actor: string, actorName: string, t: NotificationType,
    workspaceId: string, extra: Metadata): Content
  {
    Content(DbType(t), AdminTitle(t), AdminMessage(t, actorName, task.name), task.id,
      workspaceId, actor, MergeMetadata(task, extra), actorName)
  }

  /** `notifyWorkspaceAdmins` over the user ids of the workspace's administrators. */
  method NotifyWorkspaceAdmins(
    task: TaskInfo, actor: string, actorName: string, t: NotificationType,
    workspaceId: string, extra: Metadata, admins: seq<string>, failing: set<string>)
      returns (created: seq<Notification>)
    ensures admins == [] ==> created == []
    ensures created == Fanned(admins, actor, failing, AdminContent(task, actor, actorName, t, workspaceId, extra))
  {
    if |admins| == 0 {
      return [];
    }
    created := FanOut(admins, actor, failing, AdminContent(task, actor, actorName, t, workspaceId, extra));
  }

  // ----- email templates -----

  /** The email body `sendEmailNotification` chooses, with the fallbacks it fills in. */
  datatype EmailTemplate =
    | AssignedEmail
    | StatusChangedEmail(oldStatus: string, newStatus: string)
    | CompletedEmail
    | PriorityChangedEmail(oldPriority: string, newPriority: string)
    | DueDateChangedEmail
    | UpdatedEmail

  /** The template for a stored type name; `metadata` supplies the previous status or
      priority, each defaulting when missing or empty. `None` when the recipient has
      no email address. */
  function EmailFor(storedType: string, metadata: Metadata, newStatus: string,
    priority: Option<string>, recipientEmail: Option<string>): (r: Option<EmailTemplate>)
    ensures r.None? <==> !(recipientEmail.Some? && recipientEmail.value != "")
  {
    if !(recipientEmail.Some? && recipientEmail.value != "") then None
    else if storedType == "task_assigned" then Some(AssignedEmail)
    else if storedType == "task_status_changed" then
      Some(StatusChangedEmail(OrDefault(metadata, "oldStatus", "UNKNOWN"), newStatus))
    else if storedType == "task_completed" then Some(CompletedEmail)
    else if storedType == "task_priority_changed" then
      Some(PriorityChangedEmail(OrDefault(metadata, "oldPriority", "MEDIUM"),
        if priority.Some? && priority.value != "" then priority.value else "MEDIUM"))
    else if storedType == "task_due_date_changed" then Some(DueDateChangedEmail)
    else Some(UpdatedEmail)
  }

  /** `metadata[key] || fallback`. */
  function OrDefault(metadata: Metadata, key: string, fallback: string): string {
    if key in metadata && metadata[key] != "" then metadata[key] else fallback
  }

  /** The fan-outs hand the stored type to the email step, so their emails only
      ever use the assigned, completed or generic update template. */
  lemma FanOutEmailTemplates(t: NotificationType, metadata: Metadata, newStatus: string,
    priority: Option<string>, email: string)
    requires email != ""
    ensures var r := EmailFor(DbType(t), metadata, newStatus, priority, Some(email));
      && r.Some?
      && r.value in {AssignedEmail, CompletedEmail, UpdatedEmail}
      && (t in {TaskStatusChanged, TaskPriorityChanged, TaskDueDateChanged} ==> r.value == UpdatedEmail)
  {
    DbTypeCollapse(t);
  }
}
