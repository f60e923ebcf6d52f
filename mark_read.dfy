/** The optimistic cache update behind marking a notification as read: the server
    deletes a notification once it is read, so every cached notification list of the
    workspace drops it at once and the unread counter goes down by one; on failure the
    entries of the snapshot taken beforehand that held data are written back. Cache
    keys stand for the serialised keys the snapshot map uses. */
module MarkRead {
  import opened Common

  datatype NotificationDoc = NotificationDoc(id: string, title: string)

  datatype NotificationsData = NotificationsData(documents: seq<NotificationDoc>, total: int)

  type QueryKey = seq<string>

  /** The notification-list queries of a workspace: keys starting with
      `["notifications", workspaceId]`. */
  predicate Under(k: QueryKey, workspaceId: string) {
    |k| >= 2 && k[0] == "notifications" && k[1] == workspaceId
  }

  /** The documents other than the one with id `id`, in order. */
  function Without(docs: seq<NotificationDoc>, id: string): (r: seq<NotificationDoc>)
    ensures |r| <= |docs|
    ensures forall n :: multiset(r)[n] == if n.id == id then 0 else multiset(docs)[n]
  {
    if docs == [] then []
    else
      var rest := Without(docs[1..], id);
      assert docs == [docs[0]] + docs[1..];
      if docs[0].id == id then rest else [docs[0]] + rest
  }

  /** Removal distributes over concatenation, so the kept documents stay in order. */
  lemma {:induction false} WithoutAppend(a: seq<NotificationDoc>, b: seq<NotificationDoc>, id: string)
    ensures Without(a + b, id) == Without(a, id) + Without(b, id)
  {
    if a == [] {
      assert a + b == b;
    } else {
      assert (a + b)[1..] == a[1..] + b;
      WithoutAppend(a[1..], b, id);
      if a[0].id != id {
        AppendAssoc([a[0]], Without(a[1..], id), Without(b, id));
      }
    }
  }

  lemma {:induction false} WithoutTwice(docs: seq<NotificationDoc>, id: string)
    ensures Without(Without(docs, id), id) == Without(docs, id)
  {
    if docs != [] {
      WithoutTwice(docs[1..], id);
      if docs[0].id != id {
        var rest := Without(docs[1..], id);
        assert ([docs[0]] + rest)[1..] == rest;
      }
    }
  }

  /** The update applied to each matching list: an empty cache entry stays empty;
      otherwise the notification goes and `total` becomes the new length, whatever
      it was. */
  function RemoveNotification(prev: Option<NotificationsData>, id: string): (r: Option<NotificationsData>)
    ensures prev.None? <==> r.None?
    ensures r.Some? ==> r.value.documents == Without(prev.value.documents, id) && r.value.total == |r.value.documents|
  {
    match prev
    case None => None
    case Some(d) =>
      var filtered := Without(d.documents, id);
      Some(NotificationsData(filtered, |filtered|))
  }

  /** Removing twice is removing once. */
  lemma RemoveIdempotent(prev: Option<NotificationsData>, id: string)
    ensures RemoveNotification(RemoveNotification(prev, id), id) == RemoveNotification(prev, id)
  {
    if prev.Some? {
      WithoutTwice(prev.value.documents, id);
    }
  }

  /** The lists after the optimistic update: every cached list of the workspace loses
      the notification, an empty entry stays empty, and other lists are untouched. */
  function MarkedLists(lists: map<QueryKey, Option<NotificationsData>>, workspaceId: string, id: string)
    : (r: map<QueryKey, Option<NotificationsData>>)
    ensures r.Keys == lists.Keys
    ensures forall k :: k in lists && !Under(k, workspaceId) ==> r[k] == lists[k]
    ensures forall k :: k in lists && Under(k, workspaceId) ==>
      && (r[k].None? <==> lists[k].None?)
      && (r[k].Some? ==> r[k].value.documents == Without(lists[k].value.documents, id))
  {
    map k | k in lists :: if Under(k, workspaceId) then RemoveNotification(lists[k], id) else lists[k]
  }

  /** The snapshot of the workspace's lists, empty entries included. */
  function Snapshot(lists: map<QueryKey, Option<NotificationsData>>, workspaceId: string)
    : (r: map<QueryKey, Option<NotificationsData>>)
    ensures forall k :: k in r <==> k in lists && Under(k, workspaceId)
    ensures forall k :: k in r ==> r[k] == lists[k]
  {
    map k | k in lists && Under(k, workspaceId) :: lists[k]
  }

  /** A snapshot entry that holds data. Setting a query's data to `undefined` is ignored
      by the query cache, so only these entries are written back. */
  predicate HoldsData(snapshot: map<QueryKey, Option<NotificationsData>>, k: QueryKey) {
    k in snapshot && snapshot[k].Some?
  }

  /** Writing the snapshot back over the cache: each entry that holds data replaces the
      cached one, and every other cached entry keeps its current value. */
  function Restored(lists: map<QueryKey, Option<NotificationsData>>, snapshot: map<QueryKey, Option<NotificationsData>>)
    : (r: map<QueryKey, Option<NotificationsData>>)
    ensures forall k :: k in r <==> k in lists || HoldsData(snapshot, k)
    ensures forall k :: HoldsData(snapshot, k) ==> r[k] == snapshot[k]
    ensures forall k :: k in lists && !HoldsData(snapshot, k) ==> r[k] == lists[k]
  {
    map k | k in lists.Keys + (set k | k in snapshot && snapshot[k].Some?) ::
      if HoldsData(snapshot, k) then snapshot[k] else lists[k]
  }

  /** The counter after the optimistic update: one less when present and positive,
      untouched otherwise. */
  function Decremented(unread: map<string, int>, workspaceId: string): (r: map<string, int>)
    ensures r.Keys == unread.Keys
    ensures workspaceId in unread && unread[workspaceId] > 0 ==> r[workspaceId] == unread[workspaceId] - 1
    ensures !(workspaceId in unread && unread[workspaceId] > 0) ==> r == unread
    ensures forall w :: w in unread && w != workspaceId ==> r[w] == unread[w]
    ensures forall w :: w in unread && unread[w] >= 0 ==> r[w] >= 0
  {
    if workspaceId in unread && unread[workspaceId] > 0 then unread[workspaceId := unread[workspaceId] - 1]
    else unread
  }

  /** Only the workspace's lists change, and marking the same notification again
      changes nothing more. */
  lemma MarkedListsFacts(lists: map<QueryKey, Option<NotificationsData>>, workspaceId: string, id: string)
    ensures MarkedLists(lists, workspaceId, id).Keys == lists.Keys
    ensures forall k :: k in lists && !Under(k, workspaceId) ==> MarkedLists(lists, workspaceId, id)[k] == lists[k]
    ensures MarkedLists(MarkedLists(lists, workspaceId, id), workspaceId, id) == MarkedLists(lists, workspaceId, id)
  {
    var once := MarkedLists(lists, workspaceId, id);
    forall k | k in lists && Under(k, workspaceId)
      ensures RemoveNotification(once[k], id) == once[k]
    {
      RemoveIdempotent(lists[k], id);
    }
  }

  /** Writing the snapshot back undoes the optimistic update of the lists. */
  lemma RollbackRestoresLists(lists: map<QueryKey, Option<NotificationsData>>, workspaceId: string, id: string)
    ensures Restored(MarkedLists(lists, workspaceId, id), Snapshot(lists, workspaceId)) == lists
  {
    var r := Restored(MarkedLists(lists, workspaceId, id), Snapshot(lists, workspaceId));
    assert r.Keys == lists.Keys;
    forall k | k in lists ensures r[k] == lists[k] {
    }
  }

  datatype Context = Context(
    previousNotifications: map<QueryKey, Option<NotificationsData>>,
    previousUnreadCount: Option<int>)

  /** The query cache as far as this mutation touches it: the notification lists by
      key and the unread counter of each workspace. */
  class NotificationCache {
    var lists: map<QueryKey, Option<NotificationsData>>
    var unread: map<string, int>

    constructor(lists: map<QueryKey, Option<NotificationsData>>, unread: map<string, int>)
      ensures this.lists == lists && this.unread == unread
    {
      this.lists := lists;
      this.unread := unread;
    }

    /** `onMutate`: snapshot, then update optimistically. */
    method OnMutate(workspaceId: string, notificationId: string) returns (ctx: Context)
      modifies this
      ensures ctx.previousNotifications == Snapshot(old(lists), workspaceId)
      ensures ctx.previousUnreadCount == if workspaceId in old(unread) then Some(old(unread)[workspaceId]) else None
      ensures lists == MarkedLists(old(lists), workspaceId, notificationId)
      ensures unread == Decremented(old(unread), workspaceId)
    {
      var previous := Snapshot(lists, workspaceId);
      var previousCount := if workspaceId in unread then Some(unread[workspaceId]) else None;
      lists := MarkedLists(lists, workspaceId, notificationId);
      if previousCount.Some? && previousCount.value > 0 {
        unread := unread[workspaceId := previousCount.value - 1];
      }
      ctx := Context(previous, previousCount);
    }

    /** `onError`: write back what the context holds; a snapshot entry without data
        leaves the cached entry as it is now. */
    method OnError(workspaceId: string, ctx: Option<Context>)
      modifies this
      ensures ctx.None? ==> lists == old(lists) && unread == old(unread)
      ensures ctx.Some? ==> lists == Restored(old(lists), ctx.value.previousNotifications)
      ensures ctx.Some? && ctx.value.previousUnreadCount.Some? ==>
        unread == old(unread)[workspaceId := ctx.value.previousUnreadCount.value]
      ensures ctx.Some? && ctx.value.previousUnreadCount.None? ==> unread == old(unread)
    {
      if ctx.None? {
        return;
      }
      lists := Restored(lists, ctx.value.previousNotifications);
      if ctx.value.previousUnreadCount.Some? {
        unread := unread[workspaceId := ctx.value.previousUnreadCount.value];
      }
    }
  }

  /** A failed mutation leaves the cache as it found it: the lists and the counter
      come back from the context `onMutate` returned. */
  method MutateThenFail(cache: NotificationCache, workspaceId: string, notificationId: string)
    modifies cache
    ensures cache.lists == old(cache.lists) && cache.unread == old(cache.unread)
  {
    var ctx := cache.OnMutate(workspaceId, notificationId);
    RollbackRestoresLists(old(cache.lists), workspaceId, notificationId);
    cache.OnError(workspaceId, Some(ctx));
  }
}
