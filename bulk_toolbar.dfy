/** The toolbar shown while organisation members are selected: its count and wording,
    which actions are disabled, and the confirmation step in front of a bulk delete.
    The callbacks it is given become recorded events. */
module BulkToolbar {
  import opened Common
  import MemberProfile

  type OrgMember = MemberProfile.OrgMember

  /** `selectedMembers.some(m => m.role === "OWNER")`. */
  function HasOwners(selected: seq<OrgMember>): (r: bool)
    ensures r <==> exists i :: 0 <= i < |selected| && selected[i].role == "OWNER"
  {
    if selected == [] then false
    else if selected[0].role == "OWNER" then true
    else
      var rest := HasOwners(selected[1..]);
      assert forall i :: 0 < i < |selected| ==> selected[i] == selected[1..][i - 1];
      assert rest ==> exists i :: 0 <= i < |selected| && selected[i].role == "OWNER" by {
        if rest {
          var i :| 0 <= i < |selected[1..]| && selected[1..][i].role == "OWNER";
          assert selected[i + 1].role == "OWNER";
        }
      }
      rest
  }

  /** The plural ending for a count. */
  function Plural(count: nat): (s: string)
    ensures s == "s" <==> count > 1
    ensures s == "" <==> count <= 1
  {
    if count > 1 then "s" else ""
  }

  datatype ToolbarView = ToolbarView(
    badge: string, roleChangeDisabled: bool, deleteDisabled: bool,
    deleteTitle: Option<string>, description: string, confirmLabel: string)

  const OwnerHint: string := "Cannot delete owners. Change their role first."

  /** The toolbar, or nothing when no member is selected. An absent flag is false. */
  function ToolbarFor(selected: seq<OrgMember>, isUpdating: bool, isDeleting: bool): (r: Option<ToolbarView>)
    ensures r.None? <==> selected == []
    ensures r.Some? ==> (r.value.deleteDisabled <==> isDeleting || HasOwners(selected))
    ensures r.Some? ==> (r.value.roleChangeDisabled <==> isUpdating)
    ensures r.Some? ==> (r.value.deleteTitle.Some? <==> HasOwners(selected))
    ensures r.Some? ==> r.value.confirmLabel == "Remove " + NatToString(|selected|) + " Member" + Plural(|selected|)
  {
    if |selected| == 0 then None
    else
      var count := |selected|;
      var hasOwners := HasOwners(selected);
      Some(ToolbarView(
        NatToString(count) + " selected",
        isUpdating,
        isDeleting || hasOwners,
        if hasOwners then Some(OwnerHint) else None,
        "This will remove " + NatToString(count) + " member" + Plural(count) + " from the organization.",
        "Remove " + NatToString(count) + " Member" + Plural(count)))
  }

  /** A selection with an owner in it can never be deleted from the toolbar. */
  lemma OwnersBlockDelete(selected: seq<OrgMember>, i: nat, isUpdating: bool, isDeleting: bool)
    requires i < |selected| && selected[i].role == "OWNER"
    ensures var v := ToolbarFor(selected, isUpdating, isDeleting);
      v.Some? && v.value.deleteDisabled && v.value.deleteTitle == Some(OwnerHint)
  {
  }

  /** Selections without an owner can be deleted whenever no delete is running. */
  lemma NoOwnersDeleteEnabled(selected: seq<OrgMember>, isUpdating: bool)
    requires selected != [] && forall m :: m in selected ==> m.role != "OWNER"
    ensures !ToolbarFor(selected, isUpdating, false).value.deleteDisabled
  {
    forall i | 0 <= i < |selected|
      ensures selected[i].role != "OWNER"
    {
      assert selected[i] in selected;
    }
  }

  datatype Event = BulkDelete | ClearSelection | ViewProfiles | RoleChange(role: string)

  /** The toolbar's own state, the confirmation dialog, and the callbacks called so
      far. */
  class Toolbar {
    var showDeleteConfirm: bool
    var events: seq<Event>

    constructor()
      ensures !showDeleteConfirm && events == []
    {
      showDeleteConfirm := false;
      events := [];
    }

    /** The delete button: it opens the confirmation, unless it is disabled. */
    method ClickDelete(deleteDisabled: bool)
      modifies this
      ensures showDeleteConfirm == (old(showDeleteConfirm) || !deleteDisabled)
      ensures events == old(events)
    {
      if !deleteDisabled {
        showDeleteConfirm := true;
      }
    }

    /** The dialog's own open/close requests (cancel, escape). */
    method OpenChange(open: bool)
      modifies this
      ensures showDeleteConfirm == open && events == old(events)
    {
      showDeleteConfirm := open;
    }

    /** Confirming calls the bulk delete, then closes the dialog. */
    method Confirm()
      modifies this
      ensures events == old(events) + [BulkDelete]
      ensures !showDeleteConfirm
    {
      events := events + [BulkDelete];
      showDeleteConfirm := false;
    }

    /** The view button passes the selection on to the profile view. */
    method ClickView()
      modifies this
      ensures events == old(events) + [ViewProfiles]
      ensures showDeleteConfirm == old(showDeleteConfirm)
    {
      events := events + [ViewProfiles];
    }

    /** The close button clears the selection. */
    method ClickClear()
      modifies this
      ensures events == old(events) + [ClearSelection]
      ensures showDeleteConfirm == old(showDeleteConfirm)
    {
      events := events + [ClearSelection];
    }

    /** A role picked in the select reaches the callback only while no update runs. */
    method PickRole(role: string, isUpdating: bool)
      modifies this
      ensures events == if isUpdating then old(events) else old(events) + [RoleChange(role)]
      ensures showDeleteConfirm == old(showDeleteConfirm)
    {
      if !isUpdating {
        events := events + [RoleChange(role)];
      }
    }
  }

  /** With an owner selected, the delete button starts nothing: no dialog opens and no
      delete is called. */
  method OwnerSelectionCannotDelete(t: Toolbar, selected: seq<OrgMember>, isUpdating: bool, isDeleting: bool)
    requires HasOwners(selected) && !t.showDeleteConfirm
    modifies t
    ensures !t.showDeleteConfirm && t.events == old(t.events)
  {
    var view := ToolbarFor(selected, isUpdating, isDeleting);
    t.ClickDelete(view.value.deleteDisabled);
  }
}
