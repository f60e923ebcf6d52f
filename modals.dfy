/** The two URL-backed modal states, each a pair of query parameters: the create-task
    modal (`create-task`, `parent-id`) and the project-selection modal
    (`project-selection`, `project-selection-id`); and the create-task dialog that
    drives the first. Both parameters clear on their default (closed, no id), so a
    closed modal leaves nothing in the URL. */
module Modals {
  import opened Common

  /** The query parameters a modal's state writes to the URL. */
  function ParamsOf(openKey: string, idKey: string, isOpen: bool, id: Option<string>): (p: map<string, string>)
    requires openKey != idKey
    ensures openKey in p <==> isOpen
    ensures idKey in p <==> id.Some?
    ensures p.Keys <= {openKey, idKey}
    ensures isOpen ==> p[openKey] == "true"
    ensures id.Some? ==> p[idKey] == id.value
  {
    (if isOpen then map[openKey := "true"] else map[]) + (if id.Some? then map[idKey := id.value] else map[])
  }

  /** `parseAsBoolean.withDefault(false)`: the flag reads as set exactly when the
      parameter is the text `true`. */
  function ReadFlag(url: map<string, string>, key: string): bool {
    key in url && url[key] == "true"
  }

  /** `parseAsString`: the parameter's text, or nothing when it is absent. */
  function ReadId(url: map<string, string>, key: string): Option<string> {
    if key in url then Some(url[key]) else None
  }

  /** What a state writes to the URL reads back as that state. */
  lemma ParamsReadBack(openKey: string, idKey: string, isOpen: bool, id: Option<string>)
    requires openKey != idKey
    ensures ReadFlag(ParamsOf(openKey, idKey, isOpen, id), openKey) == isOpen
    ensures ReadId(ParamsOf(openKey, idKey, isOpen, id), idKey) == id
  {
  }

  /** `useCreateTaskModal`. */
  class CreateTaskModal {
    var isOpen: bool
    var parentId: Option<string>

    /** The state read from the URL's query parameters: closed, with no parent, when
        the URL holds neither. */
    constructor(url: map<string, string>)
      ensures isOpen == ReadFlag(url, "create-task")
      ensures parentId == ReadId(url, "parent-id")
    {
      isOpen := ReadFlag(url, "create-task");
      parentId := ReadId(url, "parent-id");
    }

    function Params(): map<string, string>
      reads this
    {
      ParamsOf("create-task", "parent-id", isOpen, parentId)
    }

    /** `open(taskParentId?)`: a given, non-empty id replaces the parent; otherwise the
        earlier parent stays. */
    method Open(taskParentId: Option<string>)
      modifies this
      ensures isOpen
      ensures taskParentId.Some? && taskParentId.value != "" ==> parentId == taskParentId
      ensures taskParentId.None? || taskParentId.value == "" ==> parentId == old(parentId)
    {
      if taskParentId.Some? && taskParentId.value != "" {
        parentId := taskParentId;
      }
      isOpen := true;
    }

    /** `close`: closed, parent cleared, and the URL left without either parameter. */
    method Close()
      modifies this
      ensures !isOpen && parentId.None?
      ensures Params() == map[]
    {
      isOpen := false;
      parentId := None;
    }

    method SetIsOpen(next: bool)
      modifies this
      ensures isOpen == next && parentId == old(parentId)
    {
      isOpen := next;
    }
  }

  /** `useProjectSelectionModal`. */
  class ProjectSelectionModal {
    var isOpen: bool
    var selectedProjectId: Option<string>

    /** The state read from the URL's query parameters. */
    constructor(url: map<string, string>)
      ensures isOpen == ReadFlag(url, "project-selection")
      ensures selectedProjectId == ReadId(url, "project-selection-id")
    {
      isOpen := ReadFlag(url, "project-selection");
      selectedProjectId := ReadId(url, "project-selection-id");
    }

    function Params(): map<string, string>
      reads this
    {
      ParamsOf("project-selection", "project-selection-id", isOpen, selectedProjectId)
    }

    /** `open(projectId?)`: a given, non-empty id is selected; otherwise the earlier
        selection stays. */
    method Open(projectId: Option<string>)
      modifies this
      ensures isOpen
      ensures projectId.Some? && projectId.value != "" ==> selectedProjectId == projectId
      ensures projectId.None? || projectId.value == "" ==> selectedProjectId == old(selectedProjectId)
    {
      if projectId.Some? && projectId.value != "" {
        selectedProjectId := projectId;
      }
      isOpen := true;
    }

    method Close()
      modifies this
      ensures !isOpen && selectedProjectId.None?
      ensures Params() == map[]
    {
      isOpen := false;
      selectedProjectId := None;
    }
  }

  /** Closing twice leaves the same state as closing once. */
  method CloseTwice(m: CreateTaskModal)
    modifies m
    ensures !m.isOpen && m.parentId.None?
  {
    m.Close();
    ghost var once := (m.isOpen, m.parentId);
    m.Close();
    assert (m.isOpen, m.parentId) == once;
  }

  /** Opening without an id after opening with one keeps that id. */
  method ReopenKeepsParent(m: CreateTaskModal, id: string)
    requires id != ""
    modifies m
    ensures m.isOpen && m.parentId == Some(id)
  {
    m.Open(Some(id));
    m.Open(None);
  }

  /** Opening and then closing leaves a clean URL, whatever the id. */
  method OpenThenCloseSelection(m: ProjectSelectionModal, id: Option<string>)
    modifies m
    ensures m.Params() == map[]
  {
    m.Open(id);
    m.Close();
  }

  // ----- the create-task dialog -----

  /** `handleOpenChange(next)`: a change to the state it already has is ignored. */
  method HandleOpenChange(m: CreateTaskModal, next: bool)
    modifies m
    ensures m.isOpen == next && m.parentId == old(m.parentId)
    ensures next == old(m.isOpen) ==> m.isOpen == old(m.isOpen)
  {
    if next == m.isOpen {
      return;
    }
    m.SetIsOpen(next);
  }

  /** Cancelling the form closes the modal and clears the parent. */
  method Cancel(m: CreateTaskModal)
    modifies m
    ensures !m.isOpen && m.parentId.None?
  {
    m.Close();
  }

  /** `parentId || undefined`: what the form receives. */
  function FormParentId(parentId: Option<string>): (r: Option<string>)
    ensures r.Some? <==> parentId.Some? && parentId.value != ""
    ensures r.Some? ==> r == parentId
  {
    if parentId.Some? && parentId.value != "" then parentId else None
  }
}
