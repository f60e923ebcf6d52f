/** The navigation bar's page heading: the fourth piece of the pathname split on "/"
    (the section after `/workspaces/<id>/`) picks a title and a description from a
    fixed table, and anything the table does not name gets the home heading. */
module Navbar {
  import opened Common

  datatype Heading = Heading(title: string, description: string)

  const TasksHeading: Heading := Heading("My Tasks", "View all of your tasks here.")
  const ProjectsHeading: Heading := Heading("My Project", "View tasks of your project here.")
  const TimeTrackingHeading: Heading :=
    Heading("Time Tracking", "Track time, view timesheets, and analyze estimates vs actuals.")
  const HomeHeading: Heading := Heading("Home", "Monitor all of your projects and tasks here.")

  /** The table's own entries. */
  const PathnameMap: map<string, Heading> :=
    map["tasks" := TasksHeading, "projects" := ProjectsHeading, "time-tracking" := TimeTrackingHeading]

  /** Properties every plain JavaScript object inherits. Looking one of them up in the
      table finds that inherited function (or the prototype itself), which is truthy
      and carries neither a title nor a description. */
  const InheritedKeys: set<string> := {
    "constructor", "__proto__", "hasOwnProperty", "isPrototypeOf",
    "propertyIsEnumerable", "toString", "toLocaleString", "valueOf",
    "__defineGetter__", "__defineSetter__", "__lookupGetter__", "__lookupSetter__"}

  /** `pathname.split("/")[3]`: nothing when the path has fewer than four pieces. */
  function SectionKey(pathname: string): (k: Option<string>)
    ensures k.Some? <==> |Split(pathname, '/')| > 3
    ensures k.Some? ==> '/' !in k.value && k.value == Split(pathname, '/')[3]
  {
    var parts := Split(pathname, '/');
    if |parts| > 3 then Some(parts[3]) else None
  }

  /** `pathnameMap[key] || defaultMap`. A missing piece is looked up as the key
      "undefined", which the table does not have. The result is nothing when the
      lookup lands on an inherited property: the heading then shows no text. */
  function HeadingOf(key: Option<string>): (h: Option<Heading>)
    ensures h.None? <==> key.Some? && key.value in InheritedKeys
    ensures key.Some? && key.value in PathnameMap ==> h == Some(PathnameMap[key.value])
    ensures (key.None? || (key.value !in PathnameMap && key.value !in InheritedKeys)) ==> h == Some(HomeHeading)
  {
    match key
    case None => Some(HomeHeading)
    case Some(k) =>
      if k in PathnameMap then Some(PathnameMap[k])
      else if k in InheritedKeys then None
      else Some(HomeHeading)
  }

  /** The heading for a pathname. */
  function NavbarHeading(pathname: string): (h: Option<Heading>)
    ensures var k := SectionKey(pathname);
      h.None? <==> k.Some? && k.value in InheritedKeys
    ensures SectionKey(pathname).None? ==> h == Some(HomeHeading)
  {
    HeadingOf(SectionKey(pathname))
  }

  /** Splitting past a first piece without a separator keeps that piece and splits the
      rest. */
  lemma SplitAfterPiece(p: string, rest: string)
    requires '/' !in p
    ensures Split(p + "/" + rest, '/') == [p] + Split(rest, '/')
  {
    var s := p + "/" + rest;
    assert s[|p|] == '/';
    var i := FirstIndexOf(s, '/');
    assert forall j :: 0 <= j < |p| ==> s[j] == p[j];
    assert i == |p|;
    assert s[..i] == p;
    assert s[i + 1..] == rest;
  }

  /** A piece ends at the end of the string or at a separator. */
  lemma SplitFirstPiece(p: string, tail: string)
    requires '/' !in p
    requires tail == [] || tail[0] == '/'
    ensures Split(p + tail, '/')[0] == p
  {
    if tail == [] {
      assert p + tail == p;
    } else {
      SplitAfterPiece(p, tail[1..]);
      assert p + tail == p + "/" + tail[1..];
    }
  }

  /** In `/<w>/<id>/<rest>` the fourth piece is the first piece of `rest`. */
  lemma FourthPiece(w: string, id: string, rest: string)
    requires '/' !in w && '/' !in id
    ensures |Split("/" + (w + "/" + (id + "/" + rest)), '/')| > 3
    ensures Split("/" + (w + "/" + (id + "/" + rest)), '/')[3] == Split(rest, '/')[0]
  {
    var r2 := id + "/" + rest;
    var r1 := w + "/" + r2;
    assert "/" + r1 == "" + "/" + r1;
    SplitAfterPiece("", r1);
    SplitAfterPiece(w, r2);
    SplitAfterPiece(id, rest);
  }

  /** For `/<w>/<id>/<section>` followed by the end of the path or a further "/...",
      the key is the section, whatever comes after it. */
  lemma SectionOfWorkspacePath(w: string, id: string, section: string, tail: string)
    requires '/' !in w && '/' !in id && '/' !in section
    requires tail == [] || tail[0] == '/'
    ensures SectionKey("/" + w + "/" + id + "/" + section + tail) == Some(section)
  {
    RightAssociated(w, id, section, tail);
    FourthPiece(w, id, section + tail);
    SplitFirstPiece(section, tail);
  }

  lemma RightAssociated(w: string, id: string, section: string, tail: string)
    ensures "/" + w + "/" + id + "/" + section + tail == "/" + (w + "/" + (id + "/" + (section + tail)))
  {
    var a := "/" + w + "/" + id + "/" + section + tail;
    var b := "/" + (w + "/" + (id + "/" + (section + tail)));
    assert |a| == |b|;
    forall k | 0 <= k < |a|
      ensures a[k] == b[k]
    {
    }
  }

  /** Under `/<w>/<id>/` (the app's `/workspaces/<id>/`), the three table entries and
      every other ordinary section, whatever follows the section. */
  lemma SectionHeadings(w: string, id: string, section: string, tail: string)
    requires '/' !in w && '/' !in id && '/' !in section
    requires tail == [] || tail[0] == '/'
    ensures var h := NavbarHeading("/" + w + "/" + id + "/" + section + tail);
      && (section == "tasks" ==> h == Some(TasksHeading))
      && (section == "projects" ==> h == Some(ProjectsHeading))
      && (section == "time-tracking" ==> h == Some(TimeTrackingHeading))
      && (section !in PathnameMap && section !in InheritedKeys ==> h == Some(HomeHeading))
      && (section in InheritedKeys ==> h.None?)
  {
    SectionOfWorkspacePath(w, id, section, tail);
  }

  /** A path of two pieces, such as the workspace home `/workspaces/<id>`, has no
      section and shows the home heading. */
  lemma WorkspaceHomeIsHome(w: string, id: string)
    requires '/' !in w && '/' !in id
    ensures NavbarHeading("/" + w + "/" + id) == Some(HomeHeading)
  {
    var r1 := w + "/" + id;
    assert "/" + w + "/" + id == "" + "/" + r1;
    SplitAfterPiece("", r1);
    SplitAfterPiece(w, id);
    assert Split(id, '/') == [id];
  }
}
