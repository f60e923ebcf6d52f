/** The figures on the personal dashboard, computed from the user's tasks, the
    workspace's sprints and its projects: the month calendar grid, the status counts,
    the due-soon alerts, the active sprint's progress and each project's progress.
    Times are milliseconds since the epoch and day numbers count days since the epoch;
    statuses are the status strings the tasks carry. */
module Dashboard {
  import opened Common
  import Sorting
  import Timeline

  // ----- calendar grid -----

  /** The month grid as a value: `lead` blank cells for the weekdays before the 1st,
      then every day of the month exactly once, in order. */
  function CalendarGrid(lead: nat, daysInMonth: nat): (g: seq<Option<int>>)
    ensures |g| == lead + daysInMonth
    ensures forall i :: 0 <= i < lead ==> g[i] == None
    ensures forall d :: 1 <= d <= daysInMonth ==> g[lead + d - 1] == Some(d)
    ensures forall i, j :: 0 <= i < j < |g| && g[i].Some? ==> g[j].Some? && g[i].value < g[j].value
  {
    seq(lead + daysInMonth, i => if i < lead then None else Some(i - lead + 1))
  }

  /** `getCalendarDays`: push the blanks, then the days. */
  method CalendarDays(startingDayOfWeek: nat, daysInMonth: nat) returns (days: seq<Option<int>>)
    ensures days == CalendarGrid(startingDayOfWeek, daysInMonth)
  {
    days := [];
    for i := 0 to startingDayOfWeek
      invariant |days| == i
      invariant forall k :: 0 <= k < i ==> days[k] == None
    {
      days := days + [None];
    }
    for i := 1 to daysInMonth + 1
      invariant |days| == startingDayOfWeek + i - 1
      invariant forall k :: 0 <= k < startingDayOfWeek ==> days[k] == None
      invariant forall k :: startingDayOfWeek <= k < |days| ==> days[k] == Some(k - startingDayOfWeek + 1)
    {
      days := days + [Some(i)];
    }
  }

  /** When the blanks are the weekday of the 1st, the seven-column grid puts each day
      under its own weekday. */
  lemma CalendarColumnIsWeekday(firstDay: int, daysInMonth: nat, d: int)
    requires 1 <= d <= daysInMonth
    ensures var lead := Timeline.Weekday(firstDay);
      var g := CalendarGrid(lead, daysInMonth);
      g[lead + d - 1] == Some(d) && (lead + d - 1) % 7 == Timeline.Weekday(firstDay + d - 1)
  {
    var lead := Timeline.Weekday(firstDay);
    var g := CalendarGrid(lead, daysInMonth);
    assert g[lead + d - 1] == Some(d);
    WeekdayOffset(firstDay, d);
  }

  /** The cell of day `d` is `d - 1` days later in the week than the 1st. */
  lemma WeekdayOffset(firstDay: int, d: int)
    requires d >= 1
    ensures (Timeline.Weekday(firstDay) + d - 1) % 7 == Timeline.Weekday(firstDay + d - 1)
  {
    var x := firstDay + 4;
    var q := x / 7;
    var r := x % 7;
    assert x == 7 * q + r;
    assert Timeline.Weekday(firstDay) == r;
    assert firstDay + d - 1 + 4 == 7 * q + (r + d - 1);
    ModShift(r + d - 1, q);
  }

  lemma ModShift(a: int, q: int)
    ensures (7 * q + a) % 7 == a % 7
  {
    var b := 7 * q + a;
    var r := a % 7;
    assert a == 7 * (a / 7) + r;
    assert b == 7 * (q + a / 7) + r;
    assert 0 <= r < 7;
  }

  // ----- status counts -----

  datatype DashTask = DashTask(
    id: string, name: string, status: string, dueDate: Option<int>,
    priority: string, projectId: string)

  /** Completed or closed. */
  predicate IsDone(t: DashTask) {
    t.status == "COMPLETED" || t.status == "CLOSED"
  }

  /** The number of tasks with the given status. */
  function CountStatus(tasks: seq<DashTask>, status: string): (n: nat)
    ensures n <= |tasks|
  {
    if tasks == [] then 0 else (if tasks[0].status == status then 1 else 0) + CountStatus(tasks[1..], status)
  }

  /** The number of completed or closed tasks. */
  function CountDone(tasks: seq<DashTask>): (n: nat)
    ensures n <= |tasks|
  {
    if tasks == [] then 0 else (if IsDone(tasks[0]) then 1 else 0) + CountDone(tasks[1..])
  }

  /** A task counted as done is neither in progress nor blocked, so the three counts fit
      in the total. */
  lemma {:induction false} CountsDisjoint(tasks: seq<DashTask>)
    ensures CountDone(tasks) + CountStatus(tasks, "IN_PROGRESS") + CountStatus(tasks, "BLOCKED") <= |tasks|
  {
    if tasks != [] {
      CountsDisjoint(tasks[1..]);
    }
  }

  /** Every task is done exactly when the done count is the total. */
  lemma {:induction false} AllDone(tasks: seq<DashTask>)
    ensures CountDone(tasks) == |tasks| <==> forall t :: t in tasks ==> IsDone(t)
  {
    if tasks != [] {
      AllDone(tasks[1..]);
      assert forall t :: t in tasks <==> t == tasks[0] || t in tasks[1..];
    }
  }

  datatype Analytics = Analytics(
    totalTasks: nat, completedTasks: nat, inProgressTasks: nat, blockedTasks: nat,
    completionPercentage: real)

  /** `analytics`, with the percentage in exact rational arithmetic. */
  function ComputeAnalytics(tasks: seq<DashTask>): (a: Analytics)
    ensures a.totalTasks == |tasks|
    ensures a.completedTasks + a.inProgressTasks + a.blockedTasks <= a.totalTasks
    ensures 0.0 <= a.completionPercentage <= 100.0
    ensures a.completionPercentage == 100.0 <==> tasks != [] && forall t :: t in tasks ==> IsDone(t)
    ensures a.completionPercentage == 0.0 <==> a.completedTasks == 0
  {
    var total := |tasks|;
    var completed := CountDone(tasks);
    CountsDisjoint(tasks);
    AllDone(tasks);
    var pct: real := if total > 0 then Percent(completed, total) else 0.0;
    Analytics(total, completed, CountStatus(tasks, "IN_PROGRESS"), CountStatus(tasks, "BLOCKED"), pct)
  }

  /** `part / whole * 100`, between 0 and 100, at the ends exactly at the ends. */
  function Percent(part: nat, whole: nat): (p: real)
    requires 0 < whole && part <= whole
    ensures 0.0 <= p <= 100.0
    ensures p == 100.0 <==> part == whole
    ensures p == 0.0 <==> part == 0
  {
    var f := part as real / whole as real;
    assert f * (whole as real) == part as real;
    assert f <= 1.0 by {
      if f > 1.0 {
        ScaleStrict(f, 1.0, whole as real);
      }
    }
    assert part == whole ==> f == 1.0;
    assert part == 0 ==> f == 0.0;
    f * 100.0
  }

  /** Scaling by a positive factor keeps a strict order. */
  lemma ScaleStrict(a: real, b: real, c: real)
    requires a > b && c > 0.0
    ensures a * c > b * c
  {
    assert a * c - b * c == (a - b) * c;
  }

  // ----- status distribution -----

  datatype StatusSlice = StatusSlice(name: string, value: nat, color: string)

  /** The slices with a positive value, in order. */
  function KeepPositive(slices: seq<StatusSlice>): (r: seq<StatusSlice>)
    ensures |r| <= |slices|
    ensures forall s :: s in r <==> s in slices && s.value > 0
  {
    if slices == [] then []
    else
      var rest := KeepPositive(slices[1..]);
      assert forall s :: s in slices <==> s == slices[0] || s in slices[1..];
      if slices[0].value > 0 then [slices[0]] + rest else rest
  }

  /** The rank of each slice in the fixed order. */
  function Rank(name: string): int {
    if name == "Completed" then 0 else if name == "In Progress" then 1 else 2
  }

  /** `tasksByStatus`. */
  function TasksByStatus(tasks: seq<DashTask>): (r: seq<StatusSlice>)
    ensures |r| <= 3
    ensures forall s :: s in r ==> s.value > 0
  {
    KeepPositive([
      StatusSlice("Completed", CountDone(tasks), "#22c55e"),
      StatusSlice("In Progress", CountStatus(tasks, "IN_PROGRESS"), "#2663ec"),
      StatusSlice("Assigned", CountStatus(tasks, "ASSIGNED"), "#f59e0b")])
  }

  /** A slice when its value is positive, nothing otherwise. */
  function IfPositive(s: StatusSlice): seq<StatusSlice> {
    if s.value > 0 then [s] else []
  }

  lemma KeepThree(c: StatusSlice, p: StatusSlice, a: StatusSlice)
    ensures KeepPositive([c, p, a]) == IfPositive(c) + IfPositive(p) + IfPositive(a)
  {
    assert [c, p, a][1..] == [p, a];
    assert [p, a][1..] == [a];
    assert [a][1..] == [];
    assert KeepPositive([a]) == IfPositive(a);
    assert KeepPositive([p, a]) == IfPositive(p) + IfPositive(a);
  }

  /** A slice is shown exactly when its count is positive. */
  lemma TasksByStatusShown(tasks: seq<DashTask>)
    ensures var r := TasksByStatus(tasks);
      && ((exists s :: s in r && s.name == "Completed") <==> CountDone(tasks) > 0)
      && ((exists s :: s in r && s.name == "In Progress") <==> CountStatus(tasks, "IN_PROGRESS") > 0)
      && ((exists s :: s in r && s.name == "Assigned") <==> CountStatus(tasks, "ASSIGNED") > 0)
  {
    var c := StatusSlice("Completed", CountDone(tasks), "#22c55e");
    var p := StatusSlice("In Progress", CountStatus(tasks, "IN_PROGRESS"), "#2663ec");
    var a := StatusSlice("Assigned", CountStatus(tasks, "ASSIGNED"), "#f59e0b");
    KeepThree(c, p, a);
    assert |c.name| == 9 && |p.name| == 11 && |a.name| == 8;
    NamedIn(c, p, a, c.name);
    NamedIn(c, p, a, p.name);
    NamedIn(c, p, a, a.name);
  }

  /** A name is among three kept slices exactly when a positive one carries it. */
  lemma NamedIn(c: StatusSlice, p: StatusSlice, a: StatusSlice, n: string)
    ensures (exists s :: s in IfPositive(c) + IfPositive(p) + IfPositive(a) && s.name == n)
        <==> (c.value > 0 && c.name == n) || (p.value > 0 && p.name == n) || (a.value > 0 && a.name == n)
  {
    var r := IfPositive(c) + IfPositive(p) + IfPositive(a);
    if c.value > 0 { assert c in r; }
    if p.value > 0 { assert p in r; }
    if a.value > 0 { assert a in r; }
  }

  /** A shown slice carries its status's count. */
  lemma TasksByStatusValues(tasks: seq<DashTask>)
    ensures var r := TasksByStatus(tasks);
      && (forall s :: s in r && s.name == "Completed" ==> s.value == CountDone(tasks))
      && (forall s :: s in r && s.name == "In Progress" ==> s.value == CountStatus(tasks, "IN_PROGRESS"))
      && (forall s :: s in r && s.name == "Assigned" ==> s.value == CountStatus(tasks, "ASSIGNED"))
  {
    var c := StatusSlice("Completed", CountDone(tasks), "#22c55e");
    var p := StatusSlice("In Progress", CountStatus(tasks, "IN_PROGRESS"), "#2663ec");
    var a := StatusSlice("Assigned", CountStatus(tasks, "ASSIGNED"), "#f59e0b");
    KeepThree(c, p, a);
  }

  /** The slices keep the fixed order Completed, In Progress, Assigned. */
  lemma TasksByStatusOrder(tasks: seq<DashTask>)
    ensures var r := TasksByStatus(tasks);
      forall i, j :: 0 <= i < j < |r| ==> Rank(r[i].name) < Rank(r[j].name)
  {
    var c := StatusSlice("Completed", CountDone(tasks), "#22c55e");
    var p := StatusSlice("In Progress", CountStatus(tasks, "IN_PROGRESS"), "#2663ec");
    var a := StatusSlice("Assigned", CountStatus(tasks, "ASSIGNED"), "#f59e0b");
    KeepThree(c, p, a);
  }

  // ----- due alerts -----

  const DayMs: int := 24 * 60 * 60 * 1000

  /** Has a due date, is not done, and is due no later than a day from now. */
  predicate DueSoon(t: DashTask, now: int) {
    t.dueDate.Some? && !IsDone(t) && t.dueDate.value <= now + DayMs
  }

  /** The filter step: the tasks due soon, in order. */
  function FilterDueSoon(tasks: seq<DashTask>, now: int): (r: seq<DashTask>)
    ensures |r| <= |tasks|
    ensures forall t :: t in r <==> t in tasks && DueSoon(t, now)
  {
    if tasks == [] then []
    else
      var rest := FilterDueSoon(tasks[1..], now);
      assert forall t :: t in tasks <==> t == tasks[0] || t in tasks[1..];
      if DueSoon(tasks[0], now) then [tasks[0]] + rest else rest
  }

  function DueKey(t: DashTask): int {
    t.dueDate.GetOr(0)
  }

  /** The tasks behind the alerts: the due-soon tasks sorted by due time, the first two. */
  function AlertTasks(tasks: seq<DashTask>, now: int): (r: seq<DashTask>)
    ensures |r| <= 2
  {
    var sorted := Sorting.SortBy(FilterDueSoon(tasks, now), DueKey);
    sorted[..Min(2, |sorted|)]
  }

  /** The alerts are the soonest due-soon tasks: each is due soon and they come in
      order of due time. */
  lemma AlertTasksDueSoon(tasks: seq<DashTask>, now: int)
    ensures var r := AlertTasks(tasks, now);
      && (forall t :: t in r ==> t in tasks && DueSoon(t, now))
      && Sorting.SortedBy(r, DueKey)
  {
    var f := FilterDueSoon(tasks, now);
    var sorted := Sorting.SortBy(f, DueKey);
    var r := AlertTasks(tasks, now);
    forall t | t in r ensures t in tasks && DueSoon(t, now) {
      assert t in sorted;
      Sorting.SortByMembers(f, DueKey, t);
    }
  }

  /** A due-soon task without an alert is left out only because two alerts are due no
      later than it. */
  lemma AlertTasksSoonest(tasks: seq<DashTask>, now: int, t: DashTask)
    requires t in tasks && DueSoon(t, now)
    ensures var r := AlertTasks(tasks, now);
      t !in r ==> |r| == 2 && DueKey(r[0]) <= DueKey(t) && DueKey(r[1]) <= DueKey(t)
  {
    var f := FilterDueSoon(tasks, now);
    var sorted := Sorting.SortBy(f, DueKey);
    var r := AlertTasks(tasks, now);
    Sorting.SortByMembers(f, DueKey, t);
    var k :| 0 <= k < |sorted| && sorted[k] == t;
    if k >= 2 {
      assert r == sorted[..2];
      assert DueKey(sorted[0]) <= DueKey(sorted[k]);
      assert DueKey(sorted[1]) <= DueKey(sorted[k]);
    } else {
      assert sorted[k] in r;
    }
  }

  /** The day a time falls on. */
  function DayOf(ms: int): int {
    ms / DayMs
  }

  function DueLabel(due: int, now: int): (l: string)
    ensures l == "Today" <==> DayOf(due) == DayOf(now)
    ensures l == "Overdue" <==> DayOf(due) < DayOf(now)
    ensures l == "Tomorrow" <==> DayOf(due) > DayOf(now)
  {
    if DayOf(due) == DayOf(now) then "Today"
    else if DayOf(due) < DayOf(now) then "Overdue"
    else "Tomorrow"
  }

  /** A task can be due soon only up to the next day, so "Tomorrow" means exactly the
      day after today. */
  lemma TomorrowIsNextDay(t: DashTask, now: int)
    requires DueSoon(t, now)
    ensures DueLabel(t.dueDate.value, now) == "Tomorrow" <==> DayOf(t.dueDate.value) == DayOf(now) + 1
  {
    var due := t.dueDate.value;
    DivMonotone(due, now + DayMs);
    assert (now + DayMs) / DayMs == now / DayMs + 1;
  }

  lemma DivMonotone(a: int, b: int)
    requires a <= b
    ensures a / DayMs <= b / DayMs
  {
    var qa, qb := a / DayMs, b / DayMs;
    assert DayMs * qa <= a < DayMs * qa + DayMs;
    assert DayMs * qb <= b < DayMs * qb + DayMs;
  }

  predicate NoUpper(s: string) {
    forall i :: 0 <= i < |s| ==> !('A' <= s[i] <= 'Z')
  }

  /** `(priority || "MEDIUM").toLowerCase()`. */
  function PriorityLabel(priority: string): (r: string)
    ensures NoUpper(r) && r != ""
    ensures priority == "" ==> r == "medium"
    ensures priority != "" ==> EqualsIgnoreCase(r, priority)
  {
    var r := ToLower(if priority == "" then "MEDIUM" else priority);
    assert priority != "" ==> ToLower(r) == ToLower(priority);
    r
  }

  datatype Alert = Alert(id: string, title: string, dueLabel: string, priority: string)

  function AlertFor(t: DashTask, now: int): Alert {
    Alert(t.id, t.name, DueLabel(DueKey(t), now), PriorityLabel(t.priority))
  }

  /** `dueAlerts`: one alert per alert task, in the same order. */
  function DueAlerts(tasks: seq<DashTask>, now: int): (r: seq<Alert>)
    ensures |r| <= 2
    ensures |r| == |AlertTasks(tasks, now)|
    ensures forall i :: 0 <= i < |r| ==> r[i].id == AlertTasks(tasks, now)[i].id
    ensures forall i :: 0 <= i < |r| ==> r[i].dueLabel in {"Today", "Overdue", "Tomorrow"}
    ensures forall i :: 0 <= i < |r| ==> var p := AlertTasks(tasks, now)[i];
      && r[i].title == p.name
      && r[i].dueLabel == DueLabel(DueKey(p), now)
      && r[i].priority == PriorityLabel(p.priority)
  {
    var picked := AlertTasks(tasks, now);
    seq(|picked|, i requires 0 <= i < |picked| => AlertFor(picked[i], now))
  }

  // ----- active sprint -----

  datatype Sprint = Sprint(name: string, status: string, goal: string)

  /** No sprint before index `i` is active. */
  predicate FirstActiveAt(sprints: seq<Sprint>, i: int) {
    forall j :: 0 <= j < i && j < |sprints| ==> sprints[j].status != "ACTIVE"
  }

  /** `find`: the first sprint that is active. */
  function FindActive(sprints: seq<Sprint>): (r: Option<Sprint>)
    ensures r.None? <==> forall s :: s in sprints ==> s.status != "ACTIVE"
    ensures r.Some? ==> r.value.status == "ACTIVE"
    ensures r.Some? ==> exists i :: 0 <= i < |sprints| && sprints[i] == r.value && FirstActiveAt(sprints, i)
  {
    if sprints == [] then None
    else if sprints[0].status == "ACTIVE" then Some(sprints[0])
    else
      var rest := FindActive(sprints[1..]);
      assert forall s :: s in sprints <==> s == sprints[0] || s in sprints[1..];
      if rest.Some? then
        assert exists i :: 0 <= i < |sprints| && sprints[i] == rest.value && FirstActiveAt(sprints, i) by {
          var i :| 0 <= i < |sprints[1..]| && sprints[1..][i] == rest.value && FirstActiveAt(sprints[1..], i);
          assert sprints[i + 1] == rest.value;
          forall j | 0 <= j < i + 1 ensures sprints[j].status != "ACTIVE" {
            if j > 0 {
              assert sprints[j] == sprints[1..][j - 1];
            }
          }
        }
        rest
      else rest
  }

  /** The tasks with an id. */
  function WithId(tasks: seq<DashTask>): (r: seq<DashTask>)
    ensures |r| <= |tasks|
    ensures forall t :: t in r <==> t in tasks && t.id != ""
  {
    if tasks == [] then []
    else
      var rest := WithId(tasks[1..]);
      assert forall t :: t in tasks <==> t == tasks[0] || t in tasks[1..];
      if tasks[0].id != "" then [tasks[0]] + rest else rest
  }

  datatype SprintSummary = SprintSummary(
    name: string, totalTasks: nat, completedTasks: nat, pendingTasks: int, goal: string)

  /** `activeSprint`: nothing without an active sprint; otherwise the counts over the
      tasks with an id, the pending count never below zero, and the goal or a
      placeholder. */
  function ActiveSprint(sprints: seq<Sprint>, tasks: seq<DashTask>): (r: Option<SprintSummary>)
    ensures r.None? <==> forall s :: s in sprints ==> s.status != "ACTIVE"
    ensures r.Some? ==> r.value.totalTasks == |WithId(tasks)|
    ensures r.Some? ==> r.value.completedTasks == CountDone(WithId(tasks))
    ensures r.Some? ==> 0 <= r.value.pendingTasks && r.value.completedTasks + r.value.pendingTasks == r.value.totalTasks
    ensures r.Some? ==> r.value.goal != ""
  {
    match FindActive(sprints)
    case None => None
    case Some(sprint) =>
      var sprintTasks := WithId(tasks);
      var completed := CountDone(sprintTasks);
      Some(SprintSummary(sprint.name, |sprintTasks|, completed, Max(0, |sprintTasks| - completed),
        if sprint.goal == "" then "No goal set" else sprint.goal))
  }

  // ----- project progress -----

  datatype Project = Project(id: string, name: string)

  datatype ProjectCard = ProjectCard(id: string, name: string, progress: int, tasks: nat)

  /** `Math.round(part / whole * 100)` on exact rationals: the nearest whole percent,
      halves rounded up. */
  function RoundPercent(part: nat, whole: nat): (r: int)
    requires 0 < whole && part <= whole
    ensures 0 <= r <= 100
    ensures 2 * whole * r <= 200 * part + whole < 2 * whole * (r + 1)
    ensures part == 0 ==> r == 0
    ensures part == whole ==> r == 100
  {
    var r := (200 * part + whole) / (2 * whole);
    RoundBounds(part, whole, r);
    r
  }

  lemma RoundBounds(part: nat, whole: nat, r: int)
    requires 0 < whole && part <= whole && r == (200 * part + whole) / (2 * whole)
    ensures 2 * whole * r <= 200 * part + whole < 2 * whole * (r + 1)
    ensures 0 <= r <= 100
    ensures part == 0 ==> r == 0
    ensures part == whole ==> r == 100
  {
    var n := 200 * part + whole;
    var d := 2 * whole;
    assert d * r <= n < d * r + d;
    assert d * (r + 1) == d * r + d;
    MulMono(d, r + 1, 0);
    MulMono(d, 101, r);
    MulMono(d, 1, r);
    MulMono(d, r + 1, 100);
  }

  lemma {:induction false} MulMono(d: nat, x: int, y: int)
    ensures x <= y ==> d * x <= d * y
  {
    if d > 0 {
      MulMono(d - 1, x, y);
      assert d * x == (d - 1) * x + x;
      assert d * y == (d - 1) * y + y;
    }
  }

  /** The tasks of a project. */
  function OfProject(tasks: seq<DashTask>, projectId: string): (r: seq<DashTask>)
    ensures |r| <= |tasks|
    ensures forall t :: t in r <==> t in tasks && t.projectId == projectId
  {
    if tasks == [] then []
    else
      var rest := OfProject(tasks[1..], projectId);
      assert forall t :: t in tasks <==> t == tasks[0] || t in tasks[1..];
      if tasks[0].projectId == projectId then [tasks[0]] + rest else rest
  }

  /** One project's card: its task count and its progress. */
  function CardFor(p: Project, tasks: seq<DashTask>): (c: ProjectCard)
    ensures c.id == p.id && c.tasks == |OfProject(tasks, p.id)|
    ensures 0 <= c.progress <= 100
    ensures c.tasks == 0 ==> c.progress == 0
    ensures c.tasks > 0 ==> c.progress == RoundPercent(CountDone(OfProject(tasks, p.id)), c.tasks)
  {
    var projectTasks := OfProject(tasks, p.id);
    var completed := CountDone(projectTasks);
    var progress := if |projectTasks| > 0 then RoundPercent(completed, |projectTasks|) else 0;
    ProjectCard(p.id, p.name, progress, |projectTasks|)
  }

  /** A project whose tasks are all done shows 100, and one with no task done shows 0. */
  lemma CardProgressEnds(p: Project, tasks: seq<DashTask>)
    ensures var pt := OfProject(tasks, p.id);
      && ((forall t :: t in pt ==> IsDone(t)) ==> CardFor(p, tasks).progress == (if pt == [] then 0 else 100))
      && (CountDone(pt) == 0 ==> CardFor(p, tasks).progress == 0)
  {
    AllDone(OfProject(tasks, p.id));
  }

  /** `projects`: one card per project, in order. */
  function ProjectCards(projects: seq<Project>, tasks: seq<DashTask>): (r: seq<ProjectCard>)
    ensures |r| == |projects|
    ensures forall i :: 0 <= i < |r| ==> r[i] == CardFor(projects[i], tasks)
  {
    seq(|projects|, i requires 0 <= i < |projects| => CardFor(projects[i], tasks))
  }
}
