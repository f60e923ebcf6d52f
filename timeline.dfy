/** The timeline view of tasks over integer day numbers: the visible range of each
    view, its columns (days, or weeks in the quarter view), the placement of each task
    as a bar and the navigation steps. Day numbers count days from 1970-01-01, a
    Thursday; weeks start on Sunday. */
module Timeline {
  import opened Common

  datatype View = Week | Month | Quarter

  /** 0 for Sunday up to 6 for Saturday. */
  function Weekday(d: int): (r: int)
    ensures 0 <= r < 7
  {
    (d + 4) % 7
  }

  function StartOfWeek(d: int): (r: int)
    ensures r <= d < r + 7
    ensures Weekday(r) == 0
  {
    d - Weekday(d)
  }

  datatype Range = Range(start: int, end: int)

  /** The first and last day shown: from the start of the current week to the end of
      that week, or 120 days on for the month view and 90 days on for the quarter
      view. */
  function ViewRange(current: int, view: View): (r: Range)
    ensures r.start == StartOfWeek(current) && r.start <= current
    ensures view == Week ==> r.end == r.start + 6 && current <= r.end
    ensures view == Month ==> r.end == r.start + 120
    ensures view == Quarter ==> r.end == r.start + 90
  {
    var start := StartOfWeek(current);
    match view
    case Week => Range(start, start + 6)
    case Month => Range(start, start + 120)
    case Quarter => Range(start, start + 90)
  }

  // ----- columns -----

  /** Every day of the range, first to last. */
  function DayColumns(r: Range): (days: seq<int>)
    requires r.start <= r.end
    ensures |days| == r.end - r.start + 1
    ensures forall i :: 0 <= i < |days| ==> days[i] == r.start + i
  {
    seq(r.end - r.start + 1, i => r.start + i)
  }

  /** The quarter view's columns: one per 7 days from `from` while not past `end`. */
  function WeekSteps(from: int, end: int): seq<int>
    decreases end - from + 1
  {
    if from > end then [] else [from] + WeekSteps(from + 7, end)
  }

  lemma {:induction false} WeekStepsShape(from: int, end: int)
    requires from <= end + 1
    ensures var ws := WeekSteps(from, end);
      && |ws| == (if from > end then 0 else (end - from) / 7 + 1)
      && forall i :: 0 <= i < |ws| ==> ws[i] == from + 7 * i && ws[i] <= end
    decreases end - from + 1
  {
    if from <= end {
      if from + 7 <= end + 1 {
        WeekStepsShape(from + 7, end);
        assert (end - from) / 7 == (end - from - 7) / 7 + 1;
      } else {
        assert WeekSteps(from + 7, end) == [];
        assert (end - from) / 7 == 0;
      }
      var ws := WeekSteps(from, end);
      forall i | 0 < i < |ws| ensures ws[i] == from + 7 * i {
        assert ws[i] == WeekSteps(from + 7, end)[i - 1];
      }
    }
  }

  /** The quarter view's loop. */
  method QuarterColumns(r: Range) returns (weeks: seq<int>)
    ensures weeks == WeekSteps(r.start, r.end)
  {
    weeks := [];
    var current := r.start;
    while current <= r.end
      invariant weeks + WeekSteps(current, r.end) == WeekSteps(r.start, r.end)
      decreases r.end - current + 1
    {
      AppendAssoc(weeks, [current], WeekSteps(current + 7, r.end));
      weeks := weeks + [current];
      current := current + 7;
    }
    AppendEmpty(weeks);
  }

  function Columns(view: View, r: Range): seq<int>
    requires r.start <= r.end
  {
    if view == Quarter then WeekSteps(r.start, r.end) else DayColumns(r)
  }

  /** A week of 7 day columns, 121 day columns for the month view and 13 week columns
      for the quarter view. */
  lemma ColumnCounts(current: int, view: View)
    ensures var cs := Columns(view, ViewRange(current, view));
      |cs| == match view case Week => 7 case Month => 121 case Quarter => 13
  {
    var r := ViewRange(current, view);
    if view == Quarter {
      WeekStepsShape(r.start, r.end);
    }
  }

  /** The pixel width of one column. */
  function ColumnWidth(view: View): int {
    match view case Quarter => 28 case Month => 40 case Week => 80
  }

  /** The grid's pixel width: 560 for a week, 4840 for the month view and 364 for the
      quarter view. */
  lemma GridWidth(current: int, view: View)
    ensures ColumnWidth(view) * |Columns(view, ViewRange(current, view))|
      == match view case Week => 560 case Month => 4840 case Quarter => 364
  {
    ColumnCounts(current, view);
  }

  // ----- placing tasks -----

  /** A task's due day and optional end day. */
  datatype TaskDates = TaskDates(due: int, endDate: Option<int>)

  datatype Bar = Bar(
    startOffset: int, endOffset: int, duration: int, isVisible: bool,
    taskStart: int, taskEnd: int, isMilestone: bool)

  function TaskEnd(t: TaskDates): int {
    if t.endDate.Some? then t.endDate.value else t.due
  }

  /** The task's days meet the range. */
  predicate Overlaps(t: TaskDates, r: Range) {
    t.due <= r.end && TaskEnd(t) >= r.start
  }

  /** The placement as written: offsets counted in days from the range start,
      whatever the view's columns are. */
  function PlaceInDays(t: TaskDates, r: Range, columns: int): (b: Bar)
    ensures b.startOffset >= 0
    ensures b.endOffset <= columns - 1
    ensures b.duration >= 1
    ensures b.isVisible <==> Overlaps(t, r)
    ensures b.isMilestone <==> b.taskEnd == b.taskStart
    ensures b.startOffset == Max(0, t.due - r.start)
  {
    var taskStart, taskEnd := t.due, TaskEnd(t);
    var startOffset := Max(0, taskStart - r.start);
    var endOffset := Min(columns - 1, taskEnd - r.start);
    Bar(startOffset, endOffset, Max(1, endOffset - startOffset + 1), Overlaps(t, r),
      taskStart, taskEnd, taskStart == taskEnd)
  }

  /** The days one column stands for. */
  function ColumnDays(view: View): (n: int)
    ensures n > 0
  {
    if view == Quarter then 7 else 1
  }

  /** The placement with offsets counted in the view's columns. */
  function Place(t: TaskDates, view: View, r: Range, columns: int): (b: Bar)
    ensures b.startOffset >= 0
    ensures b.endOffset <= columns - 1
    ensures b.duration >= 1
    ensures b.isVisible <==> Overlaps(t, r)
    ensures b.isMilestone <==> b.taskEnd == b.taskStart
    ensures t.endDate.None? ==> b.isMilestone
  {
    var taskStart, taskEnd := t.due, TaskEnd(t);
    var unit := ColumnDays(view);
    var startOffset := Max(0, (taskStart - r.start) / unit);
    var endOffset := Min(columns - 1, (taskEnd - r.start) / unit);
    Bar(startOffset, endOffset, Max(1, endOffset - startOffset + 1), Overlaps(t, r),
      taskStart, taskEnd, taskStart == taskEnd)
  }

  /** In the day-column views the placement is exactly the one written in days. */
  lemma DayViewsPlaceInDays(t: TaskDates, view: View, r: Range, columns: int)
    requires view != Quarter
    ensures Place(t, view, r, columns) == PlaceInDays(t, r, columns)
  {
  }

  /** A visible task's bar starts inside the grid in every view. */
  lemma VisibleStartsInGrid(t: TaskDates, current: int, view: View)
    requires Overlaps(t, ViewRange(current, view))
    ensures var r := ViewRange(current, view);
      Place(t, view, r, |Columns(view, r)|).startOffset <= |Columns(view, r)| - 1
  {
    ColumnCounts(current, view);
    var r := ViewRange(current, view);
    if view == Quarter {
      assert t.due - r.start <= 90;
      assert (t.due - r.start) / 7 <= 12;
    }
  }

  /** Written in days, a task due 30 days into the quarter view is visible yet its
      bar starts at column 30 of 13. */
  lemma QuarterDayOffsetOutsideGrid(current: int)
    ensures var r := ViewRange(current, Quarter);
      var b := PlaceInDays(TaskDates(r.start + 30, None), r, |Columns(Quarter, r)|);
      b.isVisible && b.startOffset == 30 && b.startOffset > |Columns(Quarter, r)| - 1
  {
    ColumnCounts(current, Quarter);
  }

  /** `processedTasks` as written: place every task in days and keep the visible
      ones, in order. */
  function ProcessTasksAsWritten(data: seq<TaskDates>, r: Range, columns: int): (bars: seq<Bar>)
    ensures |bars| <= |data|
    ensures forall b :: b in bars ==> b.isVisible && exists t :: t in data && b == PlaceInDays(t, r, columns)
    ensures forall t :: t in data && Overlaps(t, r) ==> PlaceInDays(t, r, columns) in bars
  {
    if data == [] then []
    else
      var rest := ProcessTasksAsWritten(data[1..], r, columns);
      assert forall t :: t in data <==> t == data[0] || t in data[1..];
      var b := PlaceInDays(data[0], r, columns);
      if b.isVisible then [b] + rest else rest
  }

  /** The corrected `processedTasks`: place every task in the view's columns and keep
      the visible ones, in order. */
  function ProcessTasks(data: seq<TaskDates>, view: View, r: Range, columns: int): (bars: seq<Bar>)
    ensures |bars| <= |data|
    ensures forall b :: b in bars ==> b.isVisible && exists t :: t in data && b == Place(t, view, r, columns)
    ensures forall t :: t in data && Overlaps(t, r) ==> Place(t, view, r, columns) in bars
  {
    if data == [] then []
    else
      var rest := ProcessTasks(data[1..], view, r, columns);
      assert forall t :: t in data <==> t == data[0] || t in data[1..];
      var b := Place(data[0], view, r, columns);
      if b.isVisible then [b] + rest else rest
  }

  /** Processing distributes over concatenation, so bars keep the tasks' order. */
  lemma {:induction false} ProcessAppend(a: seq<TaskDates>, b: seq<TaskDates>, view: View, r: Range, columns: int)
    ensures ProcessTasks(a + b, view, r, columns) == ProcessTasks(a, view, r, columns) + ProcessTasks(b, view, r, columns)
  {
    if a == [] {
      assert a + b == b;
    } else {
      assert (a + b)[1..] == a[1..] + b;
      ProcessAppend(a[1..], b, view, r, columns);
      var p := Place(a[0], view, r, columns);
      if p.isVisible {
        AppendAssoc([p], ProcessTasks(a[1..], view, r, columns), ProcessTasks(b, view, r, columns));
      }
    }
  }

  /** In the week and month views the corrected processing gives exactly the bars
      the code as written gives. */
  lemma {:induction false} ProcessDayViews(data: seq<TaskDates>, view: View, r: Range, columns: int)
    requires view != Quarter
    ensures ProcessTasks(data, view, r, columns) == ProcessTasksAsWritten(data, r, columns)
  {
    if data != [] {
      ProcessDayViews(data[1..], view, r, columns);
      DayViewsPlaceInDays(data[0], view, r, columns);
    }
  }

  // ----- navigation -----

  datatype Direction = Prev | Next

  function StepDays(view: View): int {
    match view case Week => 7 case Month => 30 case Quarter => 90
  }

  function Navigate(current: int, view: View, dir: Direction): (r: int)
    ensures dir == Next ==> r - current == StepDays(view)
    ensures dir == Prev ==> current - r == StepDays(view)
  {
    if dir == Prev then current - StepDays(view) else current + StepDays(view)
  }

  /** Going back and then forward returns to the same day, and the other way round. */
  lemma NavigateInverse(current: int, view: View)
    ensures Navigate(Navigate(current, view, Prev), view, Next) == current
    ensures Navigate(Navigate(current, view, Next), view, Prev) == current
  {
  }

  /** The timeline's state: the day it is centred on and the view. */
  class TimelineState {
    var currentDate: int
    var view: View

    constructor(today: int)
      ensures currentDate == today && view == Month
    {
      currentDate := today;
      view := Month;
    }

    method Step(dir: Direction)
      modifies this
      ensures currentDate == Navigate(old(currentDate), old(view), dir) && view == old(view)
    {
      currentDate := Navigate(currentDate, view, dir);
    }

    method GoToToday(today: int)
      modifies this
      ensures currentDate == today && view == old(view)
    {
      currentDate := today;
    }

    method SetView(v: View)
      modifies this
      ensures view == v && currentDate == old(currentDate)
    {
      view := v;
    }
  }
}
