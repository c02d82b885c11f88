/** The time-tracking hook's local state (src/hooks/useTimeTracker.ts): the
    list of projects with their tasks and the list of activities, the
    reducers that `setProjects`/`setActivities` apply to them when no user
    is signed in, and the timesheet and summary read-outs computed from
    them. */
module TimeTracker {
  import opened Text
  import opened Lists
  import opened StableSort
  import opened Activities
  import opened TimeUtils
  import Productivity

  datatype SubTask = SubTask(id: string, taskId: string, name: string)

  datatype Task = Task(id: string, projectId: string, name: string, subtasks: seq<SubTask>)

  /** An absent colour is the empty string; an absent hourly rate is `None`. */
  datatype Project = Project(
    id: string,
    name: string,
    color: string,
    hourlyRate: Option<real>,
    tasks: seq<Task>,
    createdAt: int,
    isArchived: bool)

  /** The two lists the hook keeps in React state. */
  datatype Store = Store(projects: seq<Project>, activities: seq<Activity>)

  function ProjectId(p: Project): string { p.id }
  function TaskId(t: Task): string { t.id }

  // ---------------------------------------------------------------------
  // Booking activities to projects and tasks

  /** An activity stripped of its project, task and subtask, and no longer
      coded; nothing else about it changes. */
  function Uncoded(a: Activity): (r: Activity)
    ensures !r.isCoded && r.projectId.None? && r.taskId.None? && r.subtaskId.None?
    ensures r.(projectId := a.projectId, taskId := a.taskId, subtaskId := a.subtaskId, isCoded := a.isCoded) == a
  {
    a.(projectId := None, taskId := None, subtaskId := None, isCoded := false)
  }

  /** `codeActivity`: the activity with id `activityId` is booked to the
      given project, task and subtask. */
  function CodeActivity(acts: seq<Activity>, activityId: string, projectId: string, taskId: string,
                        subtaskId: Option<string>): (r: seq<Activity>)
    ensures |r| == |acts|
    ensures forall i :: 0 <= i < |acts| && acts[i].id != activityId ==> r[i] == acts[i]
    ensures forall i :: 0 <= i < |acts| && acts[i].id == activityId ==>
      r[i] == acts[i].(projectId := Some(projectId), taskId := Some(taskId), subtaskId := subtaskId, isCoded := true)
  {
    seq(|acts|, i requires 0 <= i < |acts| =>
      if acts[i].id == activityId
      then acts[i].(projectId := Some(projectId), taskId := Some(taskId), subtaskId := subtaskId, isCoded := true)
      else acts[i])
  }

  /** `uncodeActivity`. */
  function UncodeActivity(acts: seq<Activity>, activityId: string): (r: seq<Activity>)
    ensures |r| == |acts|
    ensures forall i :: 0 <= i < |acts| && acts[i].id != activityId ==> r[i] == acts[i]
    ensures forall i :: 0 <= i < |acts| && acts[i].id == activityId ==> r[i] == Uncoded(acts[i])
  {
    seq(|acts|, i requires 0 <= i < |acts| => if acts[i].id == activityId then Uncoded(acts[i]) else acts[i])
  }

  /** Uncoding undoes coding: the booking made by `codeActivity` leaves no
      trace once the same activity is uncoded. */
  lemma CodeThenUncode(acts: seq<Activity>, activityId: string, projectId: string, taskId: string,
                       subtaskId: Option<string>)
    ensures UncodeActivity(CodeActivity(acts, activityId, projectId, taskId, subtaskId), activityId)
         == UncodeActivity(acts, activityId)
  {
    var c := CodeActivity(acts, activityId, projectId, taskId, subtaskId);
    forall i | 0 <= i < |acts|
      ensures UncodeActivity(c, activityId)[i] == UncodeActivity(acts, activityId)[i]
    {
      assert c[i].id == acts[i].id;
    }
  }

  /** The last booking wins: coding the same activity twice is coding it
      once with the second booking. */
  lemma CodeTwice(acts: seq<Activity>, activityId: string, p1: string, t1: string, s1: Option<string>,
                  p2: string, t2: string, s2: Option<string>)
    ensures CodeActivity(CodeActivity(acts, activityId, p1, t1, s1), activityId, p2, t2, s2)
         == CodeActivity(acts, activityId, p2, t2, s2)
  {
    var c := CodeActivity(acts, activityId, p1, t1, s1);
    forall i | 0 <= i < |acts|
      ensures CodeActivity(c, activityId, p2, t2, s2)[i] == CodeActivity(acts, activityId, p2, t2, s2)[i]
    {
      assert c[i].id == acts[i].id;
    }
  }

  /** `bulkCodeActivities`: every activity whose id is listed is booked to
      the project and task; unlike `codeActivity` it keeps the subtask. */
  function BulkCodeActivities(acts: seq<Activity>, activityIds: seq<string>, projectId: string,
                              taskId: string): (r: seq<Activity>)
    ensures |r| == |acts|
    ensures forall i :: 0 <= i < |acts| && acts[i].id !in activityIds ==> r[i] == acts[i]
    ensures forall i :: 0 <= i < |acts| && acts[i].id in activityIds ==>
      r[i] == acts[i].(projectId := Some(projectId), taskId := Some(taskId), isCoded := true)
  {
    seq(|acts|, i requires 0 <= i < |acts| =>
      if acts[i].id in activityIds
      then acts[i].(projectId := Some(projectId), taskId := Some(taskId), isCoded := true)
      else acts[i])
  }

  /** Bulk coding two lists of ids is bulk coding the first list, then the
      second. */
  lemma BulkCodeSplit(acts: seq<Activity>, ids1: seq<string>, ids2: seq<string>, projectId: string,
                      taskId: string)
    ensures BulkCodeActivities(acts, ids1 + ids2, projectId, taskId)
         == BulkCodeActivities(BulkCodeActivities(acts, ids1, projectId, taskId), ids2, projectId, taskId)
  {
    var b := BulkCodeActivities(acts, ids1, projectId, taskId);
    forall i | 0 <= i < |acts|
      ensures BulkCodeActivities(acts, ids1 + ids2, projectId, taskId)[i]
           == BulkCodeActivities(b, ids2, projectId, taskId)[i]
    {
      assert b[i].id == acts[i].id;
      assert acts[i].id in ids1 + ids2 <==> acts[i].id in ids1 || acts[i].id in ids2;
    }
  }

  /** On one id, bulk coding agrees with `codeActivity` exactly when the
      activities with that id carry no subtask. */
  lemma BulkCodeOne(acts: seq<Activity>, activityId: string, projectId: string, taskId: string)
    ensures (BulkCodeActivities(acts, [activityId], projectId, taskId)
             == CodeActivity(acts, activityId, projectId, taskId, None))
        <==> forall i :: 0 <= i < |acts| && acts[i].id == activityId ==> acts[i].subtaskId.None?
  {
    var b := BulkCodeActivities(acts, [activityId], projectId, taskId);
    var c := CodeActivity(acts, activityId, projectId, taskId, None);
    if forall i :: 0 <= i < |acts| && acts[i].id == activityId ==> acts[i].subtaskId.None? {
      forall i | 0 <= i < |acts|
        ensures b[i] == c[i]
      {
        assert acts[i].id in [activityId] <==> acts[i].id == activityId;
      }
    } else {
      var i :| 0 <= i < |acts| && acts[i].id == activityId && acts[i].subtaskId.Some?;
      assert acts[i].id in [activityId];
      assert b[i].subtaskId != c[i].subtaskId;
    }
  }

  // ---------------------------------------------------------------------
  // Deleting projects, tasks and activities

  /** `deleteProject`: every project with the id goes, and every activity
      booked to it is uncoded. */
  function DeleteProject(st: Store, projectId: string): (r: Store)
    ensures r.projects == RemoveId(st.projects, ProjectId, projectId)
    ensures |r.activities| == |st.activities|
    ensures forall i :: 0 <= i < |st.activities| && st.activities[i].projectId != Some(projectId) ==>
      r.activities[i] == st.activities[i]
    ensures forall i :: 0 <= i < |st.activities| && st.activities[i].projectId == Some(projectId) ==>
      r.activities[i] == Uncoded(st.activities[i])
  {
    var acts := st.activities;
    Store(RemoveId(st.projects, ProjectId, projectId),
          seq(|acts|, i requires 0 <= i < |acts| =>
            if acts[i].projectId == Some(projectId) then Uncoded(acts[i]) else acts[i]))
  }

  /** After a project is deleted nothing refers to it: no project has its id
      and no activity is booked to it, while every activity is still there. */
  lemma DeleteProjectForgets(st: Store, projectId: string)
    ensures var r := DeleteProject(st, projectId);
      !HasId(r.projects, ProjectId, projectId)
      && (forall i :: 0 <= i < |r.activities| ==> r.activities[i].projectId != Some(projectId))
      && Ids(r.activities, ActivityId) == Ids(st.activities, ActivityId)
  {
  }

  /** Deleting a project a second time changes nothing. */
  lemma DeleteProjectIdempotent(st: Store, projectId: string)
    ensures DeleteProject(DeleteProject(st, projectId), projectId) == DeleteProject(st, projectId)
  {
    var r := DeleteProject(st, projectId);
    RemoveAbsentId(r.projects, ProjectId, projectId);
    assert DeleteProject(r, projectId).activities == r.activities;
  }

  /** An activity that loses its task but keeps its project. */
  function Untasked(a: Activity): (r: Activity)
    ensures !r.isCoded && r.taskId.None? && r.subtaskId.None? && r.projectId == a.projectId
    ensures r.(taskId := a.taskId, subtaskId := a.subtaskId, isCoded := a.isCoded) == a
  {
    a.(taskId := None, subtaskId := None, isCoded := false)
  }

  /** `deleteTask`: the task leaves the named project only, and every
      activity booked to that task id, in whichever project, is uncoded but
      keeps its project. */
  function DeleteTask(st: Store, projectId: string, taskId: string): (r: Store)
    ensures |r.projects| == |st.projects| && |r.activities| == |st.activities|
    ensures forall i :: 0 <= i < |st.projects| && st.projects[i].id != projectId ==> r.projects[i] == st.projects[i]
    ensures forall i :: 0 <= i < |st.projects| && st.projects[i].id == projectId ==>
      r.projects[i] == st.projects[i].(tasks := RemoveId(st.projects[i].tasks, TaskId, taskId))
    ensures forall i :: 0 <= i < |st.activities| && st.activities[i].taskId != Some(taskId) ==>
      r.activities[i] == st.activities[i]
    ensures forall i :: 0 <= i < |st.activities| && st.activities[i].taskId == Some(taskId) ==>
      r.activities[i] == Untasked(st.activities[i])
  {
    var ps, acts := st.projects, st.activities;
    Store(seq(|ps|, i requires 0 <= i < |ps| =>
            if ps[i].id == projectId then ps[i].(tasks := RemoveId(ps[i].tasks, TaskId, taskId)) else ps[i]),
          seq(|acts|, i requires 0 <= i < |acts| =>
            if acts[i].taskId == Some(taskId) then Untasked(acts[i]) else acts[i]))
  }

  /** After `deleteTask` no activity is booked to the task, every activity
      keeps its project, and the named project no longer lists the task. */
  lemma DeleteTaskForgets(st: Store, projectId: string, taskId: string)
    ensures var r := DeleteTask(st, projectId, taskId);
      (forall i :: 0 <= i < |r.activities| ==>
         r.activities[i].taskId != Some(taskId) && r.activities[i].projectId == st.activities[i].projectId)
      && (forall i :: 0 <= i < |r.projects| && r.projects[i].id == projectId ==>
            !HasId(r.projects[i].tasks, TaskId, taskId))
      && Ids(r.projects, ProjectId) == Ids(st.projects, ProjectId)
  {
  }

  /** `bulkDeleteActivities`: nothing happens for an empty list; otherwise
      the activities whose ids are listed go and the rest keep their
      order. */
  function BulkDeleteActivities(acts: seq<Activity>, activityIds: seq<string>): (r: seq<Activity>)
    ensures activityIds == [] ==> r == acts
    ensures forall a :: a in r <==> a in acts && a.id !in activityIds
  {
    if activityIds == [] then acts else Without(acts, activityIds)
  }

  /** `filter(a => !ids.includes(a.id))`. */
  function Without(acts: seq<Activity>, ids: seq<string>): (r: seq<Activity>)
    ensures |r| <= |acts|
    ensures forall a :: a in r <==> a in acts && a.id !in ids
  {
    if acts == [] then []
    else (if acts[0].id in ids then [] else [acts[0]]) + Without(acts[1..], ids)
  }

  /** The deletion works activity by activity and keeps the order: it
      distributes over concatenation, and keeps a single activity exactly
      when its id is not listed. */
  lemma {:induction false} WithoutSplits(a: seq<Activity>, b: seq<Activity>, ids: seq<string>)
    ensures Without(a + b, ids) == Without(a, ids) + Without(b, ids)
    ensures forall x :: Without([x], ids) == (if x.id in ids then [] else [x])
  {
    if a != [] {
      assert (a + b)[1..] == a[1..] + b;
      WithoutSplits(a[1..], b, ids);
    } else {
      assert a + b == b;
    }
    forall x ensures Without([x], ids) == (if x.id in ids then [] else [x]) {
      assert [x][1..] == [];
    }
  }

  /** `bulkDeleteActivities` keeps the order of what it keeps: with a
      non-empty id list it distributes over concatenation, and a single
      activity stays exactly when its id is not listed. */
  lemma BulkDeleteSplits(a: seq<Activity>, b: seq<Activity>, ids: seq<string>)
    ensures BulkDeleteActivities(a + b, ids) == BulkDeleteActivities(a, ids) + BulkDeleteActivities(b, ids)
    ensures forall x :: BulkDeleteActivities([x], ids) == (if x.id in ids then [] else [x])
  {
    if ids != [] {
      WithoutSplits(a, b, ids);
    }
  }

  /** `deleteActivity`: the bulk delete of a single id. */
  function DeleteActivity(acts: seq<Activity>, activityId: string): (r: seq<Activity>)
    ensures r == BulkDeleteActivities(acts, [activityId])
  {
    WithoutOne(acts, activityId);
    RemoveId(acts, ActivityId, activityId)
  }

  lemma {:induction false} WithoutOne(acts: seq<Activity>, activityId: string)
    ensures Without(acts, [activityId]) == RemoveId(acts, ActivityId, activityId)
  {
    if acts != [] {
      WithoutOne(acts[1..], activityId);
    }
  }

  /** Deleting a list of ids one more id at a time: the bulk delete of
      `ids + [x]` is the bulk delete of `ids` followed by deleting `x`. */
  lemma {:induction false} BulkDeleteSnoc(acts: seq<Activity>, ids: seq<string>, x: string)
    ensures BulkDeleteActivities(acts, ids + [x]) == DeleteActivity(BulkDeleteActivities(acts, ids), x)
  {
    if ids == [] {
      assert [] + [x] == [x];
    } else {
      WithoutSnoc(acts, ids, x);
    }
  }

  lemma {:induction false} WithoutSnoc(acts: seq<Activity>, ids: seq<string>, x: string)
    ensures Without(acts, ids + [x]) == RemoveId(Without(acts, ids), ActivityId, x)
  {
    if acts != [] {
      var a, t := acts[0], acts[1..];
      WithoutSnoc(t, ids, x);
      var w := Without(t, ids);
      assert Without(acts, ids + [x]) == (if a.id in ids + [x] then [] else [a]) + RemoveId(w, ActivityId, x);
      assert Without(acts, ids) == (if a.id in ids then [] else [a]) + w;
      if a.id in ids {
        assert a.id in ids + [x];
        assert [] + w == w;
        assert [] + RemoveId(w, ActivityId, x) == RemoveId(w, ActivityId, x);
      } else if a.id == x {
        assert a.id in ids + [x];
        assert ([a] + w)[1..] == w;
      } else {
        assert a.id !in ids + [x];
        assert ([a] + w)[1..] == w;
      }
    }
  }

  // ---------------------------------------------------------------------
  // Adding entries and projects

  const MANUAL_APP := "Manual Entry"
  const MANUAL_TITLE := "Manual time entry"

  /** `addManualEntry`: a coded, non-idle activity of `duration` seconds
      that ends `now` is put at the front. */
  function AddManualEntry(acts: seq<Activity>, id: string, now: int, projectId: string, taskId: string,
                          duration: int, description: string): (r: seq<Activity>)
    ensures |r| == |acts| + 1 && r[1..] == acts
    ensures r[0].id == id && r[0].applicationName == MANUAL_APP
    ensures r[0].windowTitle == (if description == "" then MANUAL_TITLE else description)
    ensures r[0].endTime == now && r[0].endTime - r[0].startTime == duration * 1000 && r[0].duration == duration
    ensures r[0].isCoded && !r[0].isIdle
    ensures r[0].projectId == Some(projectId) && r[0].taskId == Some(taskId) && r[0].subtaskId.None?
  {
    [Activity(id, MANUAL_APP, OrElse(description, MANUAL_TITLE), now - duration * 1000, now, duration,
              Some(projectId), Some(taskId), None, true, false)] + acts
  }

  /** A manual entry with a fresh id is undone by deleting it. */
  lemma ManualEntryRoundTrip(acts: seq<Activity>, id: string, now: int, projectId: string, taskId: string,
                             duration: int, description: string)
    requires !HasId(acts, ActivityId, id)
    ensures DeleteActivity(AddManualEntry(acts, id, now, projectId, taskId, duration, description), id) == acts
  {
    var r := AddManualEntry(acts, id, now, projectId, taskId, duration, description);
    assert r[1..] == acts;
    RemoveAbsentId(acts, ActivityId, id);
  }

  /** The colours `addProject` hands out in turn (src/utils/sampleData.ts). */
  const PROJECT_COLORS: seq<string> := [
    "#3B82F6", "#10B981", "#8B5CF6", "#F59E0B", "#EF4444", "#EC4899",
    "#06B6D4", "#84CC16", "#F97316", "#6366F1", "#14B8A6", "#A855F7"]

  /** `addProject`: a new, unarchived project without tasks goes at the
      end; without a colour of its own it takes the next colour in turn. */
  function AddProject(projects: seq<Project>, id: string, name: string, color: string,
                      hourlyRate: Option<real>, now: int): (r: seq<Project>)
    ensures |r| == |projects| + 1 && r[..|projects|] == projects
    ensures r[|projects|].id == id && r[|projects|].name == name && r[|projects|].hourlyRate == hourlyRate
    ensures r[|projects|].tasks == [] && !r[|projects|].isArchived && r[|projects|].createdAt == now
    ensures color != "" ==> r[|projects|].color == color
    ensures color == "" ==> r[|projects|].color in PROJECT_COLORS
    ensures color == "" ==> r[|projects|].color == PROJECT_COLORS[|projects| % 12]
  {
    var projectColor := OrElse(color, PROJECT_COLORS[|projects| % |PROJECT_COLORS|]);
    projects + [Project(id, name, projectColor, hourlyRate, [], now, false)]
  }

  /** The twelve colours differ, so the default colour repeats exactly every
      twelve projects. */
  lemma DefaultColorCycle(ps: seq<Project>, qs: seq<Project>, id: string, now: int)
    ensures var a := AddProject(ps, id, "", "", None, now)[|ps|].color;
            var b := AddProject(qs, id, "", "", None, now)[|qs|].color;
            a == b <==> |ps| % 12 == |qs| % 12
  {
    ColorsDistinct();
  }

  /** The place of a colour in the cycle, read off its first two hex
      digits, which already tell the twelve colours apart. */
  function ColorSlot(c: string): int {
    if |c| < 3 then -1
    else
      match (c[1], c[2])
      case ('3', 'B') => 0 case ('1', '0') => 1 case ('8', 'B') => 2 case ('F', '5') => 3
      case ('E', 'F') => 4 case ('E', 'C') => 5 case ('0', '6') => 6 case ('8', '4') => 7
      case ('F', '9') => 8 case ('6', '3') => 9 case ('1', '4') => 10 case ('A', '8') => 11
      case _ => -1
  }

  lemma ColorSlots()
    ensures forall i :: 0 <= i < |PROJECT_COLORS| ==> ColorSlot(PROJECT_COLORS[i]) == i
  {
    forall i | 0 <= i < |PROJECT_COLORS|
      ensures ColorSlot(PROJECT_COLORS[i]) == i
    {
      if i == 0 {} else if i == 1 {} else if i == 2 {} else if i == 3 {} else if i == 4 {} else if i == 5 {}
      else if i == 6 {} else if i == 7 {} else if i == 8 {} else if i == 9 {} else if i == 10 {} else {}
    }
  }

  lemma ColorsDistinct()
    ensures forall i, j :: 0 <= i < j < |PROJECT_COLORS| ==> PROJECT_COLORS[i] != PROJECT_COLORS[j]
  {
    ColorSlots();
  }

  // ---------------------------------------------------------------------
  // Sums and selections over activities

  /** `reduce((sum, a) => sum + a.duration, 0)`. */
  function Duration(acts: seq<Activity>): int {
    if acts == [] then 0 else Duration(acts[..|acts| - 1]) + acts[|acts| - 1].duration
  }

  /** `filter(p)`. */
  function Where(acts: seq<Activity>, p: Activity -> bool): (r: seq<Activity>)
    ensures |r| <= |acts|
    ensures forall a :: a in r <==> a in acts && p(a)
  {
    if acts == [] then []
    else
      var last := acts[|acts| - 1];
      Where(acts[..|acts| - 1], p) + (if p(last) then [last] else [])
  }

  /** The filter works activity by activity and keeps the order: it
      distributes over concatenation, and keeps a single activity exactly
      when it passes the test. */
  lemma {:induction false} WhereSplits(a: seq<Activity>, b: seq<Activity>, p: Activity -> bool)
    ensures Where(a + b, p) == Where(a, p) + Where(b, p)
    ensures forall x :: Where([x], p) == (if p(x) then [x] else [])
  {
    if b == [] {
      assert a + b == a;
    } else {
      var init, last := b[..|b| - 1], b[|b| - 1];
      var keep := if p(last) then [last] else [];
      var c := a + b;
      assert c == (a + init) + [last] && b == init + [last];
      WhereSplits(a, init, p);
      WhereSnoc(a + init, last, p);
      WhereSnoc(init, last, p);
      calc {
        Where(c, p);
        Where(a + init, p) + keep;
        Where(a, p) + Where(init, p) + keep;
        { SeqAssoc(Where(a, p), Where(init, p), keep); }
        Where(a, p) + (Where(init, p) + keep);
      }
    }
    forall x ensures Where([x], p) == (if p(x) then [x] else []) {
      assert [x][..0] == [];
    }
  }

  lemma WhereSnoc(s: seq<Activity>, x: Activity, p: Activity -> bool)
    ensures Where(s + [x], p) == Where(s, p) + (if p(x) then [x] else [])
  {
    assert (s + [x])[..|s|] == s;
  }

  /** Splitting a list by a test splits its total duration. */
  lemma {:induction false} DurationSplits(acts: seq<Activity>, p: Activity -> bool, q: Activity -> bool)
    requires forall a :: q(a) == !p(a)
    ensures Duration(Where(acts, p)) + Duration(Where(acts, q)) == Duration(acts)
  {
    if acts != [] {
      var init, last := acts[..|acts| - 1], acts[|acts| - 1];
      DurationSplits(init, p, q);
      var wp, wq := Where(init, p), Where(init, q);
      if p(last) {
        assert Where(acts, p) == wp + [last] && Where(acts, q) == wq;
        DurationSnoc(wp, last);
      } else {
        assert Where(acts, q) == wq + [last] && Where(acts, p) == wp;
        DurationSnoc(wq, last);
      }
    }
  }

  lemma DurationSnoc(acts: seq<Activity>, a: Activity)
    ensures Duration(acts + [a]) == Duration(acts) + a.duration
  {
    assert (acts + [a])[..|acts|] == acts;
  }

  // ---------------------------------------------------------------------
  // generateTimesheet

  datatype DayShare = DayShare(date: string, seconds: int)

  datatype TimesheetEntry = TimesheetEntry(
    projectName: string,
    projectColor: string,
    taskName: string,
    totalSeconds: int,
    dailyBreakdown: seq<DayShare>,
    percentage: int)

  /** An entry of the `grouped` dictionary, under its key. */
  datatype Group = Group(key: string, entry: TimesheetEntry)

  /** What one activity adds to the timesheet: the key `projectId-taskId`,
      the project and task found for it, its seconds and its day. */
  datatype Booking = Booking(key: string, project: Project, task: Task, seconds: int, date: string)

  function TotalSeconds(e: TimesheetEntry): int { e.totalSeconds }
  function GroupKey(g: Group): string { g.key }
  function BookingKey(b: Booking): string { b.key }
  function DayDate(d: DayShare): string { d.date }

  /** The activities the timesheet covers: the coded ones that start
      within `[start, end]`. */
  function Relevant(acts: seq<Activity>, start: int, end: int): (r: seq<Activity>)
    ensures forall a :: a in r <==> a in acts && a.isCoded && start <= a.startTime <= end
  {
    Where(acts, CodedWithin(start, end))
  }

  function CodedWithin(start: int, end: int): Activity -> bool {
    (a: Activity) => a.isCoded && start <= a.startTime <= end
  }

  /** The selection keeps the order and the repetitions of the activities:
      it distributes over concatenation, and keeps a single activity exactly
      when it is coded and starts within the range. */
  lemma RelevantSplits(a: seq<Activity>, b: seq<Activity>, start: int, end: int)
    ensures Relevant(a + b, start, end) == Relevant(a, start, end) + Relevant(b, start, end)
    ensures forall x :: Relevant([x], start, end) == (if x.isCoded && start <= x.startTime <= end then [x] else [])
  {
    WhereSplits(a, b, CodedWithin(start, end));
  }

  /** The booking of an activity: none unless the first project with its
      project id lists a task with its task id. `dayKey` is the calendar
      date of a time stamp. */
  function BookingOf(a: Activity, projects: seq<Project>, dayKey: int -> string): (r: Option<Booking>)
    ensures a.projectId.None? || a.taskId.None? || !HasId(projects, ProjectId, a.projectId.value) ==> r.None?
    ensures r.Some? ==>
      && r.value.key == a.projectId.value + "-" + a.taskId.value
      && r.value.project in projects && r.value.project.id == a.projectId.value
      && r.value.task in r.value.project.tasks && r.value.task.id == a.taskId.value
      && r.value.seconds == a.duration && r.value.date == dayKey(a.startTime)
    ensures r.Some? <==>
      && a.projectId.Some? && a.taskId.Some? && HasId(projects, ProjectId, a.projectId.value)
      && HasId(projects[FindIndex(projects, ProjectId, a.projectId.value)].tasks, TaskId, a.taskId.value)
    ensures r.Some? ==>
      && r.value.project == projects[FindIndex(projects, ProjectId, a.projectId.value)]
      && r.value.task == r.value.project.tasks[FindIndex(r.value.project.tasks, TaskId, a.taskId.value)]
  {
    if a.projectId.None? || a.taskId.None? then None
    else
      match Find(projects, ProjectId, a.projectId.value)
      case None => None
      case Some(p) =>
        match Find(p.tasks, TaskId, a.taskId.value)
        case None => None
        case Some(t) => Some(Booking(a.projectId.value + "-" + a.taskId.value, p, t, a.duration, dayKey(a.startTime)))
  }

  /** The bookings of the activities whose project and task are known. */
  function Bookings(acts: seq<Activity>, projects: seq<Project>, dayKey: int -> string): (r: seq<Booking>)
    ensures |r| <= |acts|
    ensures forall b :: b in r ==> exists a :: a in acts && BookingOf(a, projects, dayKey) == Some(b)
  {
    if acts == [] then []
    else
      var init, last := acts[..|acts| - 1], acts[|acts| - 1];
      match BookingOf(last, projects, dayKey)
      case None => Bookings(init, projects, dayKey)
      case Some(b) => Bookings(init, projects, dayKey) + [b]
  }

  /** The bookings follow the activities in order: they distribute over
      concatenation, and a single activity gives its booking, if any. */
  lemma {:induction false} BookingsSplits(a: seq<Activity>, b: seq<Activity>, projects: seq<Project>,
                                          dayKey: int -> string)
    ensures Bookings(a + b, projects, dayKey) == Bookings(a, projects, dayKey) + Bookings(b, projects, dayKey)
    ensures forall x :: Bookings([x], projects, dayKey) == Booked1(x, projects, dayKey)
  {
    if b == [] {
      assert a + b == a;
    } else {
      var init, last := b[..|b| - 1], b[|b| - 1];
      assert a + b == (a + init) + [last] && b == init + [last];
      BookingsSplits(a, init, projects, dayKey);
      BookingsAppend(a + init, last, projects, dayKey);
      BookingsAppend(init, last, projects, dayKey);
      var k := Booked1(last, projects, dayKey);
      SeqAssoc(Bookings(a, projects, dayKey), Bookings(init, projects, dayKey), k);
    }
    forall x ensures Bookings([x], projects, dayKey) == Booked1(x, projects, dayKey) {
      BookingsAppend([], x, projects, dayKey);
      assert [] + [x] == [x];
    }
  }

  /** The booking of one activity as a list: empty when it has none. */
  function Booked1(x: Activity, projects: seq<Project>, dayKey: int -> string): seq<Booking> {
    match BookingOf(x, projects, dayKey)
    case None => []
    case Some(b) => [b]
  }

  lemma BookingsAppend(s: seq<Activity>, x: Activity, projects: seq<Project>, dayKey: int -> string)
    ensures Bookings(s + [x], projects, dayKey) == Bookings(s, projects, dayKey) + Booked1(x, projects, dayKey)
  {
    assert (s + [x])[..|s|] == s;
  }

  /** The zeroed breakdown a new entry starts with, one day per date. */
  function Blank(dates: seq<string>): (r: seq<DayShare>)
    ensures Ids(r, DayDate) == dates
    ensures forall j :: 0 <= j < |r| ==> r[j].seconds == 0
  {
    seq(|dates|, j requires 0 <= j < |dates| => DayShare(dates[j], 0))
  }

  /** The position of a date among the days of the report, or -1. */
  function DayOf(dates: seq<string>, date: string): int {
    FindIndex(Blank(dates), DayDate, date)
  }

  /** A new entry for the booking's project and task. */
  function Fresh(b: Booking, dates: seq<string>): TimesheetEntry {
    TimesheetEntry(b.project.name, b.project.color, b.task.name, 0, Blank(dates), 0)
  }

  /** `seconds` more on the entry, and on the first day with `date`. */
  function Credit(e: TimesheetEntry, seconds: int, date: string): TimesheetEntry {
    var daily := e.dailyBreakdown;
    var j := FindIndex(daily, DayDate, date);
    e.(totalSeconds := e.totalSeconds + seconds,
       dailyBreakdown := if j < 0 then daily else daily[j := daily[j].(seconds := daily[j].seconds + seconds)])
  }

  /** One turn of the `forEach` over the bookings. */
  function Book(g: seq<Group>, b: Booking, dates: seq<string>): seq<Group> {
    var k := FindIndex(g, GroupKey, b.key);
    if k < 0 then g + [Group(b.key, Credit(Fresh(b, dates), b.seconds, b.date))]
    else g[k := Group(b.key, Credit(g[k].entry, b.seconds, b.date))]
  }

  /** The `grouped` dictionary after all the bookings, in key order of
      first appearance. */
  function GroupAll(bs: seq<Booking>, dates: seq<string>): seq<Group> {
    if bs == [] then [] else Book(GroupAll(bs[..|bs| - 1], dates), bs[|bs| - 1], dates)
  }

  /** The seconds booked under `key`. */
  function SecondsFor(bs: seq<Booking>, key: string): int {
    if bs == [] then 0
    else
      var last := bs[|bs| - 1];
      SecondsFor(bs[..|bs| - 1], key) + (if last.key == key then last.seconds else 0)
  }

  /** The seconds booked under `key` whose date is the `j`th day. */
  function DaySecondsFor(bs: seq<Booking>, key: string, dates: seq<string>, j: int): int {
    if bs == [] then 0
    else
      var last := bs[|bs| - 1];
      DaySecondsFor(bs[..|bs| - 1], key, dates, j)
        + (if last.key == key && DayOf(dates, last.date) == j then last.seconds else 0)
  }

  /** The first booking under `key`; its project and task name the entry. */
  function FirstBooking(bs: seq<Booking>, key: string): Booking
    requires key in Ids(bs, BookingKey)
  {
    var init := bs[..|bs| - 1];
    assert Ids(bs, BookingKey) == Ids(init, BookingKey) + [bs[|bs| - 1].key];
    if key in Ids(init, BookingKey) then FirstBooking(init, key) else bs[|bs| - 1]
  }

  lemma {:induction false} NoSecondsFor(bs: seq<Booking>, key: string, dates: seq<string>)
    requires key !in Ids(bs, BookingKey)
    ensures SecondsFor(bs, key) == 0
    ensures forall j :: DaySecondsFor(bs, key, dates, j) == 0
  {
    if bs != [] {
      var init := bs[..|bs| - 1];
      assert Ids(bs, BookingKey) == Ids(init, BookingKey) + [bs[|bs| - 1].key];
      NoSecondsFor(init, key, dates);
    }
  }

  /** The dictionary has one entry per booked key, and no other. */
  lemma {:induction false} GroupAllKeys(bs: seq<Booking>, dates: seq<string>)
    ensures DistinctIds(GroupAll(bs, dates), GroupKey)
    ensures forall key :: HasId(GroupAll(bs, dates), GroupKey, key) <==> key in Ids(bs, BookingKey)
  {
    if bs != [] {
      var init, b := bs[..|bs| - 1], bs[|bs| - 1];
      GroupAllKeys(init, dates);
      assert Ids(bs, BookingKey) == Ids(init, BookingKey) + [b.key];
      var g := GroupAll(init, dates);
      var k := FindIndex(g, GroupKey, b.key);
      if k < 0 {
        AppendId(g, Group(b.key, Credit(Fresh(b, dates), b.seconds, b.date)), GroupKey);
      } else {
        ReplaceKeepsIds(g, k, Group(b.key, Credit(g[k].entry, b.seconds, b.date)), GroupKey);
      }
    }
  }

  /** What an entry of the dictionary holds: the names of the first
      booking under its key, one day per date, and the seconds booked under
      its key in total and on each day. */
  ghost predicate Describes(bs: seq<Booking>, dates: seq<string>, gr: Group) {
    var e := gr.entry;
    && gr.key in Ids(bs, BookingKey)
    && e.projectName == FirstBooking(bs, gr.key).project.name
    && e.projectColor == FirstBooking(bs, gr.key).project.color
    && e.taskName == FirstBooking(bs, gr.key).task.name
    && Ids(e.dailyBreakdown, DayDate) == dates
    && e.totalSeconds == SecondsFor(bs, gr.key)
    && (forall j :: 0 <= j < |dates| ==> e.dailyBreakdown[j].seconds == DaySecondsFor(bs, gr.key, dates, j))
    && e.percentage == 0
  }

  /** Crediting a booking adds its seconds to the total and to the day of
      its date, and to nothing else. */
  lemma CreditDays(e: TimesheetEntry, seconds: int, date: string, dates: seq<string>)
    requires Ids(e.dailyBreakdown, DayDate) == dates
    ensures var c := Credit(e, seconds, date);
      && c.(totalSeconds := e.totalSeconds, dailyBreakdown := e.dailyBreakdown) == e
      && c.totalSeconds == e.totalSeconds + seconds
      && Ids(c.dailyBreakdown, DayDate) == dates
      && forall j :: 0 <= j < |dates| ==>
           c.dailyBreakdown[j].seconds == e.dailyBreakdown[j].seconds + (if DayOf(dates, date) == j then seconds else 0)
  {
    FindIndexSameIds(e.dailyBreakdown, DayDate, Blank(dates), DayDate, date);
    var c := Credit(e, seconds, date);
    assert Ids(c.dailyBreakdown, DayDate) == Ids(e.dailyBreakdown, DayDate);
  }

  /** Entries with other keys than the new booking's still describe the
      longer list of bookings. */
  lemma DescribesOther(init: seq<Booking>, b: Booking, dates: seq<string>, gr: Group)
    requires Describes(init, dates, gr) && gr.key != b.key
    ensures Describes(init + [b], dates, gr)
  {
    var bs := init + [b];
    assert bs[..|bs| - 1] == init;
    assert Ids(bs, BookingKey) == Ids(init, BookingKey) + [b.key];
  }

  /** The entry the new booking is credited to describes the longer list. */
  lemma DescribesCredited(init: seq<Booking>, b: Booking, dates: seq<string>, e: TimesheetEntry)
    requires b.key in Ids(init, BookingKey) ==> Describes(init, dates, Group(b.key, e))
    requires b.key !in Ids(init, BookingKey) ==> e == Fresh(b, dates)
    ensures Describes(init + [b], dates, Group(b.key, Credit(e, b.seconds, b.date)))
  {
    var bs := init + [b];
    assert bs[..|bs| - 1] == init;
    assert Ids(bs, BookingKey) == Ids(init, BookingKey) + [b.key];
    CreditDays(e, b.seconds, b.date, dates);
    if b.key !in Ids(init, BookingKey) {
      NoSecondsFor(init, b.key, dates);
    }
  }

  /** Every entry of the dictionary describes the bookings under its key. */
  lemma {:induction false} GroupAllEntries(bs: seq<Booking>, dates: seq<string>)
    ensures forall i :: 0 <= i < |GroupAll(bs, dates)| ==> Describes(bs, dates, GroupAll(bs, dates)[i])
  {
    if bs != [] {
      var init, b := bs[..|bs| - 1], bs[|bs| - 1];
      assert init + [b] == bs;
      GroupAllEntries(init, dates);
      GroupAllKeys(init, dates);
      var g := GroupAll(init, dates);
      var k := FindIndex(g, GroupKey, b.key);
      var r := GroupAll(bs, dates);
      if k < 0 {
        DescribesCredited(init, b, dates, Fresh(b, dates));
        forall i | 0 <= i < |g|
          ensures Describes(bs, dates, r[i])
        {
          DescribesOther(init, b, dates, g[i]);
        }
      } else {
        DescribesCredited(init, b, dates, g[k].entry);
        forall i | 0 <= i < |g| && i != k
          ensures Describes(bs, dates, r[i])
        {
          DescribesOther(init, b, dates, g[i]);
        }
      }
    }
  }

  /** Each entry's share of the coded time in range, in percent. */
  function Finish(g: seq<Group>, total: int): (r: seq<TimesheetEntry>)
    ensures |r| == |g|
    ensures forall i :: 0 <= i < |g| ==>
      r[i] == g[i].entry.(percentage := Productivity.Percentage(g[i].entry.totalSeconds, total))
  {
    seq(|g|, i requires 0 <= i < |g| =>
      g[i].entry.(percentage := Productivity.Percentage(g[i].entry.totalSeconds, total)))
  }

  /** The day starts `getDaysBetween(start, end)` lists. */
  function DayStarts(start: int, end: int): (r: seq<int>)
    ensures forall i :: 0 <= i < |r| ==> r[i] == start + i * DAY_MS
  {
    var n := if start > end then 0 else (end - start) / DAY_MS + 1;
    seq(n, i requires 0 <= i < n => start + i * DAY_MS)
  }

  /** The date strings of the days. */
  function DayKeys(days: seq<int>, dayKey: int -> string): (r: seq<string>)
    ensures |r| == |days| && forall j :: 0 <= j < |days| ==> r[j] == dayKey(days[j])
  {
    seq(|days|, j requires 0 <= j < |days| => dayKey(days[j]))
  }

  /** The timesheet report's bookings and dictionary, for the record. */
  function ReportBookings(acts: seq<Activity>, projects: seq<Project>, start: int, end: int,
                          dayKey: int -> string): seq<Booking>
  {
    Bookings(Relevant(acts, start, end), projects, dayKey)
  }

  function ReportGroups(acts: seq<Activity>, projects: seq<Project>, start: int, end: int,
                        dayKey: int -> string): seq<Group>
  {
    GroupAll(ReportBookings(acts, projects, start, end, dayKey), DayKeys(DayStarts(start, end), dayKey))
  }

  /** The body of the `forEach`: the entry under the booking's key is
      created when missing, then its total and the seconds of the first day
      with the booking's date grow by the booking's seconds. */
  method BookInPlace(grouped: seq<Group>, b: Booking, dates: seq<string>) returns (r: seq<Group>)
    ensures r == Book(grouped, b, dates)
  {
    r := grouped;
    var k := FindIndex(r, GroupKey, b.key);
    ghost var found := k >= 0;
    if k < 0 {
      r := r + [Group(b.key, Fresh(b, dates))];
      k := |r| - 1;
    }
    var e := r[k].entry;
    var daily := e.dailyBreakdown;
    var j := FindIndex(daily, DayDate, b.date);
    if j >= 0 {
      daily := daily[j := daily[j].(seconds := daily[j].seconds + b.seconds)];
    }
    var credited := e.(totalSeconds := e.totalSeconds + b.seconds, dailyBreakdown := daily);
    assert credited == Credit(e, b.seconds, b.date);
    r := r[k := Group(b.key, credited)];
    if !found {
      assert r == grouped + [Group(b.key, Credit(Fresh(b, dates), b.seconds, b.date))];
    }
  }

  lemma BookingsSnoc(acts: seq<Activity>, i: int, projects: seq<Project>, dayKey: int -> string)
    requires 0 <= i < |acts|
    ensures BookingOf(acts[i], projects, dayKey).None? ==>
      Bookings(acts[..i + 1], projects, dayKey) == Bookings(acts[..i], projects, dayKey)
    ensures BookingOf(acts[i], projects, dayKey).Some? ==>
      Bookings(acts[..i + 1], projects, dayKey)
        == Bookings(acts[..i], projects, dayKey) + [BookingOf(acts[i], projects, dayKey).value]
  {
    assert acts[..i + 1][..i] == acts[..i];
  }

  lemma GroupAllSnoc(bs: seq<Booking>, b: Booking, dates: seq<string>)
    ensures GroupAll(bs + [b], dates) == Book(GroupAll(bs, dates), b, dates)
  {
    assert (bs + [b])[..|bs|] == bs;
  }

  lemma DaysAreDayStarts(start: int, end: int, days: seq<int>)
    requires start > end ==> days == []
    requires start <= end ==> |days| == (end - start) / DAY_MS + 1
    requires forall i :: 0 <= i < |days| ==> days[i] == start + i * DAY_MS
    ensures days == DayStarts(start, end)
  {
  }

  /** `generateTimesheet` for the period from `start` to `end`: the
      dictionary's entries with their percentages, largest total first,
      entries with equal totals in dictionary order. */
  method GenerateTimesheet(acts: seq<Activity>, projects: seq<Project>, start: int, end: int,
                           dayKey: int -> string) returns (entries: seq<TimesheetEntry>)
    ensures var finished := Finish(ReportGroups(acts, projects, start, end, dayKey), Duration(Relevant(acts, start, end)));
      && SortedDesc(entries, TotalSeconds)
      && multiset(entries) == multiset(finished)
      && forall k :: WithKey(entries, TotalSeconds, k) == WithKey(finished, TotalSeconds, k)
  {
    var days := DaysBetween(start, end);
    DaysAreDayStarts(start, end, days);
    var dates := DayKeys(days, dayKey);
    var relevant := Relevant(acts, start, end);
    var totalSeconds := Duration(relevant);
    var grouped: seq<Group> := [];
    for i := 0 to |relevant|
      invariant grouped == GroupAll(Bookings(relevant[..i], projects, dayKey), dates)
    {
      BookingsSnoc(relevant, i, projects, dayKey);
      var found := BookingOf(relevant[i], projects, dayKey);
      if found.Some? {
        GroupAllSnoc(Bookings(relevant[..i], projects, dayKey), found.value, dates);
        grouped := BookInPlace(grouped, found.value, dates);
      }
    }
    assert relevant[..|relevant|] == relevant;
    var finished := Finish(grouped, totalSeconds);
    entries := SortDesc(finished, TotalSeconds);
    SortedReport(finished);
  }

  /** `sort((a, b) => b.totalSeconds - a.totalSeconds)`, a stable sort. */
  lemma SortedReport(finished: seq<TimesheetEntry>)
    ensures var entries := SortDesc(finished, TotalSeconds);
      && SortedDesc(entries, TotalSeconds)
      && multiset(entries) == multiset(finished)
      && forall k :: WithKey(entries, TotalSeconds, k) == WithKey(finished, TotalSeconds, k)
  {
    SortDescSorted(finished, TotalSeconds);
    SortDescPermutes(finished, TotalSeconds);
    forall k
      ensures WithKey(SortDesc(finished, TotalSeconds), TotalSeconds, k) == WithKey(finished, TotalSeconds, k)
    {
      SortDescStable(finished, TotalSeconds, k);
    }
  }

  /** The seconds of all the bookings. */
  function Booked(bs: seq<Booking>): int {
    if bs == [] then 0 else Booked(bs[..|bs| - 1]) + bs[|bs| - 1].seconds
  }

  lemma {:induction false} SecondsForBounds(bs: seq<Booking>, key: string)
    requires forall b :: b in bs ==> b.seconds >= 0
    ensures 0 <= SecondsFor(bs, key) <= Booked(bs)
  {
    if bs != [] {
      SecondsForBounds(bs[..|bs| - 1], key);
    }
  }

  /** Only coded activities in range with a known project and task are
      booked, so with no negative durations the bookings stay within the
      total the percentages divide by. */
  lemma {:induction false} BookedWithin(acts: seq<Activity>, projects: seq<Project>, dayKey: int -> string)
    requires forall i :: 0 <= i < |acts| ==> acts[i].duration >= 0
    ensures 0 <= Booked(Bookings(acts, projects, dayKey)) <= Duration(acts)
    ensures forall b :: b in Bookings(acts, projects, dayKey) ==> b.seconds >= 0
  {
    if acts != [] {
      var init := acts[..|acts| - 1];
      BookedWithin(init, projects, dayKey);
      var bs := Bookings(init, projects, dayKey);
      match BookingOf(acts[|acts| - 1], projects, dayKey)
      case None =>
      case Some(b) =>
        assert (bs + [b])[..|bs|] == bs;
    }
  }

  /** With no negative seconds each entry's total lies between 0 and the
      seconds of all the bookings. */
  lemma GroupTotalsWithin(bs: seq<Booking>, dates: seq<string>)
    requires forall b :: b in bs ==> b.seconds >= 0
    ensures forall i :: 0 <= i < |GroupAll(bs, dates)| ==>
      0 <= GroupAll(bs, dates)[i].entry.totalSeconds <= Booked(bs)
  {
    var g := GroupAll(bs, dates);
    GroupAllEntries(bs, dates);
    forall i | 0 <= i < |g|
      ensures 0 <= g[i].entry.totalSeconds <= Booked(bs)
    {
      assert Describes(bs, dates, g[i]);
      SecondsForBounds(bs, g[i].key);
    }
  }

  /** With no negative durations every percentage of the timesheet lies
      between 0 and 100; with no coded time in range every one is 0. */
  lemma TimesheetPercentages(acts: seq<Activity>, projects: seq<Project>, start: int, end: int,
                             dayKey: int -> string)
    requires forall i :: 0 <= i < |acts| ==> acts[i].duration >= 0
    ensures var relevant := Relevant(acts, start, end);
            var finished := Finish(ReportGroups(acts, projects, start, end, dayKey), Duration(relevant));
      && (forall e :: e in finished ==> 0 <= e.percentage <= 100)
      && (Duration(relevant) == 0 ==> forall e :: e in finished ==> e.percentage == 0)
  {
    var relevant := Relevant(acts, start, end);
    var bs := ReportBookings(acts, projects, start, end, dayKey);
    var g := ReportGroups(acts, projects, start, end, dayKey);
    var finished := Finish(g, Duration(relevant));
    forall i | 0 <= i < |relevant|
      ensures relevant[i].duration >= 0
    {
      assert relevant[i] in acts;
    }
    BookedWithin(relevant, projects, dayKey);
    GroupTotalsWithin(bs, DayKeys(DayStarts(start, end), dayKey));
    forall e | e in finished
      ensures 0 <= e.percentage <= 100
    {
      var i :| 0 <= i < |finished| && finished[i] == e;
      assert 0 <= g[i].entry.totalSeconds <= Duration(relevant);
    }
  }

  // ---------------------------------------------------------------------
  // getSummaryStats

  /** The moments the summary compares start times with: now, the start of
      today and of tomorrow, and the moments seven and thirty calendar days
      before now that `isWithinDays` reaches back to. */
  datatype Calendar = Calendar(now: int, todayStart: int, tomorrowStart: int, weekAgo: int, monthAgo: int)

  datatype SummaryStats = SummaryStats(
    todayTotal: int,
    todayCoded: int,
    todayUncoded: int,
    weekTotal: int,
    uncodedCount: nat,
    uncodedTotal: int,
    projectCount: nat)

  function IsCoded(a: Activity): bool { a.isCoded }
  function IsUncoded(a: Activity): bool { !a.isCoded }

  /** `getTodayActivities`. */
  function TodayActivities(acts: seq<Activity>, cal: Calendar): (r: seq<Activity>)
    ensures forall a :: a in r <==> a in acts && cal.todayStart <= a.startTime < cal.tomorrowStart
  {
    Where(acts, OnToday(cal))
  }

  function OnToday(cal: Calendar): Activity -> bool {
    (a: Activity) => cal.todayStart <= a.startTime < cal.tomorrowStart
  }

  /** `getUncodedActivities`: the uncoded activities of the last thirty days. */
  function UncodedActivities(acts: seq<Activity>, cal: Calendar): (r: seq<Activity>)
    ensures forall a :: a in r <==> a in acts && !a.isCoded && cal.monthAgo <= a.startTime <= cal.now
  {
    Where(acts, RecentUncoded(cal))
  }

  function RecentUncoded(cal: Calendar): Activity -> bool {
    (a: Activity) => !a.isCoded && cal.monthAgo <= a.startTime <= cal.now
  }

  /** `isWithinDays(a.startTime, 7)`. */
  function InLastWeek(cal: Calendar): Activity -> bool {
    (a: Activity) => cal.weekAgo <= a.startTime <= cal.now
  }

  /** Both read-outs keep the order and the repetitions of the activities:
      each distributes over concatenation, and keeps a single activity
      exactly when it passes its test. */
  lemma ReadOutsSplit(a: seq<Activity>, b: seq<Activity>, cal: Calendar)
    ensures TodayActivities(a + b, cal) == TodayActivities(a, cal) + TodayActivities(b, cal)
    ensures UncodedActivities(a + b, cal) == UncodedActivities(a, cal) + UncodedActivities(b, cal)
    ensures forall x ::
      TodayActivities([x], cal) == (if cal.todayStart <= x.startTime < cal.tomorrowStart then [x] else [])
    ensures forall x ::
      UncodedActivities([x], cal) == (if !x.isCoded && cal.monthAgo <= x.startTime <= cal.now then [x] else [])
  {
    WhereSplits(a, b, OnToday(cal));
    WhereSplits(a, b, RecentUncoded(cal));
  }

  /** `projects.filter(p => !p.isArchived).length`. */
  function CountActive(projects: seq<Project>): (n: nat)
    ensures n <= |projects|
    ensures n == |projects| <==> forall i :: 0 <= i < |projects| ==> !projects[i].isArchived
    ensures n == 0 <==> forall i :: 0 <= i < |projects| ==> projects[i].isArchived
  {
    if projects == [] then 0
    else
      var init := projects[..|projects| - 1];
      assert forall i :: 0 <= i < |init| ==> init[i] == projects[i];
      CountActive(init) + (if projects[|projects| - 1].isArchived then 0 else 1)
  }

  /** The count goes project by project: it adds up over concatenation,
      and a single project counts one exactly when it is not archived. */
  lemma {:induction false} CountActiveSplits(a: seq<Project>, b: seq<Project>)
    ensures CountActive(a + b) == CountActive(a) + CountActive(b)
    ensures forall x :: CountActive([x]) == (if x.isArchived then 0 else 1)
  {
    if b == [] {
      assert a + b == a;
    } else {
      var init, last := b[..|b| - 1], b[|b| - 1];
      assert a + b == (a + init) + [last] && b == init + [last];
      CountActiveSplits(a, init);
      CountActiveSnoc(a + init, last);
      CountActiveSnoc(init, last);
    }
    forall x ensures CountActive([x]) == (if x.isArchived then 0 else 1) {
      assert [x][..0] == [];
    }
  }

  lemma CountActiveSnoc(s: seq<Project>, x: Project)
    ensures CountActive(s + [x]) == CountActive(s) + (if x.isArchived then 0 else 1)
  {
    assert (s + [x])[..|s|] == s;
  }

  /** `getSummaryStats`: the uncoded time of today, computed as the total
      less the coded time, is the time of today's uncoded activities. */
  function Summary(acts: seq<Activity>, projects: seq<Project>, cal: Calendar): (r: SummaryStats)
    ensures r.todayUncoded == Duration(Where(TodayActivities(acts, cal), IsUncoded))
    ensures r.todayTotal == Duration(TodayActivities(acts, cal))
    ensures r.todayCoded == Duration(Where(TodayActivities(acts, cal), IsCoded))
    ensures r.todayUncoded == r.todayTotal - r.todayCoded
    ensures r.weekTotal == Duration(Where(acts, InLastWeek(cal)))
    ensures r.uncodedCount == |UncodedActivities(acts, cal)| <= |acts|
    ensures r.uncodedTotal == Duration(UncodedActivities(acts, cal))
    ensures r.projectCount == CountActive(projects)
    ensures r.projectCount == |projects| <==> forall i :: 0 <= i < |projects| ==> !projects[i].isArchived
  {
    var today := TodayActivities(acts, cal);
    var uncoded := UncodedActivities(acts, cal);
    var todayTotal := Duration(today);
    var todayCoded := Duration(Where(today, IsCoded));
    DurationSplits(today, IsCoded, IsUncoded);
    SummaryStats(
      todayTotal,
      todayCoded,
      todayTotal - todayCoded,
      Duration(Where(acts, InLastWeek(cal))),
      |uncoded|,
      Duration(uncoded),
      CountActive(projects))
  }
}
