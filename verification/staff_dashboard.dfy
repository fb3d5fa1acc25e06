/** The staff dashboard: who may see it, what it loads, the task status
    workflow it offers, the per-status counts and the badge mappings. */
module StaffDashboard {
  import opened Js
  import opened Text
  import opened Lists
  import opened Forms

  datatype StaffProfile = StaffProfile(
    id: string,
    fullName: string,
    email: string,
    role: string,
    specialization: Option<string>,
    status: string)

  datatype Task = Task(
    id: string,
    title: string,
    description: Option<string>,
    priority: string,
    status: string,
    dueDate: Option<string>,
    hoursEstimated: Option<real>,
    hoursActual: Option<real>,
    clientId: string,
    createdAt: string)

  datatype Assignment = Assignment(id: string, clientId: string, status: string, notes: Option<string>, assignedAt: string)

  // ---------------------------------------------------------------------
  // Task workflow

  const Pending := "pending"
  const InProgress := "in_progress"
  const Completed := "completed"

  /** The only transitions the dashboard ever requests. */
  const Transitions: set<(string, string)> := {(Pending, InProgress), (InProgress, Completed)}

  /** The status a task's button moves it to: "Start Task" on a pending
      task, "Complete" on one in progress, nothing otherwise. */
  function OfferedAction(status: string): (next: Option<string>)
    ensures next.Some? ==> next.value in {InProgress, Completed}
    ensures next.None? <==> status != Pending && status != InProgress
  {
    if status == Pending then Some(InProgress)
    else if status == InProgress then Some(Completed)
    else None
  }

  /** The button's caption for the offered action. */
  function ActionLabel(status: string): (caption: Option<string>)
    ensures caption.Some? <==> OfferedAction(status).Some?
    ensures status == Pending ==> caption == Some("Start Task")
    ensures status == InProgress ==> caption == Some("Complete")
  {
    if status == Pending then Some("Start Task")
    else if status == InProgress then Some("Complete")
    else None
  }

  /** The offered action is exactly the transition relation, in both directions. */
  lemma {:induction false} OfferedActionIsTransition(s: string, t: string)
    ensures OfferedAction(s) == Some(t) <==> (s, t) in Transitions
  {
    if (s, t) in Transitions {
      assert (s, t) == (Pending, InProgress) || (s, t) == (InProgress, Completed);
    }
  }

  /** Position of a status in the workflow; unknown statuses sit outside it. */
  function Rank(status: string): int {
    if status == Pending then 0
    else if status == InProgress then 1
    else if status == Completed then 2
    else -1
  }

  /** Every offered action moves a task exactly one step forward, and
      following the offered actions stops after at most two steps. */
  lemma {:induction false} WorkflowMovesForward(s: string)
    ensures OfferedAction(s).Some? ==> Rank(OfferedAction(s).value) == Rank(s) + 1 && Rank(s) >= 0
    ensures OfferedAction(Completed).None?
    ensures var a := OfferedAction(s);
      a.None? || (var b := OfferedAction(a.value); b.None? || OfferedAction(b.value).None?)
  {
  }

  // ---------------------------------------------------------------------
  // Counts

  predicate HasStatus(status: string, t: Task) {
    t.status == status
  }

  predicate IsPending(t: Task) { t.status == Pending }
  predicate IsInProgress(t: Task) { t.status == InProgress }
  predicate IsCompleted(t: Task) { t.status == Completed }
  predicate IsKnownStatus(t: Task) { IsPending(t) || IsInProgress(t) || IsCompleted(t) }

  datatype StatusCounts = StatusCounts(pending: nat, inProgress: nat, completed: nat)

  /** The three stat cards: `tasks.filter(t => t.status === ...).length`. */
  function CountStatuses(tasks: seq<Task>): (c: StatusCounts)
    ensures c.pending == |Filter(IsPending, tasks)|
    ensures c.inProgress == |Filter(IsInProgress, tasks)|
    ensures c.completed == |Filter(IsCompleted, tasks)|
  {
    CountIsFilterLength(IsPending, tasks);
    CountIsFilterLength(IsInProgress, tasks);
    CountIsFilterLength(IsCompleted, tasks);
    StatusCounts(Count(IsPending, tasks), Count(IsInProgress, tasks), Count(IsCompleted, tasks))
  }

  /** The three counts add up to the number of tasks whose status is one of
      the three. */
  lemma {:induction false} CountsAddUp(tasks: seq<Task>)
    ensures var c := CountStatuses(tasks);
      c.pending + c.inProgress + c.completed == Count(IsKnownStatus, tasks)
    decreases |tasks|
  {
    if |tasks| > 0 {
      CountsAddUp(tasks[1..]);
    }
  }

  /** The counts never exceed the task list, and fill it exactly when every
      task is pending, in progress or completed. */
  lemma {:induction false} CountsBound(tasks: seq<Task>)
    ensures var c := CountStatuses(tasks);
      c.pending + c.inProgress + c.completed <= |tasks|
    ensures var c := CountStatuses(tasks);
      c.pending + c.inProgress + c.completed == |tasks| <==> forall i :: 0 <= i < |tasks| ==> IsKnownStatus(tasks[i])
  {
    CountsAddUp(tasks);
    CountIsFilterLength(IsKnownStatus, tasks);
  }

  // ---------------------------------------------------------------------
  // Badges

  const UrgentClass := "bg-red-500/10 text-red-500"
  const HighClass := "bg-orange-500/10 text-orange-500"
  const MediumClass := "bg-yellow-500/10 text-yellow-500"
  const LowClass := "bg-green-500/10 text-green-500"

  /** `getPriorityColor`: total, with every unrecognised priority shown as low. */
  function PriorityColor(priority: string): (c: string)
    ensures c in {UrgentClass, HighClass, MediumClass, LowClass}
    ensures c == LowClass <==> priority !in {"urgent", "high", "medium"}
    ensures priority == "urgent" <==> c == UrgentClass
    ensures priority == "high" <==> c == HighClass
  {
    match priority
    case "urgent" => UrgentClass
    case "high" => HighClass
    case "medium" => MediumClass
    case _ => LowClass
  }

  const CompletedClass := "bg-green-500/10 text-green-500"
  const InProgressClass := "bg-blue-500/10 text-blue-500"
  const PendingClass := "bg-yellow-500/10 text-yellow-500"
  const MutedClass := "bg-muted text-muted-foreground"

  /** `getStatusColor`: total, with a muted badge for unrecognised statuses;
      the three workflow statuses get three different colours. */
  function StatusColor(status: string): (c: string)
    ensures c in {CompletedClass, InProgressClass, PendingClass, MutedClass}
    ensures c == MutedClass <==> status !in {Completed, InProgress, Pending}
    ensures status == Completed <==> c == CompletedClass
    ensures status == InProgress <==> c == InProgressClass
    ensures status == Pending <==> c == PendingClass
  {
    if status == Completed then CompletedClass
    else if status == InProgress then InProgressClass
    else if status == Pending then PendingClass
    else MutedClass
  }

  /** `status.replace("_", " ")`: only the first underscore becomes a space. */
  function StatusBadgeText(status: string): (r: string)
    ensures |r| == |status|
    ensures '_' !in status ==> r == status
    ensures '_' in status ==>
      exists i :: 0 <= i < |status| && status[i] == '_' && (forall j :: 0 <= j < i ==> status[j] != '_') && r == status[i := ' ']
  {
    ReplaceFirstChar(status, '_', ' ');
    ReplaceFirst(status, "_", " ")
  }

  /** The workflow statuses read "pending", "in progress" and "completed". */
  lemma {:induction false} WorkflowBadgeTexts()
    ensures StatusBadgeText(Pending) == Pending
    ensures StatusBadgeText(InProgress) == "in progress"
    ensures StatusBadgeText(Completed) == Completed
  {
    NoUnderscoreBadge(Pending);
    NoUnderscoreBadge(Completed);
    InProgressBadge(InProgress);
  }

  /** A status without an underscore is shown as it is. */
  lemma NoUnderscoreBadge(status: string)
    requires status == Pending || status == Completed
    ensures StatusBadgeText(status) == status
  {
    assert forall i :: 0 <= i < |status| ==> status[i] != '_';
  }

  /** `in_progress` is shown with its underscore replaced by a space. */
  lemma InProgressBadge(status: string)
    requires status == InProgress
    ensures StatusBadgeText(status) == "in progress"
  {
    assert status[0] == 'i' && status[1] == 'n' && status[2] == '_';
    FirstUnderscoreAt(status, 2);
    assert status[2 := ' '] == "in progress";
  }

  /** Only the first underscore becomes a space. */
  lemma FirstUnderscoreAt(status: string, k: nat)
    requires k < |status| && status[k] == '_'
    requires forall j :: 0 <= j < k ==> status[j] != '_'
    ensures StatusBadgeText(status) == status[k := ' ']
  {
    var r := StatusBadgeText(status);
    assert '_' in status;
    var i :| 0 <= i < |status| && status[i] == '_' && (forall j :: 0 <= j < i ==> status[j] != '_') && r == status[i := ' '];
    assert i == k;
  }

  // ---------------------------------------------------------------------
  // Loading

  /** The staff row lookup by the session's user id: a query error, no row,
      or the row. */
  datatype StaffLookup = LookupError | NoRow | Row(profile: StaffProfile)

  /** The backend's answers to one run of `checkAuthAndFetchData`. */
  datatype World = World(
    sessionUserId: Option<string>,
    staff: StaffLookup,
    tasks: Option<seq<Task>>,
    assignments: Option<seq<Assignment>>)

  datatype Call =
    | GetSession
    | LookupStaffByUserId(userId: string)
    | FetchTasks(staffId: string)
    | FetchActiveAssignments(staffId: string)
    | UpdateTask(taskId: string, status: string)

  datatype PageState = PageState(
    loading: bool,
    profile: Option<StaffProfile>,
    tasks: seq<Task>,
    assignments: seq<Assignment>)

  datatype Effects = Effects(state: PageState, redirect: Option<string>, toast: Option<Toast>, calls: seq<Call>)

  const AccessDenied := Toast("Access Denied", "You don't have staff access.", true)

  /** `checkAuthAndFetchData`. */
  function CheckAuthAndFetch(s: PageState, w: World): (e: Effects)
    ensures w.sessionUserId.None? ==> e == Effects(s, Some("/staff/login"), None, [GetSession])
    ensures w.sessionUserId.Some? && !w.staff.Row? ==>
      e == Effects(s, Some("/staff/login"), Some(AccessDenied), [GetSession, LookupStaffByUserId(w.sessionUserId.value)])
    ensures e.redirect.None? <==> w.sessionUserId.Some? && w.staff.Row?
    ensures e.redirect.None? ==>
      && e.state.profile == Some(w.staff.profile)
      && !e.state.loading
      && e.state.tasks == (if w.tasks.Some? then w.tasks.value else s.tasks)
      && e.state.assignments == (if w.assignments.Some? then w.assignments.value else s.assignments)
      && e.calls == [GetSession, LookupStaffByUserId(w.sessionUserId.value),
                     FetchTasks(w.staff.profile.id), FetchActiveAssignments(w.staff.profile.id)]
  {
    match w.sessionUserId
    case None => Effects(s, Some("/staff/login"), None, [GetSession])
    case Some(uid) =>
      var lookedUp := [GetSession, LookupStaffByUserId(uid)];
      match w.staff
      case Row(p) =>
        var tasks := if w.tasks.Some? then w.tasks.value else s.tasks;
        var assignments := if w.assignments.Some? then w.assignments.value else s.assignments;
        Effects(PageState(false, Some(p), tasks, assignments), None, None,
                lookedUp + [FetchTasks(p.id), FetchActiveAssignments(p.id)])
      case _ => Effects(s, Some("/staff/login"), Some(AccessDenied), lookedUp)
  }

  /** A visitor who is not a staff member never causes a task or assignment
      query, and never sees the staff profile. */
  lemma {:induction false} NonStaffFetchesNothing(s: PageState, w: World)
    requires w.sessionUserId.None? || !w.staff.Row?
    ensures var e := CheckAuthAndFetch(s, w);
      e.redirect == Some("/staff/login") && e.state == s
      && forall i :: 0 <= i < |e.calls| ==> !e.calls[i].FetchTasks? && !e.calls[i].FetchActiveAssignments?
  {
  }

  /** `updateTaskStatus`: on failure only an error toast; on success a toast
      naming the new status and a full reload. */
  function UpdateTaskStatus(s: PageState, taskId: string, newStatus: string, failed: bool, w: World): (e: Effects)
    ensures |e.calls| >= 1 && e.calls[0] == UpdateTask(taskId, newStatus)
    ensures failed ==> e == Effects(s, None, Some(Toast("Error", "Failed to update task status.", true)), [UpdateTask(taskId, newStatus)])
    ensures !failed ==> e.calls[1..] == CheckAuthAndFetch(s, w).calls
    ensures !failed && e.redirect.None? ==> e.toast == Some(Toast("Task Updated", "Task status changed to " + newStatus + ".", false))
  {
    if failed then
      Effects(s, None, Some(Toast("Error", "Failed to update task status.", true)), [UpdateTask(taskId, newStatus)])
    else
      var reload := CheckAuthAndFetch(s, w);
      var updated := Toast("Task Updated", "Task status changed to " + newStatus + ".", false);
      Effects(reload.state, reload.redirect, if reload.toast.Some? then reload.toast else Some(updated),
              [UpdateTask(taskId, newStatus)] + reload.calls)
  }

  /** A failed update leaves the task list as it was and issues no reload;
      a successful one shows the tasks the reload returns. */
  lemma {:induction false} UpdateOutcome(s: PageState, taskId: string, newStatus: string, failed: bool, w: World)
    ensures failed ==> UpdateTaskStatus(s, taskId, newStatus, failed, w).state.tasks == s.tasks
    ensures failed ==> |UpdateTaskStatus(s, taskId, newStatus, failed, w).calls| == 1
    ensures !failed && w.sessionUserId.Some? && w.staff.Row? && w.tasks.Some? ==>
      UpdateTaskStatus(s, taskId, newStatus, failed, w).state.tasks == w.tasks.value
  {
  }
}
