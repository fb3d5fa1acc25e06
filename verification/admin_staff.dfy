/** The admin staff page: the search and status filter, the per-member and
    total statistics, the add / edit / reset-password dialogs with their
    guards and payloads, and the initials shown on each card. */
module AdminStaff {
  import opened Js
  import opened Text
  import opened Lists
  import opened Forms
  import Endpoint = StaffPasswordEndpoint

  /** A row of the staff table. */
  datatype StaffRow = StaffRow(
    id: string,
    fullName: string,
    email: string,
    phone: Option<string>,
    role: string,
    specialization: Option<string>,
    status: string,
    hourlyRate: real,
    createdAt: string)

  /** A row together with the two figures `fetchStaff` adds to it. */
  datatype StaffMember = StaffMember(row: StaffRow, activeClients: nat, hoursWorked: real)

  // ---------------------------------------------------------------------
  // Loading and statistics

  /** `tasks?.reduce((acc, t) => acc + Number(t.hours_actual || 0), 0) || 0`:
      the `hours_actual` of the member's tasks, with null counted as 0, and
      0 when the query fails. */
  function HoursWorked(taskHours: Option<seq<Option<real>>>): (h: real)
    ensures taskHours.None? ==> h == 0.0
    ensures taskHours.Some? ==> h == Sum(HoursOrZero, taskHours.value)
  {
    match taskHours
    case None => 0.0
    case Some(hours) => Sum(HoursOrZero, hours)
  }

  function HoursOrZero(h: Option<real>): real {
    OptNumOr(h, 0.0)
  }

  /** Hours worked never go negative while no task records negative hours. */
  lemma {:induction false} HoursWorkedNonNegative(taskHours: seq<Option<real>>)
    requires forall i :: 0 <= i < |taskHours| ==> taskHours[i].GetOr(0.0) >= 0.0
    ensures HoursWorked(Some(taskHours)) >= 0.0
  {
    SumNonNegative(HoursOrZero, taskHours);
  }

  /** What the backend answers per member: the active-assignment count and
      the `hours_actual` column of the member's tasks. */
  datatype MemberQueries = MemberQueries(
    clientCount: string -> Option<nat>,
    taskHours: string -> Option<seq<Option<real>>>)

  /** One member's enrichment: `clientCount || 0` and the hours worked. */
  function Enrich(q: MemberQueries, r: StaffRow): (m: StaffMember)
    ensures m.row == r
    ensures m.activeClients == q.clientCount(r.id).GetOr(0)
    ensures m.hoursWorked == HoursWorked(q.taskHours(r.id))
  {
    StaffMember(r, q.clientCount(r.id).GetOr(0), HoursWorked(q.taskHours(r.id)))
  }

  datatype Loaded = Loaded(staff: seq<StaffMember>, toast: Option<Toast>)

  /** `fetchStaff`: on a query error the list is kept and an error toast is
      shown; otherwise every row, in the order received, is enriched. */
  function FetchStaff(current: seq<StaffMember>, failed: bool, rows: Option<seq<StaffRow>>, q: MemberQueries): (l: Loaded)
    ensures failed ==> l == Loaded(current, Some(Toast("Error", "Failed to load staff members", true)))
    ensures !failed && rows.None? ==> l == Loaded(current, None)
    ensures !failed && rows.Some? ==> l.toast.None? && |l.staff| == |rows.value|
    ensures !failed && rows.Some? ==> forall i :: 0 <= i < |rows.value| ==> l.staff[i].row == rows.value[i]
    ensures !failed && rows.Some? ==> forall i :: 0 <= i < |rows.value| ==> l.staff[i] == Enrich(q, rows.value[i])
  {
    if failed then Loaded(current, Some(Toast("Error", "Failed to load staff members", true)))
    else if rows.None? then Loaded(current, None)
    else Loaded(Map(r => Enrich(q, r), rows.value), None)
  }

  function MemberHours(m: StaffMember): real {
    m.hoursWorked
  }

  function MemberClients(m: StaffMember): real {
    m.activeClients as real
  }

  predicate IsAvailable(m: StaffMember) {
    m.row.status == "available"
  }

  datatype Totals = Totals(members: nat, available: nat, hoursWorked: real, activeAssignments: real)

  /** The four stat cards. */
  function ComputeTotals(staff: seq<StaffMember>): (t: Totals)
    ensures t.members == |staff|
    ensures t.available == |Filter(IsAvailable, staff)| && t.available <= |staff|
    ensures t.activeAssignments >= 0.0
    ensures t.hoursWorked == Sum(MemberHours, staff) && t.activeAssignments == Sum(MemberClients, staff)
  {
    CountIsFilterLength(IsAvailable, staff);
    SumNonNegative(MemberClients, staff);
    Totals(|staff|, Count(IsAvailable, staff), Sum(MemberHours, staff), Sum(MemberClients, staff))
  }

  /** The cards over two parts of the list add up to the cards over the whole. */
  lemma {:induction false} TotalsSplit(a: seq<StaffMember>, b: seq<StaffMember>)
    ensures ComputeTotals(a + b).hoursWorked == ComputeTotals(a).hoursWorked + ComputeTotals(b).hoursWorked
    ensures ComputeTotals(a + b).activeAssignments == ComputeTotals(a).activeAssignments + ComputeTotals(b).activeAssignments
    ensures ComputeTotals(a + b).available == ComputeTotals(a).available + ComputeTotals(b).available
  {
    SumAppend(MemberHours, a, b);
    SumAppend(MemberClients, a, b);
    FilterAppend(IsAvailable, a, b);
  }

  /** After a load, the hours card is the sum over every member of the
      hours of that member's tasks. */
  lemma {:induction false} LoadedHoursAreTaskHours(rows: seq<StaffRow>, q: MemberQueries)
    ensures ComputeTotals(FetchStaff([], false, Some(rows), q).staff).hoursWorked
      == Sum((r: StaffRow) => HoursWorked(q.taskHours(r.id)), rows)
  {
    var staff := FetchStaff([], false, Some(rows), q).staff;
    SumPointwise(MemberHours, staff, (r: StaffRow) => HoursWorked(q.taskHours(r.id)), rows);
  }

  // ---------------------------------------------------------------------
  // Search and filter

  /** `x.toLowerCase().includes(query.toLowerCase())`. */
  predicate MatchesText(x: string, query: string) {
    Contains(ToLower(x), ToLower(query))
  }

  /** The search box: name, e-mail or specialization; a member without a
      specialization is matched on name and e-mail only. */
  predicate MatchesSearch(m: StaffMember, query: string) {
    || MatchesText(m.row.fullName, query)
    || MatchesText(m.row.email, query)
    || (m.row.specialization.Some? && MatchesText(m.row.specialization.value, query))
  }

  /** The status buttons: "all" passes everyone, any other choice must equal
      the status exactly. */
  predicate MatchesStatus(m: StaffMember, filter: string) {
    filter == "all" || m.row.status == filter
  }

  predicate Shown(m: StaffMember, query: string, filter: string) {
    MatchesSearch(m, query) && MatchesStatus(m, filter)
  }

  /** `filteredStaff`: the members matching both, in their original order. */
  function FilteredStaff(staff: seq<StaffMember>, query: string, filter: string): (r: seq<StaffMember>)
    ensures IsSubsequence(r, staff)
    ensures forall i :: 0 <= i < |r| ==> MatchesSearch(r[i], query) && MatchesStatus(r[i], filter)
    ensures forall i :: 0 <= i < |staff| && MatchesSearch(staff[i], query) && MatchesStatus(staff[i], filter) ==> staff[i] in r
    ensures filter != "all" ==> forall i :: 0 <= i < |r| ==> r[i].row.status == filter
  {
    Filter(m => Shown(m, query, filter), staff)
  }

  /** An empty search under "all" lists every member. */
  lemma {:induction false} EmptySearchShowsAll(staff: seq<StaffMember>)
    ensures FilteredStaff(staff, "", "all") == staff
  {
    forall i | 0 <= i < |staff| ensures Shown(staff[i], "", "all") {
      ContainsEmpty(ToLower(staff[i].row.fullName));
    }
    FilterAll(m => Shown(m, "", "all"), staff);
  }

  /** The search ignores letter case in the query. */
  lemma {:induction false} SearchIgnoresQueryCase(m: StaffMember, query: string)
    ensures MatchesSearch(m, ToLower(query)) <==> MatchesSearch(m, query)
  {
    ToLowerIdempotent(query);
  }

  /** A member without a specialization matches only through name or e-mail. */
  lemma {:induction false} NullSpecializationNeverMatches(m: StaffMember, query: string)
    requires m.row.specialization.None?
    ensures MatchesSearch(m, query) <==> MatchesText(m.row.fullName, query) || MatchesText(m.row.email, query)
  {
  }

  // ---------------------------------------------------------------------
  // The dialogs

  datatype StaffForm = StaffForm(
    fullName: string,
    email: string,
    phone: string,
    role: string,
    specialization: string,
    status: string,
    hourlyRate: real,
    password: string)

  const InitialStaffForm := StaffForm("", "", "", "VA", "", "available", 25.0, "")

  datatype PageState = PageState(
    form: StaffForm,
    selected: Option<StaffMember>,
    newPassword: string,
    showPassword: bool,
    addOpen: bool,
    editOpen: bool,
    passwordOpen: bool)

  /** The body sent to the `create-staff-user` function. */
  datatype CreatePayload = CreatePayload(
    email: string,
    password: string,
    fullName: string,
    phone: Option<string>,
    role: string,
    specialization: Option<string>,
    status: string,
    hourlyRate: real)

  /** The columns `handleUpdateStaff` writes. */
  datatype StaffUpdate = StaffUpdate(
    fullName: string,
    email: string,
    phone: Option<string>,
    role: string,
    specialization: Option<string>,
    status: string,
    hourlyRate: real)

  datatype Call =
    | GetSession
    | InvokeCreateStaffUser(payload: CreatePayload)
    | UpdateStaffRow(id: string, update: StaffUpdate)
    | InvokeUpdateStaffPassword(staffId: string, newPassword: string)
    | DeleteStaffRow(id: string)
    | RefetchStaff

  datatype Effects = Effects(state: PageState, toast: Option<Toast>, calls: seq<Call>)

  /** How an edge-function invocation came back: a transport error, or data
      whose `error` field may be set. */
  datatype InvokeResponse = InvokeResponse(error: Option<string>, dataError: Option<string>)

  /** `resetForm`: the add form's defaults, no selection, no pending password. */
  function ResetForm(s: PageState): (r: PageState)
    ensures r.form == InitialStaffForm
    ensures r.form.fullName == "" && r.form.email == "" && r.form.phone == ""
    ensures r.form.specialization == "" && r.form.password == ""
    ensures r.form.role == "VA" && r.form.status == "available" && r.form.hourlyRate == 25.0
    ensures r.selected.None? && r.newPassword == "" && !r.showPassword
    ensures r.addOpen == s.addOpen && r.editOpen == s.editOpen && r.passwordOpen == s.passwordOpen
  {
    s.(form := InitialStaffForm, selected := None, newPassword := "", showPassword := false)
  }

  /** The add button is enabled only with a name, an e-mail and a password
      of at least six characters, and not while a creation is running. */
  predicate AddEnabled(f: StaffForm, isCreating: bool) {
    f.fullName != "" && f.email != "" && JsLength(f.password) >= 6 && !isCreating
  }

  /** An enabled add button always gets past the handler's password guard. */
  lemma {:induction false} EnabledPassesPasswordGuard(s: PageState, isCreating: bool, response: InvokeResponse)
    requires AddEnabled(s.form, isCreating)
    ensures var e := AddStaff(s, true, response);
      |e.calls| >= 2 && e.calls[0] == GetSession && e.calls[1] == InvokeCreateStaffUser(ToCreatePayload(s.form))
  {
  }

  function ToCreatePayload(f: StaffForm): (p: CreatePayload)
    ensures p.phone.None? <==> f.phone == ""
    ensures p.specialization.None? <==> f.specialization == ""
    ensures p.email == f.email && p.password == f.password && p.fullName == f.fullName
    ensures p.role == f.role && p.status == f.status && p.hourlyRate == f.hourlyRate
  {
    CreatePayload(f.email, f.password, f.fullName, EmptyToNull(f.phone), f.role,
                  EmptyToNull(f.specialization), f.status, f.hourlyRate)
  }

  function ErrorToast(message: string): Toast {
    Toast("Error", message, true)
  }

  /** The message an invocation failure is reported with, if it failed:
      `response.error.message`, else a truthy `response.data.error`. */
  function InvokeFailure(r: InvokeResponse): (m: Option<string>)
    ensures m.None? <==> r.error.None? && !Present(r.dataError)
  {
    if r.error.Some? then r.error
    else if Present(r.dataError) then r.dataError
    else None
  }

  /** `handleAddStaff`. */
  function AddStaff(s: PageState, hasSession: bool, response: InvokeResponse): (e: Effects)
    ensures JsLength(s.form.password) < 6 ==>
      e == Effects(s, Some(ErrorToast("Password must be at least 6 characters")), [])
    ensures JsLength(s.form.password) >= 6 && !hasSession ==>
      e == Effects(s, Some(ErrorToast("Not authenticated")), [GetSession])
    ensures (exists i :: 0 <= i < |e.calls| && e.calls[i].InvokeCreateStaffUser?) <==>
      JsLength(s.form.password) >= 6 && hasSession
    ensures RefetchStaff in e.calls <==> JsLength(s.form.password) >= 6 && hasSession && InvokeFailure(response).None?
    ensures RefetchStaff in e.calls ==> !e.state.addOpen && e.state.form == InitialStaffForm
    ensures RefetchStaff !in e.calls ==> e.state == s
  {
    if JsLength(s.form.password) < 6 then
      Effects(s, Some(ErrorToast("Password must be at least 6 characters")), [])
    else if !hasSession then
      Effects(s, Some(ErrorToast("Not authenticated")), [GetSession])
    else
      var e := CreateStage(s, response);
      assert e.calls[1].InvokeCreateStaffUser?;
      e
  }

  /** `handleAddStaff` once a session is present: the function is invoked,
      and only a clean answer closes the dialog, resets the form and refetches. */
  function CreateStage(s: PageState, response: InvokeResponse): (e: Effects)
    ensures |e.calls| >= 2 && e.calls[0] == GetSession && e.calls[1] == InvokeCreateStaffUser(ToCreatePayload(s.form))
    ensures RefetchStaff in e.calls <==> InvokeFailure(response).None?
    ensures RefetchStaff in e.calls ==> !e.state.addOpen && e.state.form == InitialStaffForm
    ensures RefetchStaff !in e.calls ==> e.state == s
  {
    var calls := [GetSession, InvokeCreateStaffUser(ToCreatePayload(s.form))];
    match InvokeFailure(response)
    case Some(message) =>
      Effects(s, Some(ErrorToast(message)), calls)
    case None =>
      Effects(ResetForm(s.(addOpen := false)),
              Some(Toast("Success", "Staff member created with login credentials", false)), calls + [RefetchStaff])
  }

  /** `handleEditStaff`: the form is seeded from the member, null text
      columns becoming empty strings, and the password left blank. */
  function EditStaff(s: PageState, m: StaffMember): (r: PageState)
    ensures r.selected == Some(m) && r.editOpen
    ensures r.form.fullName == m.row.fullName && r.form.email == m.row.email
    ensures r.form.phone == NullToEmpty(m.row.phone) && r.form.specialization == NullToEmpty(m.row.specialization)
    ensures r.form.role == m.row.role && r.form.status == m.row.status && r.form.hourlyRate == m.row.hourlyRate
    ensures r.form.password == ""
  {
    var f := StaffForm(m.row.fullName, m.row.email, NullToEmpty(m.row.phone), m.row.role,
                       NullToEmpty(m.row.specialization), m.row.status, m.row.hourlyRate, "");
    s.(selected := Some(m), form := f, editOpen := true)
  }

  function ToUpdate(f: StaffForm): (u: StaffUpdate)
    ensures u.phone.None? <==> f.phone == ""
    ensures u.specialization.None? <==> f.specialization == ""
    ensures u.phone.Some? ==> u.phone.value == f.phone
    ensures u.specialization.Some? ==> u.specialization.value == f.specialization
    ensures u.fullName == f.fullName && u.email == f.email
    ensures u.role == f.role && u.status == f.status && u.hourlyRate == f.hourlyRate
  {
    StaffUpdate(f.fullName, f.email, EmptyToNull(f.phone), f.role, EmptyToNull(f.specialization), f.status, f.hourlyRate)
  }

  /** `handleUpdateStaff`: nothing without a selection; otherwise one update
      of the selected row, and on success the dialog closes, the form
      resets and the list is fetched again. */
  function UpdateStaff(s: PageState, failed: bool): (e: Effects)
    ensures s.selected.None? ==> e == Effects(s, None, [])
    ensures s.selected.Some? ==> |e.calls| >= 1 && e.calls[0] == UpdateStaffRow(s.selected.value.row.id, ToUpdate(s.form))
    ensures s.selected.Some? && failed ==> e == Effects(s, Some(ErrorToast("Failed to update staff member")), e.calls) && |e.calls| == 1
    ensures s.selected.Some? && !failed ==> !e.state.editOpen && e.state.form == InitialStaffForm && e.state.selected.None?
    ensures s.selected.Some? && !failed ==> e.calls[1..] == [RefetchStaff]
  {
    match s.selected
    case None => Effects(s, None, [])
    case Some(m) =>
      var call := UpdateStaffRow(m.row.id, ToUpdate(s.form));
      if failed then Effects(s, Some(ErrorToast("Failed to update staff member")), [call])
      else Effects(ResetForm(s.(editOpen := false)), Some(Toast("Success", "Staff member updated successfully", false)),
                   [call, RefetchStaff])
  }

  /** Opening a member for edit and saving without changes writes back every
      column as it was, except that an empty phone or specialization is
      stored as null. */
  lemma {:induction false} EditRoundTrip(s: PageState, m: StaffMember)
    ensures var e := UpdateStaff(EditStaff(s, m), false);
      e.calls[0] == UpdateStaffRow(m.row.id, StaffUpdate(
        m.row.fullName, m.row.email,
        if m.row.phone == Some("") then None else m.row.phone,
        m.row.role,
        if m.row.specialization == Some("") then None else m.row.specialization,
        m.row.status, m.row.hourlyRate))
  {
    NullRoundTrip(m.row.phone);
    NullRoundTrip(m.row.specialization);
  }

  /** `handleDeleteStaff`: nothing unless confirmed; then one delete, and a
      refetch when it succeeds. */
  function DeleteStaff(s: PageState, id: string, confirmed: bool, failed: bool): (e: Effects)
    ensures e.state == s
    ensures !confirmed ==> e.calls == [] && e.toast.None?
    ensures confirmed ==> |e.calls| >= 1 && e.calls[0] == DeleteStaffRow(id)
    ensures RefetchStaff in e.calls <==> confirmed && !failed
  {
    if !confirmed then Effects(s, None, [])
    else if failed then Effects(s, Some(ErrorToast("Failed to delete staff member")), [DeleteStaffRow(id)])
    else Effects(s, Some(Toast("Success", "Staff member deleted successfully", false)), [DeleteStaffRow(id), RefetchStaff])
  }

  /** `openPasswordDialog`. */
  function OpenPasswordDialog(s: PageState, m: StaffMember): (r: PageState)
    ensures r.selected == Some(m) && r.newPassword == "" && r.passwordOpen
  {
    s.(selected := Some(m), newPassword := "", passwordOpen := true)
  }

  /** `handleResetPassword`: refused without a selection or with a password
      shorter than six characters, before any invocation. */
  function ResetPassword(s: PageState, response: InvokeResponse): (e: Effects)
    ensures s.selected.None? || JsLength(s.newPassword) < 6 ==>
      e == Effects(s, Some(ErrorToast("Password must be at least 6 characters")), [])
    ensures s.selected.Some? && JsLength(s.newPassword) >= 6 ==>
      e.calls == [InvokeUpdateStaffPassword(s.selected.value.row.id, s.newPassword)]
    ensures InvokeFailure(response).Some? ==> e.state == s
    ensures s.selected.Some? && JsLength(s.newPassword) >= 6 && InvokeFailure(response).None? ==>
      !e.state.passwordOpen && e.state.newPassword == "" && e.state.selected.None?
  {
    if s.selected.None? || JsLength(s.newPassword) < 6 then
      Effects(s, Some(ErrorToast("Password must be at least 6 characters")), [])
    else
      var call := InvokeUpdateStaffPassword(s.selected.value.row.id, s.newPassword);
      match InvokeFailure(response)
      case Some(message) => Effects(s, Some(ErrorToast(message)), [call])
      case None =>
        Effects(s.(passwordOpen := false, newPassword := "", selected := None),
                Some(Toast("Success", "Password updated successfully", false)), [call])
  }

  /** A body the dialog sends always passes the endpoint's field and length
      checks whenever the staff id is not empty, so the endpoint's answer
      is decided by the caller and the staff row, never by the password. */
  lemma {:induction false} DialogPasswordPassesEndpoint(s: PageState, response: InvokeResponse, auth: Option<string>)
    requires |ResetPassword(s, response).calls| == 1
    ensures var c := ResetPassword(s, response).calls[0];
      Endpoint.ValidBody(Endpoint.Request("POST", auth, Endpoint.Json(Some(c.staffId), Some(c.newPassword))))
      <==> c.staffId != ""
  {
    var c := ResetPassword(s, response).calls[0];
    assert JsLength(c.newPassword) >= 6;
    assert c.newPassword != "";
  }

  // ---------------------------------------------------------------------
  // Initials

  /** The first character of each part, skipping empty parts (`n[0]` of an
      empty string is undefined, which `join("")` prints as nothing). */
  function FirstChars(parts: seq<string>): string {
    if |parts| == 0 then []
    else (if parts[0] == [] then [] else [parts[0][0]]) + FirstChars(parts[1..])
  }

  /** `full_name.split(" ").map(n => n[0]).join("")`. */
  function Initials(fullName: string): (r: string)
    ensures |r| <= |fullName|
    ensures ' ' !in r
  {
    InitialsAreWordStarts(fullName);
    FirstChars(Split(fullName, ' '))
  }

  /** Reference definition: the characters that are not spaces and stand at
      the start or right after a space, read left to right. */
  function WordStarts(s: string, atStart: bool): (r: string)
    ensures |r| <= |s| && ' ' !in r
  {
    if s == [] then []
    else (if s[0] != ' ' && atStart then [s[0]] else []) + WordStarts(s[1..], s[0] == ' ')
  }

  /** The initials are exactly the word starts of the name. */
  lemma {:induction false} InitialsAreWordStarts(s: string)
    ensures FirstChars(Split(s, ' ')) == WordStarts(s, true)
    ensures FirstChars(Split(s, ' ')[1..]) == WordStarts(s, false)
    decreases |s|
  {
    if s != [] {
      var rest := Split(s[1..], ' ');
      InitialsAreWordStarts(s[1..]);
      var parts := Split(s, ' ');
      if s[0] == ' ' {
        assert parts == [[]] + rest;
        assert parts[1..] == rest;
      } else {
        assert parts == [[s[0]] + rest[0]] + rest[1..];
        assert parts[1..] == rest[1..];
      }
    }
  }
}
