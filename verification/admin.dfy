/** The admin overview page: the fail-closed role gate, the headline
    statistics, the merged recent-activity feed and the "time ago" labels. */
module Admin {
  import opened Js
  import opened Text
  import opened Lists

  // ---------------------------------------------------------------------
  // Access

  /** What the `has_role` answer does to the page: `setIsAdmin(data === true)`,
      and anything else toasts and sends the user back to the dashboard. */
  datatype RoleCheck = RoleCheck(isAdmin: bool, denial: Option<string>, redirect: Option<string>)

  const DenialMessage := "You don't have admin privileges."

  /** Only the boolean `true` grants access; `"true"`, `1`, `null` or an
      error (no data) all deny. */
  function CheckAdminRole(data: JsValue): (r: RoleCheck)
    ensures r.isAdmin <==> data == JsBool(true)
    ensures r.isAdmin ==> r.denial.None? && r.redirect.None?
    ensures !r.isAdmin ==> r.denial == Some(DenialMessage) && r.redirect == Some("/dashboard")
  {
    if data == JsBool(true) then RoleCheck(true, None, None)
    else RoleCheck(false, Some(DenialMessage), Some("/dashboard"))
  }

  /** The strict gate only admits truthy answers, but it is stricter than a
      truthiness check: truthy non-boolean answers are refused. */
  lemma {:induction false} StrictGateIsFailClosed(data: JsValue)
    ensures CheckAdminRole(data).isAdmin ==> IsTruthy(data)
    ensures IsTruthy(JsString("true")) && !CheckAdminRole(JsString("true")).isAdmin
    ensures IsTruthy(JsNumber(1.0)) && !CheckAdminRole(JsNumber(1.0)).isAdmin
  {
  }

  datatype PageView = Loading | Nothing | Overview

  /** `if (!loading && !user) navigate("/auth")`. */
  function AuthRedirect(loading: bool, signedIn: bool): (r: Option<string>)
    ensures r.Some? <==> !loading && !signedIn
    ensures r.Some? ==> r.value == "/auth"
  {
    if !loading && !signedIn then Some("/auth") else None
  }

  /** Loading while the session or the role check is pending, nothing for
      a signed-out or non-admin user, the overview otherwise. */
  function View(loading: bool, checkingRole: bool, signedIn: bool, isAdmin: bool): (v: PageView)
    ensures v == Overview <==> !loading && !checkingRole && signedIn && isAdmin
    ensures v == Loading <==> loading || checkingRole
  {
    if loading || checkingRole then Loading
    else if !signedIn || !isAdmin then Nothing
    else Overview
  }

  /** Once the role check is done, the overview renders only for a role
      answer of exactly `true`. */
  lemma {:induction false} OverviewNeedsTrue(signedIn: bool, data: JsValue)
    ensures View(false, false, signedIn, CheckAdminRole(data).isAdmin) == Overview
      <==> signedIn && data == JsBool(true)
  {
    var c := CheckAdminRole(data);
    assert c.isAdmin <==> data == JsBool(true);
  }

  // ---------------------------------------------------------------------
  // Statistics

  /** A row of `select("status, price, hours_used")`. */
  datatype SubscriptionRow = SubscriptionRow(status: string, price: Option<real>, hoursUsed: Option<real>)

  datatype Stats = Stats(
    totalUsers: nat,
    activeSubscriptions: nat,
    totalRevenue: real,
    totalHoursUsed: real,
    totalStaff: nat,
    pendingTasks: nat)

  predicate IsActiveOrTrial(s: SubscriptionRow) {
    s.status == "active" || s.status == "trial"
  }

  /** `Number(s.price || 0)`. */
  function RowPrice(s: SubscriptionRow): real {
    OptNumOr(s.price, 0.0)
  }

  /** `Number(s.hours_used || 0)`. */
  function RowHours(s: SubscriptionRow): real {
    OptNumOr(s.hoursUsed, 0.0)
  }

  /** `x?.length || 0`, `x?.reduce(...) || 0`, `count || 0`: absent answers are 0. */
  function CountOr(c: Option<nat>): nat {
    c.GetOr(0)
  }

  /** `fetchStats`: the four query answers folded into the headline numbers.
      A failed query (no data) contributes zeros. */
  function FetchStats(usersCount: Option<nat>, subscriptions: Option<seq<SubscriptionRow>>,
                      staffCount: Option<nat>, pendingCount: Option<nat>): (r: Stats)
    ensures r.totalUsers == CountOr(usersCount) && r.totalStaff == CountOr(staffCount)
    ensures r.pendingTasks == CountOr(pendingCount)
    ensures subscriptions.None? ==> r.activeSubscriptions == 0 && r.totalRevenue == 0.0 && r.totalHoursUsed == 0.0
    ensures subscriptions.Some? ==> r.activeSubscriptions == |Filter(IsActiveOrTrial, subscriptions.value)|
    ensures subscriptions.Some? ==> r.activeSubscriptions <= |subscriptions.value|
    ensures subscriptions.Some? ==> r.totalRevenue == Sum(RowPrice, subscriptions.value)
    ensures subscriptions.Some? ==> r.totalHoursUsed == Sum(RowHours, subscriptions.value)
  {
    var rows := subscriptions.GetOr([]);
    CountIsFilterLength(IsActiveOrTrial, rows);
    Stats(
      CountOr(usersCount),
      Count(IsActiveOrTrial, rows),
      Sum(RowPrice, rows),
      Sum(RowHours, rows),
      CountOr(staffCount),
      CountOr(pendingCount))
  }

  /** A single row contributes its price and hours, a missing value counting as 0. */
  lemma {:induction false} OneRowTotals(row: SubscriptionRow)
    ensures FetchStats(None, Some([row]), None, None).totalRevenue == if row.price.Some? then row.price.value else 0.0
    ensures FetchStats(None, Some([row]), None, None).totalHoursUsed == if row.hoursUsed.Some? then row.hoursUsed.value else 0.0
  {
    assert [row][1..] == [];
    assert Sum(RowPrice, [row]) == RowPrice(row) + Sum(RowPrice, []);
    assert Sum(RowHours, [row]) == RowHours(row) + Sum(RowHours, []);
  }

  /** An empty answer and a failed query give the same zero totals. */
  lemma {:induction false} NoRowsZeroTotals(users: Option<nat>, staff: Option<nat>, pending: Option<nat>)
    ensures FetchStats(users, Some([]), staff, pending) == FetchStats(users, None, staff, pending)
    ensures FetchStats(users, Some([]), staff, pending).totalRevenue == 0.0
    ensures FetchStats(users, Some([]), staff, pending).totalHoursUsed == 0.0
    ensures FetchStats(users, Some([]), staff, pending).activeSubscriptions == 0
  {
    assert Filter(IsActiveOrTrial, []) == [];
  }

  /** Every row counts as active exactly when every row is active or on trial. */
  lemma {:induction false} AllActiveIff(rows: seq<SubscriptionRow>)
    ensures FetchStats(None, Some(rows), None, None).activeSubscriptions == |rows|
      <==> forall i :: 0 <= i < |rows| ==> IsActiveOrTrial(rows[i])
  {
    CountIsFilterLength(IsActiveOrTrial, rows);
  }

  /** Revenue and hours are non-negative when every recorded price and
      every recorded hour count is. */
  lemma {:induction false} TotalsNonNegative(rows: seq<SubscriptionRow>)
    requires forall i :: 0 <= i < |rows| ==> rows[i].price.GetOr(0.0) >= 0.0
    requires forall i :: 0 <= i < |rows| ==> rows[i].hoursUsed.GetOr(0.0) >= 0.0
    ensures FetchStats(None, Some(rows), None, None).totalRevenue >= 0.0
    ensures FetchStats(None, Some(rows), None, None).totalHoursUsed >= 0.0
  {
    SumNonNegative(RowPrice, rows);
    SumNonNegative(RowHours, rows);
  }

  /** Totals over two batches of rows add up. */
  lemma {:induction false} TotalsSplit(a: seq<SubscriptionRow>, b: seq<SubscriptionRow>)
    ensures FetchStats(None, Some(a + b), None, None).totalRevenue
      == FetchStats(None, Some(a), None, None).totalRevenue + FetchStats(None, Some(b), None, None).totalRevenue
    ensures FetchStats(None, Some(a + b), None, None).totalHoursUsed
      == FetchStats(None, Some(a), None, None).totalHoursUsed + FetchStats(None, Some(b), None, None).totalHoursUsed
  {
    SumAppend(RowPrice, a, b);
    SumAppend(RowHours, a, b);
  }

  // ---------------------------------------------------------------------
  // Recent activity

  /** A row of `select("id, full_name, created_at")` on profiles; times are
      milliseconds since the epoch. */
  datatype ProfileRow = ProfileRow(id: string, fullName: Option<string>, createdAt: int)
  /** A row of `select("id, title, created_at")` on tasks. */
  datatype TaskRow = TaskRow(id: string, title: string, createdAt: int)

  datatype ActivityKind = Signup | Task | SubscriptionChange
  datatype Activity = Activity(id: string, kind: ActivityKind, message: string, timestamp: int)

  const ActivityLimit: nat := 10
  const OverviewActivityLimit: nat := 5

  /** `${profile.full_name || "New user"} joined`. */
  function SignupActivity(p: ProfileRow): (a: Activity)
    ensures a.kind == Signup && a.id == p.id && a.timestamp == p.createdAt
    ensures p.fullName.None? || p.fullName.value == "" ==> a.message == "New user joined"
    ensures p.fullName.Some? && p.fullName.value != "" ==> a.message == p.fullName.value + " joined"
  {
    Activity(p.id, Signup, OptStrOr(p.fullName, "New user") + " joined", p.createdAt)
  }

  /** `New task: ${task.title}`. */
  function TaskActivity(t: TaskRow): (a: Activity)
    ensures a.kind == Task && a.id == t.id && a.timestamp == t.createdAt
    ensures IsPrefix("New task: ", a.message) && a.message[10..] == t.title
  {
    Activity(t.id, Task, "New task: " + t.title, t.createdAt)
  }

  function Timestamp(a: Activity): int {
    a.timestamp
  }

  /** Signups first, then tasks, as the two `forEach` loops push them; a
      failed query contributes nothing. */
  function Activities(profiles: Option<seq<ProfileRow>>, tasks: Option<seq<TaskRow>>): (r: seq<Activity>)
    ensures |r| == |profiles.GetOr([])| + |tasks.GetOr([])|
    ensures forall i :: 0 <= i < |profiles.GetOr([])| ==> r[i] == SignupActivity(profiles.GetOr([])[i])
    ensures forall j :: 0 <= j < |tasks.GetOr([])| ==> r[|profiles.GetOr([])| + j] == TaskActivity(tasks.GetOr([])[j])
  {
    Map(SignupActivity, profiles.GetOr([])) + Map(TaskActivity, tasks.GetOr([]))
  }

  /** `fetchRecentActivity`: the merged feed, newest first, cut to ten. */
  function RecentActivity(profiles: Option<seq<ProfileRow>>, tasks: Option<seq<TaskRow>>): (r: seq<Activity>)
    ensures |r| <= ActivityLimit
    ensures |r| == if |Activities(profiles, tasks)| < ActivityLimit then |Activities(profiles, tasks)| else ActivityLimit
    ensures SortedDesc(Timestamp, r)
    ensures multiset(r) <= multiset(Activities(profiles, tasks))
  {
    var sorted := SortDesc(Timestamp, Activities(profiles, tasks));
    TakeSortedSub(Timestamp, sorted, ActivityLimit);
    Take(sorted, ActivityLimit)
  }

  /** Every entry of the feed stems from one fetched profile or one fetched task. */
  lemma {:induction false} RecentActivityProvenance(profiles: seq<ProfileRow>, tasks: seq<TaskRow>, a: Activity)
    requires a in RecentActivity(Some(profiles), Some(tasks))
    ensures (exists i :: 0 <= i < |profiles| && a == SignupActivity(profiles[i]))
         || (exists j :: 0 <= j < |tasks| && a == TaskActivity(tasks[j]))
  {
    var all := Activities(Some(profiles), Some(tasks));
    assert a in all by {
      var r := RecentActivity(Some(profiles), Some(tasks));
      assert a in multiset(r);
      assert a in multiset(all);
    }
    InMapAppend(SignupActivity, profiles, TaskActivity, tasks, a);
  }

  /** The feed keeps the newest entries: anything left out is no newer than
      everything shown. */
  lemma {:induction false} RecentActivityKeepsNewest(profiles: Option<seq<ProfileRow>>, tasks: Option<seq<TaskRow>>)
    ensures var all := Activities(profiles, tasks);
      |all| > ActivityLimit ==>
        forall i :: 0 <= i < |RecentActivity(profiles, tasks)| ==>
          RecentActivity(profiles, tasks)[i].timestamp >= SortDesc(Timestamp, all)[ActivityLimit].timestamp
  {
  }

  /** The overview card shows at most five activities, the newest ones. */
  function OverviewActivities(recent: seq<Activity>): (r: seq<Activity>)
    ensures |r| == if |recent| < OverviewActivityLimit then |recent| else OverviewActivityLimit
    ensures r == recent[..|r|]
  {
    Take(recent, OverviewActivityLimit)
  }

  // ---------------------------------------------------------------------
  // Time ago

  /** `Math.floor((now - time) / 1000)`: whole seconds elapsed, negative for
      a timestamp in the future. */
  function ElapsedSeconds(nowMs: int, thenMs: int): (d: int)
    ensures d * 1000 <= nowMs - thenMs < (d + 1) * 1000
  {
    (nowMs - thenMs) / 1000
  }

  datatype TimeAgo = JustNow | MinutesAgo(minutes: nat) | HoursAgo(hours: nat) | DaysAgo(days: nat)

  /** The four buckets of `formatTimeAgo`. */
  function Bucket(diff: int): (t: TimeAgo)
    ensures t == JustNow <==> diff < 60
    ensures t.MinutesAgo? <==> 60 <= diff < 3600
    ensures t.HoursAgo? <==> 3600 <= diff < 86400
    ensures t.DaysAgo? <==> 86400 <= diff
    ensures t.MinutesAgo? ==> 1 <= t.minutes <= 59 && t.minutes * 60 <= diff < (t.minutes + 1) * 60
    ensures t.HoursAgo? ==> 1 <= t.hours <= 23 && t.hours * 3600 <= diff < (t.hours + 1) * 3600
    ensures t.DaysAgo? ==> 1 <= t.days && t.days * 86400 <= diff < (t.days + 1) * 86400
  {
    if diff < 60 then JustNow
    else if diff < 3600 then MinutesAgo(diff / 60)
    else if diff < 86400 then HoursAgo(diff / 3600)
    else DaysAgo(diff / 86400)
  }

  function Render(t: TimeAgo): string {
    match t
    case JustNow => "Just now"
    case MinutesAgo(n) => NatToString(n) + "m ago"
    case HoursAgo(n) => NatToString(n) + "h ago"
    case DaysAgo(n) => NatToString(n) + "d ago"
  }

  /** `formatTimeAgo(timestamp)` evaluated at `nowMs`. */
  function FormatTimeAgo(nowMs: int, thenMs: int): (s: string)
    ensures thenMs >= nowMs ==> s == "Just now"
    ensures s == "Just now" <==> ElapsedSeconds(nowMs, thenMs) < 60
    ensures var d := ElapsedSeconds(nowMs, thenMs);
      60 <= d < 3600 ==> s == NatToString(d / 60) + "m ago"
    ensures var d := ElapsedSeconds(nowMs, thenMs);
      3600 <= d < 86400 ==> s == NatToString(d / 3600) + "h ago"
    ensures var d := ElapsedSeconds(nowMs, thenMs);
      86400 <= d ==> s == NatToString(d / 86400) + "d ago"
  {
    var t := Bucket(ElapsedSeconds(nowMs, thenMs));
    RenderInjective(t, JustNow);
    Render(t)
  }

  /** Different buckets never print alike, so the label determines the
      bucket and its count. */
  lemma {:induction false} RenderInjective(t: TimeAgo, u: TimeAgo)
    ensures Render(t) == Render(u) <==> t == u
  {
    if Render(t) == Render(u) {
      var s := Render(t);
      assert |s| >= 5;
      var c := s[|s| - 5];
      assert t.JustNow? ==> c == 't';
      assert t.MinutesAgo? ==> c == 'm';
      assert t.HoursAgo? ==> c == 'h';
      assert t.DaysAgo? ==> c == 'd';
      assert u.JustNow? ==> c == 't';
      assert u.MinutesAgo? ==> c == 'm';
      assert u.HoursAgo? ==> c == 'h';
      assert u.DaysAgo? ==> c == 'd';
      if !t.JustNow? {
        var n := NatToString(Amount(t));
        var m := NatToString(Amount(u));
        assert s[..|s| - 5] == n;
        assert s[..|s| - 5] == m;
        NatToStringRoundTrip(Amount(t));
        NatToStringRoundTrip(Amount(u));
      }
    }
  }

  function Amount(t: TimeAgo): nat {
    match t
    case JustNow => 0
    case MinutesAgo(n) => n
    case HoursAgo(n) => n
    case DaysAgo(n) => n
  }
}
