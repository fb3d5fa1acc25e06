/** The admin clients page: the search and subscription-status filter, the
    edit dialog seeded from the client's subscription, the guarded save and
    the avatar and hours cells. */
module AdminClients {
  import opened Js
  import opened Text
  import opened Lists
  import opened Forms

  /** The client's subscription as `select("id, plan, status, hours_used, hours_included")` returns it. */
  datatype ClientSubscription = ClientSubscription(
    id: string,
    plan: string,
    status: string,
    hoursUsed: real,
    hoursIncluded: real)

  datatype Profile = Profile(
    id: string,
    fullName: Option<string>,
    email: Option<string>,
    phone: Option<string>,
    avatarUrl: Option<string>,
    createdAt: string)

  /** A profile with the subscription and task count `fetchClients` adds. */
  datatype Client = Client(profile: Profile, subscription: Option<ClientSubscription>, taskCount: nat)

  // ---------------------------------------------------------------------
  // Loading

  datatype ClientQueries = ClientQueries(
    subscription: string -> Option<ClientSubscription>,
    taskCount: string -> Option<nat>)

  /** `{ ...profile, subscription: subData || undefined, taskCount: taskCount || 0 }`. */
  function Enrich(q: ClientQueries, p: Profile): (c: Client)
    ensures c.profile == p && c.subscription == q.subscription(p.id)
    ensures c.taskCount == q.taskCount(p.id).GetOr(0)
  {
    Client(p, q.subscription(p.id), q.taskCount(p.id).GetOr(0))
  }

  datatype Loaded = Loaded(clients: seq<Client>, toast: Option<Toast>)

  /** `fetchClients`: keeps the list and shows an error toast when the
      profile query fails, otherwise enriches every profile in order. */
  function FetchClients(current: seq<Client>, failed: bool, profiles: Option<seq<Profile>>, q: ClientQueries): (l: Loaded)
    ensures failed ==> l == Loaded(current, Some(Toast("Error", "Failed to load clients", true)))
    ensures !failed && profiles.None? ==> l == Loaded(current, None)
    ensures !failed && profiles.Some? ==> l.toast.None? && |l.clients| == |profiles.value|
    ensures !failed && profiles.Some? ==> forall i :: 0 <= i < |profiles.value| ==> l.clients[i].profile == profiles.value[i]
    ensures !failed && profiles.Some? ==> forall i :: 0 <= i < |profiles.value| ==> l.clients[i] == Enrich(q, profiles.value[i])
  {
    if failed then Loaded(current, Some(Toast("Error", "Failed to load clients", true)))
    else if profiles.None? then Loaded(current, None)
    else Loaded(Map(p => Enrich(q, p), profiles.value), None)
  }

  // ---------------------------------------------------------------------
  // Search and filter

  /** `x?.toLowerCase().includes(query.toLowerCase())`, false for null. */
  predicate OptMatches(x: Option<string>, query: string) {
    x.Some? && Contains(ToLower(x.value), ToLower(query))
  }

  predicate MatchesSearch(c: Client, query: string) {
    OptMatches(c.profile.fullName, query) || OptMatches(c.profile.email, query)
  }

  /** "all" ignores the subscription; any other choice needs a subscription
      with exactly that status. */
  predicate MatchesStatus(c: Client, filter: string) {
    filter == "all" || (c.subscription.Some? && c.subscription.value.status == filter)
  }

  predicate Shown(c: Client, query: string, filter: string) {
    MatchesSearch(c, query) && MatchesStatus(c, filter)
  }

  /** `filteredClients`: the clients matching both, in their original order. */
  function FilteredClients(clients: seq<Client>, query: string, filter: string): (r: seq<Client>)
    ensures IsSubsequence(r, clients)
    ensures forall i :: 0 <= i < |r| ==> MatchesSearch(r[i], query) && MatchesStatus(r[i], filter)
    ensures forall i :: 0 <= i < |clients| && MatchesSearch(clients[i], query) && MatchesStatus(clients[i], filter) ==> clients[i] in r
    ensures filter != "all" ==> forall i :: 0 <= i < |r| ==> r[i].subscription.Some? && r[i].subscription.value.status == filter
  {
    Filter(c => Shown(c, query, filter), clients)
  }

  /** A client with neither a name nor an e-mail is never listed, not even
      for the empty search; one with either is listed for the empty search
      under "all". */
  lemma {:induction false} EmptySearchNeedsNameOrEmail(c: Client)
    ensures c.profile.fullName.None? && c.profile.email.None? ==> !Shown(c, "", "all")
    ensures c.profile.fullName.Some? || c.profile.email.Some? ==> Shown(c, "", "all")
  {
    if c.profile.fullName.Some? {
      ContainsEmpty(ToLower(c.profile.fullName.value));
    }
    if c.profile.email.Some? {
      ContainsEmpty(ToLower(c.profile.email.value));
    }
  }

  /** The search ignores letter case in the query. */
  lemma {:induction false} SearchIgnoresQueryCase(c: Client, query: string)
    ensures MatchesSearch(c, ToLower(query)) <==> MatchesSearch(c, query)
  {
    ToLowerIdempotent(query);
  }

  /** Under "all" the status filter drops nobody: the result is the search
      result alone. */
  lemma {:induction false} AllIgnoresStatus(clients: seq<Client>, query: string)
    ensures FilteredClients(clients, query, "all") == Filter(c => MatchesSearch(c, query), clients)
    decreases |clients|
  {
    if |clients| > 0 {
      AllIgnoresStatus(clients[1..], query);
    }
  }

  // ---------------------------------------------------------------------
  // Edit dialog

  datatype EditForm = EditForm(plan: string, status: string, hoursIncluded: real)

  datatype PageState = PageState(
    selected: Option<Client>,
    form: EditForm,
    editOpen: bool,
    viewOpen: bool)

  /** `handleEditClient`: the form is seeded from the subscription, with
      plan "Personal", status "trial" and 20 hours for missing or falsy values. */
  function EditClient(s: PageState, c: Client): (r: PageState)
    ensures r.selected == Some(c) && r.editOpen && r.viewOpen == s.viewOpen
    ensures c.subscription.None? ==> r.form == EditForm("Personal", "trial", 20.0)
    ensures c.subscription.Some? ==>
      && r.form.plan == StrOr(c.subscription.value.plan, "Personal")
      && r.form.status == StrOr(c.subscription.value.status, "trial")
      && r.form.hoursIncluded == NumOr(c.subscription.value.hoursIncluded, 20.0)
  {
    var f := match c.subscription
      case None => EditForm("Personal", "trial", 20.0)
      case Some(sub) => EditForm(StrOr(sub.plan, "Personal"), StrOr(sub.status, "trial"), NumOr(sub.hoursIncluded, 20.0));
    s.(selected := Some(c), form := f, editOpen := true)
  }

  /** `handleViewClient`. */
  function ViewClient(s: PageState, c: Client): (r: PageState)
    ensures r.selected == Some(c) && r.viewOpen && r.form == s.form && r.editOpen == s.editOpen
  {
    s.(selected := Some(c), viewOpen := true)
  }

  /** The update of one subscription row. */
  datatype SubscriptionUpdate = SubscriptionUpdate(id: string, plan: string, status: string, hoursIncluded: real)

  datatype Call = UpdateSubscription(update: SubscriptionUpdate) | RefetchClients

  datatype Effects = Effects(state: PageState, toast: Option<Toast>, calls: seq<Call>)

  /** `selectedClient?.subscription?.id` is truthy. */
  predicate HasSubscriptionId(s: PageState) {
    s.selected.Some? && s.selected.value.subscription.Some? && s.selected.value.subscription.value.id != ""
  }

  /** `handleSaveEdit`. */
  function SaveEdit(s: PageState, failed: bool): (e: Effects)
    ensures !HasSubscriptionId(s) ==> e == Effects(s, Some(Toast("Error", "No subscription found for this client", true)), [])
    ensures HasSubscriptionId(s) ==> |e.calls| >= 1 && e.calls[0] == UpdateSubscription(SubscriptionUpdate(
      s.selected.value.subscription.value.id, s.form.plan, s.form.status, s.form.hoursIncluded))
    ensures HasSubscriptionId(s) && failed ==>
      e == Effects(s, Some(Toast("Error", "Failed to update client", true)), e.calls) && |e.calls| == 1
    ensures HasSubscriptionId(s) && !failed ==> e.state == s.(editOpen := false) && e.calls[1..] == [RefetchClients]
  {
    if !HasSubscriptionId(s) then
      Effects(s, Some(Toast("Error", "No subscription found for this client", true)), [])
    else
      var call := UpdateSubscription(SubscriptionUpdate(
        s.selected.value.subscription.value.id, s.form.plan, s.form.status, s.form.hoursIncluded));
      if failed then Effects(s, Some(Toast("Error", "Failed to update client", true)), [call])
      else Effects(s.(editOpen := false), Some(Toast("Success", "Client subscription updated", false)), [call, RefetchClients])
  }

  /** The subscriptions table as a map from row id to row. */
  type SubscriptionTable = map<string, ClientSubscription>

  /** The effect of an update on the table: the row with that id gets the
      three new values; nothing else changes. */
  function Apply(t: SubscriptionTable, u: SubscriptionUpdate): (r: SubscriptionTable)
    ensures r.Keys == t.Keys
    ensures forall k :: k in t && k != u.id ==> r[k] == t[k]
    ensures u.id in t ==> r[u.id].id == t[u.id].id && r[u.id].hoursUsed == t[u.id].hoursUsed
    ensures u.id in t ==> r[u.id].plan == u.plan && r[u.id].status == u.status && r[u.id].hoursIncluded == u.hoursIncluded
  {
    if u.id in t then t[u.id := t[u.id].(plan := u.plan, status := u.status, hoursIncluded := u.hoursIncluded)] else t
  }

  /** Opening a client and saving without edits leaves the stored row as it
      was, unless the plan or status was empty or no hours were included, in
      which case the seeded defaults are written. */
  lemma {:induction false} EditSaveRoundTrip(t: SubscriptionTable, c: Client, s: PageState)
    requires c.subscription.Some? && c.subscription.value.id != "" && c.subscription.value.id in t
    requires t[c.subscription.value.id] == c.subscription.value
    ensures var e := SaveEdit(EditClient(s, c), false);
      var after := Apply(t, e.calls[0].update);
      var sub := c.subscription.value;
      after[sub.id] == sub.(plan := StrOr(sub.plan, "Personal"), status := StrOr(sub.status, "trial"),
                            hoursIncluded := NumOr(sub.hoursIncluded, 20.0))
    ensures var sub := c.subscription.value;
      sub.plan != "" && sub.status != "" && sub.hoursIncluded != 0.0 ==>
        Apply(t, SaveEdit(EditClient(s, c), false).calls[0].update) == t
  {
    var sub := c.subscription.value;
    var u := SaveEdit(EditClient(s, c), false).calls[0].update;
    assert u.id == sub.id;
    if sub.plan != "" && sub.status != "" && sub.hoursIncluded != 0.0 {
      assert Apply(t, u)[sub.id] == t[sub.id];
    }
  }

  // ---------------------------------------------------------------------
  // Cells

  /** `client.full_name?.charAt(0) || "?"`. */
  function Avatar(fullName: Option<string>): (r: string)
    ensures |r| == 1
    ensures fullName.None? || fullName.value == "" ==> r == "?"
    ensures fullName.Some? && fullName.value != "" ==> r == [fullName.value[0]]
  {
    if fullName.Some? && fullName.value != "" then [fullName.value[0]] else "?"
  }

  /** `full_name || "Unknown"`. */
  function DisplayName(fullName: Option<string>): (r: string)
    ensures r != ""
    ensures fullName.Some? && fullName.value != "" ==> r == fullName.value
  {
    OptStrOr(fullName, "Unknown")
  }

  /** The hours cell: used (0 when missing) over included (20 when missing). */
  function HoursCell(sub: Option<ClientSubscription>): (r: (real, real))
    ensures sub.None? ==> r == (0.0, 20.0)
    ensures r.1 != 0.0
    ensures sub.Some? ==> r.0 == sub.value.hoursUsed
    ensures sub.Some? && sub.value.hoursIncluded != 0.0 ==> r.1 == sub.value.hoursIncluded
  {
    match sub
    case None => (0.0, 20.0)
    case Some(s) => (NumOr(s.hoursUsed, 0.0), NumOr(s.hoursIncluded, 20.0))
  }

  /** The plan and status cells: "Personal" and "Unknown" without a value. */
  function PlanStatusCells(sub: Option<ClientSubscription>): (r: (string, string))
    ensures r.0 != "" && r.1 != ""
    ensures sub.None? ==> r == ("Personal", "Unknown")
    ensures sub.Some? && sub.value.plan != "" ==> r.0 == sub.value.plan
    ensures sub.Some? && sub.value.status != "" ==> r.1 == sub.value.status
  {
    match sub
    case None => ("Personal", "Unknown")
    case Some(s) => (StrOr(s.plan, "Personal"), StrOr(s.status, "Unknown"))
  }

  /** The edit dialog shows the same plan as the table, but seeds the status
      "trial" where the table shows "Unknown". */
  lemma {:induction false} EditSeedMatchesCells(s: PageState, c: Client)
    ensures EditClient(s, c).form.plan == PlanStatusCells(c.subscription).0
    ensures EditClient(s, c).form.hoursIncluded == HoursCell(c.subscription).1
    ensures c.subscription.None? ==> EditClient(s, c).form.status == "trial" && PlanStatusCells(c.subscription).1 == "Unknown"
  {
  }
}
