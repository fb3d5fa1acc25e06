/** The client's task request form: the sign-in and required-field guards,
    the `tasks` row it inserts, and the form reset after a successful insert. */
module TaskRequestForm {
  import opened Js
  import opened Text
  import opened Forms

  datatype TaskForm = TaskForm(title: string, category: string, priority: string, dueDate: string,
                               estimatedHours: string, description: string)

  /** The initial form, and the form after a successful request. */
  const DefaultForm := TaskForm("", "", "medium", "", "", "")

  /** The categories the select offers. */
  const Categories := ["Calendar Management", "Email Management", "Research", "Data Entry", "Travel Planning",
                       "Social Media", "Document Preparation", "Personal Errands", "Other"]

  const DefaultCategory := "General"

  const NotSignedIn := Toast("Error", "You must be logged in to submit a task.", true)
  const RequiredFields := Toast("Required Fields", "Please fill in the title and description.", true)
  const TaskSubmitted := Toast("Task Submitted!", "Your virtual assistant will start working on this task soon.", false)
  const InsertFallback := "Failed to submit task. Please try again."

  /** The message of the `RangeError` that `toISOString` throws for an
      unparseable date. */
  const InvalidTimeValue := "Invalid time value"

  /** The inserted `tasks` row. */
  datatype NewTask = NewTask(clientId: string, title: string, description: string, priority: string, status: string,
                             dueDate: Option<string>, hoursEstimated: Option<real>)

  /** Conversions the form delegates to the JavaScript runtime:
      `new Date(s).toISOString()` (None when it throws) and `parseFloat`. */
  datatype Runtime = Runtime(toIso: string -> Option<string>, parseFloat: string -> real)

  /** `[${category || "General"}] ${description.trim()}`. */
  function StoredDescription(category: string, description: string): (r: string)
    ensures category != "" ==> IsPrefix("[" + category + "] ", r)
    ensures category == "" ==> IsPrefix("[General] ", r)
    ensures IsPrefix("[", r) && |Trim(description)| < |r| && r[|r| - |Trim(description)|..] == Trim(description)
  {
    var head := "[" + StrOr(category, DefaultCategory) + "] ";
    var d := Trim(description);
    assert (head + d)[..|head|] == head;
    assert (head + d)[|head|..] == d;
    head + d
  }

  /** Reads a stored description back: the text between the leading `[` and
      the first `"] "`, and everything after it. */
  function ParseDescription(s: string): (r: Option<(string, string)>)
    ensures r.Some? ==> s == "[" + r.value.0 + "] " + r.value.1
  {
    if |s| == 0 || s[0] != '[' then None
    else
      var body := s[1..];
      match IndexOf(body, "] ")
      case None => None
      case Some(i) =>
        assert body[i..i + 2] == "] ";
        assert body == body[..i] + "] " + body[i + 2..];
        assert s == [s[0]] + body;
        Some((body[..i], body[i + 2..]))
  }

  /** The first `"] "` in `c + "] " + d` is the one after `c` when `c` has no `]`. */
  lemma {:induction false} FirstCloseAfterCategory(c: string, d: string)
    requires ']' !in c
    ensures IndexOf(c + "] " + d, "] ") == Some(|c|)
  {
    var s := c + "] " + d;
    assert s[|c|..|c| + 2] == "] ";
    assert OccursAt(s, "] ", |c|);
    forall k | 0 <= k < |c| ensures !OccursAt(s, "] ", k) {
      assert s[k] == c[k];
      if k + 2 <= |s| {
        assert s[k..k + 2][0] == s[k];
      }
    }
  }

  /** A category without `]` and any text after `"] "` are read back as they were. */
  lemma {:induction false} ParseBracketed(c: string, d: string)
    requires ']' !in c
    ensures ParseDescription("[" + c + "] " + d) == Some((c, d))
  {
    var s := "[" + c + "] " + d;
    assert s[1..] == c + "] " + d;
    assert IndexOf(s[1..], "] ") == Some(|c|) by { FirstCloseAfterCategory(c, d); }
    assert (c + "] " + d)[..|c|] == c;
    assert (c + "] " + d)[|c| + 2..] == d;
  }

  /** The stored description can be read back: the category shown (or
      "General") and the trimmed description, for every category without a
      `]` — which includes every category the select offers. */
  lemma {:induction false} DescriptionRoundTrip(category: string, description: string)
    requires ']' !in category
    ensures ParseDescription(StoredDescription(category, description)) == Some((StrOr(category, DefaultCategory), Trim(description)))
  {
    var c := StrOr(category, DefaultCategory);
    assert ']' !in c by { assert ']' !in DefaultCategory; }
    assert StoredDescription(category, description) == "[" + c + "] " + Trim(description);
    ParseBracketed(c, Trim(description));
  }

  /** Every category the select offers is read back from the stored
      description, with the trimmed description. */
  lemma {:induction false} OfferedCategoriesReadBack(i: nat, description: string)
    requires i < |Categories|
    ensures ParseDescription(StoredDescription(Categories[i], description)) == Some((Categories[i], Trim(description)))
  {
    var c := Categories[i];
    assert forall k :: 0 <= k < |c| ==> c[k] != ']';
    DescriptionRoundTrip(c, description);
  }

  /** The inserted row, or None when the due date cannot be converted. */
  function ToNewTask(clientId: string, f: TaskForm, rt: Runtime): (r: Option<NewTask>)
    ensures r.None? <==> f.dueDate != "" && rt.toIso(f.dueDate).None?
    ensures r.Some? ==> r.value.clientId == clientId && r.value.title == Trim(f.title) && r.value.status == "pending"
    ensures r.Some? ==> r.value.priority == f.priority
    ensures r.Some? ==> r.value.description == StoredDescription(f.category, f.description)
    ensures r.Some? ==> (r.value.dueDate.None? <==> f.dueDate == "")
    ensures r.Some? ==> (r.value.hoursEstimated.None? <==> f.estimatedHours == "")
    ensures r.Some? && f.estimatedHours != "" ==> r.value.hoursEstimated == Some(rt.parseFloat(f.estimatedHours))
  {
    var due := if f.dueDate == "" then Some(None) else match rt.toIso(f.dueDate) case None => None case Some(d) => Some(Some(d));
    match due
    case None => None
    case Some(d) =>
      var hours := if f.estimatedHours == "" then None else Some(rt.parseFloat(f.estimatedHours));
      Some(NewTask(clientId, Trim(f.title), StoredDescription(f.category, f.description), f.priority, "pending", d, hours))
  }

  datatype Outcome = Outcome(form: TaskForm, toast: Toast, inserted: Option<NewTask>, notified: bool)

  /** The two guards the form checks before building the row. */
  predicate Submittable(user: Option<string>, f: TaskForm) {
    user.Some? && Trim(f.title) != "" && Trim(f.description) != ""
  }

  /** `handleSubmit`. `insertError` is the insert's answer: None for
      success, else the error's message. */
  function Submit(user: Option<string>, f: TaskForm, rt: Runtime, insertError: Option<string>): (o: Outcome)
    ensures user.None? ==> o == Outcome(f, NotSignedIn, None, false)
    ensures user.Some? && (Trim(f.title) == "" || Trim(f.description) == "") ==> o == Outcome(f, RequiredFields, None, false)
    ensures o.inserted.Some? <==> Submittable(user, f) && ToNewTask(user.value, f, rt).Some?
    ensures o.inserted.Some? ==> o.inserted == ToNewTask(user.value, f, rt)
    ensures o.notified <==> o.inserted.Some? && insertError.None?
    ensures o.notified ==> o.form == DefaultForm && o.toast == TaskSubmitted
    ensures !o.notified ==> o.form == f && o.toast.destructive
    ensures o.inserted.Some? && insertError.Some? ==> o.toast.description == StrOr(insertError.value, InsertFallback)
  {
    if user.None? then Outcome(f, NotSignedIn, None, false)
    else if Trim(f.title) == "" || Trim(f.description) == "" then Outcome(f, RequiredFields, None, false)
    else
      match ToNewTask(user.value, f, rt)
      case None => Outcome(f, Toast("Error", StrOr(InvalidTimeValue, InsertFallback), true), None, false)
      case Some(row) =>
        match insertError
        case Some(e) => Outcome(f, Toast("Error", StrOr(e, InsertFallback), true), Some(row), false)
        case None => Outcome(DefaultForm, TaskSubmitted, Some(row), true)
  }

  /** A whitespace-only title or description is refused before any insert. */
  lemma {:induction false} BlankFieldsRefused(user: Option<string>, f: TaskForm, rt: Runtime, insertError: Option<string>)
    requires AllWhitespace(f.title) || AllWhitespace(f.description)
    ensures Submit(user, f, rt, insertError).inserted.None?
  {
    TrimEmptyIff(f.title);
    TrimEmptyIff(f.description);
  }

  /** An error with an empty message falls back to the generic text. */
  lemma {:induction false} EmptyErrorMessageFallsBack(user: Option<string>, f: TaskForm, rt: Runtime)
    requires Submittable(user, f) && ToNewTask(user.value, f, rt).Some?
    ensures Submit(user, f, rt, Some("")).toast == Toast("Error", InsertFallback, true)
  {
  }
}
