/** The staff sign-in page: validate, look the address up in the staff
    table, sign in, and on the first successful sign-in bind the staff row
    to the signed-in account. */
module StaffAuth {
  import opened Js
  import opened Text
  import opened Forms
  import Auth

  datatype LoginForm = LoginForm(email: string, password: string)

  /** The staff row found by e-mail (`select("id, email, user_id")`). */
  datatype StaffCheck = StaffCheck(id: string, email: string, userId: Option<string>)

  /** What `signInWithPassword` reports: the signed-in user's id (if the
      answer carries a user), or an error message. */
  datatype SignInAnswer = SignedIn(user: Option<string>) | Failed(message: string)

  datatype Call =
    | LookupStaffByEmail(email: string)
    | SignIn(email: string, password: string)
    | BindUserId(staffId: string, userId: string)

  datatype Outcome = Outcome(errors: FieldErrors, toast: Option<Toast>, redirect: Option<string>, calls: seq<Call>)

  const NotStaff := Toast("Access Denied", "This email is not registered as staff. Please contact your administrator.", true)

  /** `!staffCheck.user_id`: no account is bound yet. */
  predicate Unbound(row: StaffCheck) {
    row.userId.None? || row.userId.value == ""
  }

  /** `handleSubmit`. */
  function Submit(f: LoginForm, isEmail: string -> bool, row: Option<StaffCheck>, answer: SignInAnswer): (o: Outcome)
    ensures Auth.LoginIssues(f.email, f.password, isEmail) != [] ==>
      o == Outcome(CollectErrors(Auth.LoginIssues(f.email, f.password, isEmail)), None, None, [])
    ensures Auth.LoginIssues(f.email, f.password, isEmail) == [] ==>
      o.errors == map[] && |o.calls| >= 1 && o.calls[0] == LookupStaffByEmail(f.email)
    ensures Auth.LoginIssues(f.email, f.password, isEmail) == [] && row.None? ==>
      o == Outcome(map[], Some(NotStaff), None, [LookupStaffByEmail(f.email)])
    ensures Auth.LoginIssues(f.email, f.password, isEmail) == [] && row.Some? ==>
      |o.calls| >= 2 && o.calls[1] == SignIn(f.email, f.password)
    ensures o.redirect.Some? <==> Auth.LoginIssues(f.email, f.password, isEmail) == [] && row.Some? && answer.SignedIn?
    ensures o.redirect.Some? ==> o.redirect.value == "/staff/dashboard"
    ensures Auth.LoginIssues(f.email, f.password, isEmail) == [] && row.Some? && answer.Failed? ==>
      o.toast == Some(Auth.SignInFailedToast(answer.message)) && o.calls == [LookupStaffByEmail(f.email), SignIn(f.email, f.password)]
  {
    var issues := Auth.LoginIssues(f.email, f.password, isEmail);
    if issues != [] then Outcome(CollectErrors(issues), None, None, [])
    else
      match row
      case None => Outcome(map[], Some(NotStaff), None, [LookupStaffByEmail(f.email)])
      case Some(r) =>
        var calls := [LookupStaffByEmail(f.email), SignIn(f.email, f.password)];
        match answer
        case Failed(m) => Outcome(map[], Some(Auth.SignInFailedToast(m)), None, calls)
        case SignedIn(user) =>
          var bind := if Unbound(r) && user.Some? then [BindUserId(r.id, user.value)] else [];
          Outcome(map[], Some(Auth.WelcomeBack), Some("/staff/dashboard"), calls + bind)
  }

  predicate Binds(calls: seq<Call>) {
    exists i :: 0 <= i < |calls| && calls[i].BindUserId?
  }

  /** The backfill happens exactly after a successful sign-in of a valid
      form whose staff row had no account bound, and binds that row to the
      signed-in user; an existing binding is never overwritten. */
  lemma {:induction false} BindOnlyWhenUnbound(f: LoginForm, isEmail: string -> bool, row: Option<StaffCheck>, answer: SignInAnswer)
    ensures var o := Submit(f, isEmail, row, answer);
      Binds(o.calls) <==>
        Auth.LoginIssues(f.email, f.password, isEmail) == [] && row.Some? && answer.SignedIn?
        && Unbound(row.value) && answer.user.Some?
    ensures var o := Submit(f, isEmail, row, answer);
      Binds(o.calls) ==> o.calls == [LookupStaffByEmail(f.email), SignIn(f.email, f.password), BindUserId(row.value.id, answer.user.value)]
  {
    var o := Submit(f, isEmail, row, answer);
    if Binds(o.calls) {
      var i :| 0 <= i < |o.calls| && o.calls[i].BindUserId?;
      assert |o.calls| == 3;
    }
    if Auth.LoginIssues(f.email, f.password, isEmail) == [] && row.Some? && answer.SignedIn?
        && Unbound(row.value) && answer.user.Some? {
      assert o.calls[2].BindUserId?;
    }
  }

  /** Neither a rejected form nor an unknown address reaches sign-in, and a
      failed sign-in binds nothing and stays on the page. */
  lemma {:induction false} NoSignInWithoutStaffRow(f: LoginForm, isEmail: string -> bool, row: Option<StaffCheck>, answer: SignInAnswer)
    ensures var o := Submit(f, isEmail, row, answer);
      (Auth.LoginIssues(f.email, f.password, isEmail) != [] || row.None?) ==>
        forall i :: 0 <= i < |o.calls| ==> !o.calls[i].SignIn? && !o.calls[i].BindUserId?
    ensures var o := Submit(f, isEmail, row, answer);
      answer.Failed? ==> !Binds(o.calls) && o.redirect.None?
  {
  }

  /** The lookup and sign-in use the address as typed: padding that the
      validator trims away is still sent. */
  lemma {:induction false} RawEmailIsUsed(f: LoginForm, isEmail: string -> bool, row: Option<StaffCheck>, answer: SignInAnswer)
    requires Auth.LoginIssues(f.email, f.password, isEmail) == []
    requires Trim(f.email) != f.email
    ensures Submit(f, isEmail, row, answer).calls[0] != LookupStaffByEmail(Trim(f.email))
  {
  }

  /** `checkAuth`: a visitor with a session whose user is bound to a staff
      row goes straight to the staff dashboard. */
  function CheckAuth(sessionUserId: Option<string>, rowForUser: string -> bool): (r: Option<string>)
    ensures r.Some? <==> sessionUserId.Some? && rowForUser(sessionUserId.value)
    ensures r.Some? ==> r.value == "/staff/dashboard"
  {
    if sessionUserId.Some? && rowForUser(sessionUserId.value) then Some("/staff/dashboard") else None
  }

  /** `handleChange`. */
  function Edit(f: LoginForm, errors: FieldErrors, name: string, value: string): (r: (LoginForm, FieldErrors))
    ensures name == "email" ==> r.0 == f.(email := value)
    ensures name == "password" ==> r.0 == f.(password := value)
    ensures name != "email" && name != "password" ==> r.0 == f
    ensures r.1 == ClearFieldError(errors, name)
  {
    var g := if name == "email" then f.(email := value) else if name == "password" then f.(password := value) else f;
    (g, ClearFieldError(errors, name))
  }
}
