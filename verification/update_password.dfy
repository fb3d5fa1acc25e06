/** The password update form shown after a recovery link: the schema with
    its mismatch refinement, the single `updateUser` call, and the switch to
    the confirmation view. */
module UpdatePassword {
  import opened Js
  import opened Text
  import opened Forms
  import Auth

  datatype PasswordForm = PasswordForm(password: string, confirmPassword: string)

  const EmptyForm := PasswordForm("", "")

  /** `passwordSchema`: `min(6)` on the password, then the object-level
      refinement, which still runs when the length check failed. */
  function Issues(f: PasswordForm): (r: seq<Issue>)
    ensures |r| <= 2
    ensures forall i :: 0 <= i < |r| ==> r[i].field in {"password", "confirmPassword"}
  {
    Auth.PasswordIssues(f.password) + Check(f.password == f.confirmPassword, "confirmPassword", Auth.Mismatch)
  }

  predicate Acceptable(f: PasswordForm) {
    JsLength(f.password) >= Auth.MinPasswordLength && f.password == f.confirmPassword
  }

  /** The schema accepts exactly a password of six or more UTF-16 units
      repeated in the confirmation. */
  lemma {:induction false} AcceptsIff(f: PasswordForm)
    ensures Issues(f) == [] <==> Acceptable(f)
  {
    var a := Auth.PasswordIssues(f.password);
    var b := Check(f.password == f.confirmPassword, "confirmPassword", Auth.Mismatch);
    assert |a + b| == |a| + |b|;
  }

  /** Each field shows its own error exactly when its own check fails: a
      short mismatched password shows both. */
  lemma {:induction false} ErrorsPerField(f: PasswordForm)
    ensures var errors := CollectErrors(Issues(f));
      && ("password" in errors <==> JsLength(f.password) < Auth.MinPasswordLength)
      && ("confirmPassword" in errors <==> f.password != f.confirmPassword)
      && ("password" in errors ==> errors["password"] == Auth.ShortPassword)
      && ("confirmPassword" in errors ==> errors["confirmPassword"] == Auth.Mismatch)
  {
    var r := Issues(f);
    var a := Auth.PasswordIssues(f.password);
    var b := Check(f.password == f.confirmPassword, "confirmPassword", Auth.Mismatch);
    assert r == a + b;
    if a != [] {
      assert r[0] == Issue("password", Auth.ShortPassword);
      assert IsLastFor(r, 0);
      ShownMessage(r, 0);
    }
    if b != [] {
      assert r[|r| - 1] == Issue("confirmPassword", Auth.Mismatch);
      ShownMessage(r, |r| - 1);
    }
  }

  datatype State = State(form: PasswordForm, errors: FieldErrors, updated: bool)

  /** What a submission does: the new state, the toast, the password sent
      to `updateUser` if any, and whether the move to `/dashboard` is
      scheduled. */
  datatype Outcome = Outcome(state: State, toast: Option<Toast>, sent: Option<string>, redirect: Option<string>)

  const PasswordUpdated := Toast("Password updated", "Your password has been successfully updated.", false)

  /** `handleSubmit`. `updateError` is the answer of `updateUser`. */
  function Submit(s: State, updateError: Option<string>): (o: Outcome)
    ensures o.sent.Some? <==> Acceptable(s.form)
    ensures o.sent.Some? ==> o.sent.value == s.form.password
    ensures !Acceptable(s.form) ==> o == Outcome(s.(errors := CollectErrors(Issues(s.form))), None, None, None)
    ensures o.state.updated <==> s.updated || (Acceptable(s.form) && updateError.None?)
    ensures o.redirect.Some? <==> Acceptable(s.form) && updateError.None?
    ensures o.redirect.Some? ==> o.redirect.value == "/dashboard" && o.toast == Some(PasswordUpdated)
    ensures Acceptable(s.form) && updateError.Some? ==> o.toast == Some(Toast("Update failed", updateError.value, true))
    ensures Acceptable(s.form) ==> o.state.errors == map[]
    ensures o.state.form == s.form
  {
    AcceptsIff(s.form);
    var issues := Issues(s.form);
    if issues != [] then Outcome(s.(errors := CollectErrors(issues)), None, None, None)
    else
      var cleared := s.(errors := map[]);
      match updateError
      case Some(e) => Outcome(cleared, Some(Toast("Update failed", e, true)), Some(s.form.password), None)
      case None => Outcome(cleared.(updated := true), Some(PasswordUpdated), Some(s.form.password), Some("/dashboard"))
  }

  /** `handleChange`. */
  function Edit(s: State, name: string, value: string): (r: State)
    ensures r.errors == ClearFieldError(s.errors, name) && r.updated == s.updated
    ensures name == "password" ==> r.form == s.form.(password := value)
    ensures name == "confirmPassword" ==> r.form == s.form.(confirmPassword := value)
    ensures name !in {"password", "confirmPassword"} ==> r.form == s.form
  {
    var f := match name
      case "password" => s.form.(password := value)
      case "confirmPassword" => s.form.(confirmPassword := value)
      case _ => s.form;
    s.(form := f, errors := ClearFieldError(s.errors, name))
  }
}
