/** The client sign-in / sign-up page: the two zod schemas, the error map
    they produce, the sign-in and sign-up error messages, field editing and
    the mode toggle. */
module Auth {
  import opened Js
  import opened Text
  import opened Forms

  datatype AuthForm = AuthForm(fullName: string, email: string, password: string, confirmPassword: string)

  const EmptyForm := AuthForm("", "", "", "")

  const InvalidEmail := "Please enter a valid email"
  const ShortPassword := "Password must be at least 6 characters"
  const NameRequired := "Full name is required"
  /** zod's own message for `.max(100)` without a custom one. */
  const NameTooLong := "String must contain at most 100 character(s)"
  const Mismatch := "Passwords don't match"
  const MinPasswordLength: nat := 6
  const AuthFields: set<string> := {"fullName", "email", "password", "confirmPassword"}

  /** `z.string().trim().email(...)`: the address is checked after trimming;
      the check itself is the library's and is a parameter here. */
  function EmailIssues(email: string, isEmail: string -> bool): (r: seq<Issue>)
    ensures |r| <= 1
    ensures r == [] <==> isEmail(Trim(email))
    ensures forall i :: 0 <= i < |r| ==> r[i] == Issue("email", InvalidEmail)
  {
    Check(isEmail(Trim(email)), "email", InvalidEmail)
  }

  /** `z.string().min(6, ...)` on the untrimmed password; `.length` counts
      UTF-16 code units. */
  function PasswordIssues(password: string): (r: seq<Issue>)
    ensures r == [] <==> JsLength(password) >= MinPasswordLength
    ensures forall i :: 0 <= i < |r| ==> r[i] == Issue("password", ShortPassword)
  {
    Check(JsLength(password) >= MinPasswordLength, "password", ShortPassword)
  }

  /** `loginSchema`, also used by the staff sign-in page. */
  function LoginIssues(email: string, password: string, isEmail: string -> bool): (r: seq<Issue>)
    ensures forall i :: 0 <= i < |r| ==> r[i].field in {"email", "password"}
  {
    EmailIssues(email, isEmail) + PasswordIssues(password)
  }

  /** The login form is accepted exactly for a valid trimmed address and an
      untrimmed password of at least six characters. */
  lemma {:induction false} LoginAcceptsIff(email: string, password: string, isEmail: string -> bool)
    ensures LoginIssues(email, password, isEmail) == [] <==> isEmail(Trim(email)) && JsLength(password) >= MinPasswordLength
  {
    var a := EmailIssues(email, isEmail);
    var b := PasswordIssues(password);
    assert |a + b| == |a| + |b|;
  }

  /** `fullName: z.string().trim().min(1, ...).max(100, ...)` on the trimmed name. */
  function NameIssues(name: string): (r: seq<Issue>)
    ensures r == [] <==> 1 <= JsLength(name) <= 100
    ensures forall i :: 0 <= i < |r| ==> r[i].field == "fullName"
    ensures JsLength(name) == 0 ==> |r| >= 1 && r[0] == Issue("fullName", NameRequired)
  {
    Check(JsLength(name) >= 1, "fullName", NameRequired) + Check(JsLength(name) <= 100, "fullName", NameTooLong)
  }

  /** The field checks of `signupSchema`, in declaration order. */
  function FieldIssues(f: AuthForm, isEmail: string -> bool): (r: seq<Issue>)
    ensures r == [] <==>
      && 1 <= JsLength(Trim(f.fullName)) <= 100
      && isEmail(Trim(f.email))
      && JsLength(f.password) >= MinPasswordLength
    ensures forall i :: 0 <= i < |r| ==> r[i].field in {"fullName", "email", "password"}
    ensures JsLength(Trim(f.fullName)) == 0 ==> |r| >= 1 && r[0] == Issue("fullName", NameRequired)
  {
    var a := NameIssues(Trim(f.fullName));
    var b := EmailIssues(f.email, isEmail);
    var c := PasswordIssues(f.password);
    assert |a + b + c| == |a| + |b| + |c|;
    assert |a| >= 1 ==> (a + b + c)[0] == a[0];
    a + b + c
  }

  /** `signupSchema`: the field checks, then the object-level refinement.
      String checks never abort the object, so the refinement runs even when
      a field check failed. */
  function SignupIssues(f: AuthForm, isEmail: string -> bool): (r: seq<Issue>)
    ensures |r| >= 1 && r[|r| - 1].field == "confirmPassword" <==> f.password != f.confirmPassword
    ensures forall i :: 0 <= i < |r| - 1 ==> r[i].field != "confirmPassword"
    ensures forall i :: 0 <= i < |r| ==> r[i].field in AuthFields
  {
    FieldIssues(f, isEmail) + Check(f.password == f.confirmPassword, "confirmPassword", Mismatch)
  }

  /** Sign-up is accepted exactly when the trimmed name has 1 to 100
      characters, the trimmed address is valid, the password has at least
      six characters and the confirmation repeats it. */
  lemma {:induction false} SignupAcceptsIff(f: AuthForm, isEmail: string -> bool)
    ensures SignupIssues(f, isEmail) == [] <==>
      && 1 <= JsLength(Trim(f.fullName)) <= 100
      && isEmail(Trim(f.email))
      && JsLength(f.password) >= MinPasswordLength
      && f.password == f.confirmPassword
  {
    var fields := FieldIssues(f, isEmail);
    var e := Check(f.password == f.confirmPassword, "confirmPassword", Mismatch);
    assert SignupIssues(f, isEmail) == fields + e;
    assert |fields + e| == |fields| + |e|;
  }

  /** A mismatch is reported under `confirmPassword`, and nothing else is. */
  lemma {:induction false} MismatchReportedOnConfirm(f: AuthForm, isEmail: string -> bool)
    ensures var errors := CollectErrors(SignupIssues(f, isEmail));
      ("confirmPassword" in errors <==> f.password != f.confirmPassword)
      && (f.password != f.confirmPassword ==> errors["confirmPassword"] == Mismatch)
  {
    var r := SignupIssues(f, isEmail);
    var errors := CollectErrors(r);
    if f.password != f.confirmPassword {
      assert IsLastFor(r, |r| - 1);
      assert r[|r| - 1] == Issue("confirmPassword", Mismatch);
    }
    if "confirmPassword" in errors {
      var i :| 0 <= i < |r| && r[i].field == "confirmPassword";
    }
  }

  /** A name of nothing but whitespace is refused as missing. */
  lemma {:induction false} BlankNameRefused(f: AuthForm, isEmail: string -> bool)
    requires AllWhitespace(f.fullName)
    ensures "fullName" in CollectErrors(SignupIssues(f, isEmail))
  {
    TrimEmptyIff(f.fullName);
    var fields := FieldIssues(f, isEmail);
    var r := SignupIssues(f, isEmail);
    assert r[0] == fields[0] == Issue("fullName", NameRequired);
  }

  // ---------------------------------------------------------------------
  // Messages

  const InvalidCredentials := "Invalid login credentials"
  const FriendlyInvalidCredentials := "Invalid email or password. Please try again."

  /** The sign-in failure text: the backend's "Invalid login credentials"
      is replaced, anything else is shown as it came. */
  function SignInFailureMessage(message: string): (r: string)
    ensures message == InvalidCredentials ==> r == FriendlyInvalidCredentials
    ensures message != InvalidCredentials ==> r == message
  {
    if message == InvalidCredentials then FriendlyInvalidCredentials else message
  }

  /** Rewording is stable: the friendly text is never reworded again. */
  lemma SignInFailureMessageStable(message: string)
    ensures SignInFailureMessage(SignInFailureMessage(message)) == SignInFailureMessage(message)
  {
  }

  function SignInFailedToast(message: string): Toast {
    Toast("Sign in failed", SignInFailureMessage(message), true)
  }

  const WelcomeBack := Toast("Welcome back!", "You have successfully signed in.", false)

  /** The sign-up failure toast: any message mentioning "already registered"
      becomes the "Account exists" toast, others are shown as they came. */
  function SignUpFailedToast(message: string): (t: Toast)
    ensures t.destructive
    ensures Contains(message, "already registered") ==>
      t == Toast("Account exists", "An account with this email already exists. Please sign in instead.", true)
    ensures !Contains(message, "already registered") ==> t == Toast("Sign up failed", message, true)
  {
    if Contains(message, "already registered") then
      Toast("Account exists", "An account with this email already exists. Please sign in instead.", true)
    else
      Toast("Sign up failed", message, true)
  }

  /** The phrase may stand anywhere in the backend's message. */
  lemma {:induction false} AlreadyRegisteredAnywhere(before: string, after: string)
    ensures SignUpFailedToast(before + "already registered" + after).title == "Account exists"
  {
    var m := before + "already registered" + after;
    assert m[|before|..|before| + 18] == "already registered";
    assert OccursAt(m, "already registered", |before|);
    ContainsIff(m, "already registered");
  }

  // ---------------------------------------------------------------------
  // The page

  datatype AuthState = AuthState(isLogin: bool, form: AuthForm, errors: FieldErrors)

  /** What `signIn` / `signUp` report: success or an error message. */
  datatype Answer = Ok | Failed(message: string)

  datatype Call = SignIn(email: string, password: string) | SignUp(email: string, password: string, fullName: string)

  datatype Outcome = Outcome(state: AuthState, toast: Option<Toast>, redirect: Option<string>, calls: seq<Call>)

  function Issues(s: AuthState, isEmail: string -> bool): seq<Issue> {
    if s.isLogin then LoginIssues(s.form.email, s.form.password, isEmail) else SignupIssues(s.form, isEmail)
  }

  /** `handleSubmit`: the errors are cleared, the form validated; an invalid
      form only shows its errors, a valid one calls the backend with the
      raw (untrimmed) inputs. */
  function Submit(s: AuthState, isEmail: string -> bool, answer: Answer): (o: Outcome)
    ensures Issues(s, isEmail) != [] ==> o == Outcome(s.(errors := CollectErrors(Issues(s, isEmail))), None, None, [])
    ensures Issues(s, isEmail) == [] ==> o.state == s.(errors := map[])
    ensures Issues(s, isEmail) == [] && s.isLogin ==> o.calls == [SignIn(s.form.email, s.form.password)]
    ensures Issues(s, isEmail) == [] && !s.isLogin ==> o.calls == [SignUp(s.form.email, s.form.password, s.form.fullName)]
    ensures o.redirect.Some? <==> Issues(s, isEmail) == [] && answer == Ok
    ensures o.redirect.Some? ==> o.redirect.value == "/dashboard"
    ensures Issues(s, isEmail) == [] && answer.Failed? && s.isLogin ==> o.toast == Some(SignInFailedToast(answer.message))
    ensures Issues(s, isEmail) == [] && answer.Failed? && !s.isLogin ==> o.toast == Some(SignUpFailedToast(answer.message))
  {
    var issues := Issues(s, isEmail);
    if issues != [] then
      Outcome(s.(errors := CollectErrors(issues)), None, None, [])
    else
      var cleared := s.(errors := map[]);
      if s.isLogin then
        var call := [SignIn(s.form.email, s.form.password)];
        match answer
        case Failed(m) => Outcome(cleared, Some(SignInFailedToast(m)), None, call)
        case Ok => Outcome(cleared, Some(WelcomeBack), Some("/dashboard"), call)
      else
        var call := [SignUp(s.form.email, s.form.password, s.form.fullName)];
        match answer
        case Failed(m) => Outcome(cleared, Some(SignUpFailedToast(m)), None, call)
        case Ok => Outcome(cleared, Some(Toast("Account created!", "Welcome to VA Agency. Your 15-day trial has started.", false)),
                           Some("/dashboard"), call)
  }

  /** A rejected form shows an error under every field with an issue and
      under no other field, and reaches no backend. */
  lemma {:induction false} RejectedFormShowsErrors(s: AuthState, isEmail: string -> bool, answer: Answer)
    requires Issues(s, isEmail) != []
    ensures var o := Submit(s, isEmail, answer);
      o.calls == [] && |o.state.errors| > 0
      && forall k :: k in o.state.errors ==> k in AuthFields
  {
    var issues := Issues(s, isEmail);
    var errors := CollectErrors(issues);
    assert forall i :: 0 <= i < |issues| ==> issues[i].field in AuthFields;
    forall k | k in errors ensures k in AuthFields {
      var i :| 0 <= i < |issues| && issues[i].field == k;
    }
  }

  /** `handleChange` on the input named `name`. */
  function Edit(s: AuthState, name: string, value: string): (r: AuthState)
    ensures r.isLogin == s.isLogin
    ensures r.errors == ClearFieldError(s.errors, name)
    ensures name == "fullName" ==> r.form == s.form.(fullName := value)
    ensures name == "email" ==> r.form == s.form.(email := value)
    ensures name == "password" ==> r.form == s.form.(password := value)
    ensures name == "confirmPassword" ==> r.form == s.form.(confirmPassword := value)
    ensures name !in {"fullName", "email", "password", "confirmPassword"} ==> r.form == s.form
  {
    var f := match name
      case "fullName" => s.form.(fullName := value)
      case "email" => s.form.(email := value)
      case "password" => s.form.(password := value)
      case "confirmPassword" => s.form.(confirmPassword := value)
      case _ => s.form;
    s.(form := f, errors := ClearFieldError(s.errors, name))
  }

  /** Editing a field silences only that field's error. */
  lemma {:induction false} EditClearsOnlyThatField(s: AuthState, name: string, value: string)
    ensures var r := Edit(s, name, value);
      (name in r.errors ==> r.errors[name] == "")
      && forall k :: k in s.errors && k != name ==> k in r.errors && r.errors[k] == s.errors[k]
  {
  }

  /** The "Sign Up" / "Sign In" link. */
  function Toggle(s: AuthState): (r: AuthState)
    ensures r.isLogin == !s.isLogin
    ensures r.errors == map[] && r.form == EmptyForm
  {
    AuthState(!s.isLogin, EmptyForm, map[])
  }

  /** Toggling twice returns to the original mode with a blank form. */
  lemma ToggleTwice(s: AuthState)
    ensures Toggle(Toggle(s)) == AuthState(s.isLogin, EmptyForm, map[])
  {
  }

  /** A signed-in visitor is sent to the dashboard once the session is known. */
  function SessionRedirect(loading: bool, signedIn: bool): (r: Option<string>)
    ensures r.Some? <==> !loading && signedIn
    ensures r.Some? ==> r.value == "/dashboard"
  {
    if !loading && signedIn then Some("/dashboard") else None
  }
}
