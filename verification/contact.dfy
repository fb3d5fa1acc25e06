/** The contact form: the zod schema (shared, but for one message, with the
    consultation form), the row it inserts and what the form shows after. */
module Contact {
  import opened Js
  import opened Text
  import opened Forms

  datatype ContactForm = ContactForm(name: string, email: string, phone: string, message: string)

  const EmptyForm := ContactForm("", "", "", "")

  const NameRequired := "Name is required"
  const NameTooLong := "Name must be less than 100 characters"
  const InvalidEmail := "Please enter a valid email"
  const EmailTooLong := "Email must be less than 255 characters"
  const PhoneTooLong := "Phone must be less than 20 characters"
  const MessageRequired := "Message is required"
  const MessageTooLong := "Message must be less than 1000 characters"

  const ContactFields: set<string> := {"name", "email", "phone", "message"}

  /** The name checks on the trimmed value: `min(1)` then `max(100)`, each
      with the form's own message. The profile editor's schema uses the same
      checks under another field name and other messages. */
  function NameIssues(name: string, field: string, required: string, tooLong: string): (r: seq<Issue>)
    ensures r == [] <==> 1 <= JsLength(name) <= 100
    ensures forall i :: 0 <= i < |r| ==> r[i].field == field
    ensures JsLength(name) == 0 ==> r == [Issue(field, required)]
    ensures JsLength(name) > 100 ==> r == [Issue(field, tooLong)]
  {
    Check(JsLength(name) >= 1, field, required) + Check(JsLength(name) <= 100, field, tooLong)
  }

  /** The `email` checks on the trimmed value: the address pattern, then
      `max(255)`. A value failing both reports both, the length last. */
  function EmailIssues(email: string, isEmail: string -> bool): (r: seq<Issue>)
    ensures r == [] <==> isEmail(email) && JsLength(email) <= 255
    ensures forall i :: 0 <= i < |r| ==> r[i].field == "email"
    ensures !isEmail(email) && JsLength(email) > 255 ==> r == [Issue("email", InvalidEmail), Issue("email", EmailTooLong)]
  {
    Check(isEmail(email), "email", InvalidEmail) + Check(JsLength(email) <= 255, "email", EmailTooLong)
  }

  /** The optional `phone` check on the trimmed value: `max(20)`, with the
      form's own message (the profile editor words it differently). */
  function PhoneIssues(phone: string, tooLong: string): (r: seq<Issue>)
    ensures r == [] <==> JsLength(phone) <= 20
    ensures forall i :: 0 <= i < |r| ==> r[i].field == "phone"
    ensures JsLength(phone) > 20 ==> r == [Issue("phone", tooLong)]
  {
    Check(JsLength(phone) <= 20, "phone", tooLong)
  }

  /** The `message` checks on the trimmed value: `min(1)` then `max(1000)`. */
  function MessageIssues(message: string, messageRequired: string): (r: seq<Issue>)
    ensures r == [] <==> 1 <= JsLength(message) <= 1000
    ensures forall i :: 0 <= i < |r| ==> r[i].field == "message"
  {
    Check(JsLength(message) >= 1, "message", messageRequired) + Check(JsLength(message) <= 1000, "message", MessageTooLong)
  }

  /** The schema's issues in zod's order: fields in declaration order, each
      field's checks in order, all run on the trimmed value. Both the
      consultation and the contact form use this schema; they differ only in
      the text reported for a missing message. */
  function Issues(f: ContactForm, isEmail: string -> bool, messageRequired: string): (r: seq<Issue>)
    ensures forall i :: 0 <= i < |r| ==> r[i].field in ContactFields
  {
    var a := NameIssues(Trim(f.name), "name", NameRequired, NameTooLong);
    var b := EmailIssues(Trim(f.email), isEmail);
    var c := PhoneIssues(Trim(f.phone), PhoneTooLong);
    var d := MessageIssues(Trim(f.message), messageRequired);
    FieldsOfJoin(a, b, ContactFields);
    FieldsOfJoin(c, d, ContactFields);
    FieldsOfJoin(a + b, c + d, ContactFields);
    (a + b) + (c + d)
  }

  /** The acceptance rule, stated on its own. */
  predicate Acceptable(f: ContactForm, isEmail: string -> bool) {
    && 1 <= JsLength(Trim(f.name)) <= 100
    && isEmail(Trim(f.email)) && JsLength(Trim(f.email)) <= 255
    && JsLength(Trim(f.phone)) <= 20
    && 1 <= JsLength(Trim(f.message)) <= 1000
  }

  /** The schema accepts exactly the acceptable forms, whatever the text for
      a missing message. */
  lemma {:induction false} AcceptsIff(f: ContactForm, isEmail: string -> bool, messageRequired: string)
    ensures Issues(f, isEmail, messageRequired) == [] <==> Acceptable(f, isEmail)
  {
    var a := NameIssues(Trim(f.name), "name", NameRequired, NameTooLong);
    var b := EmailIssues(Trim(f.email), isEmail);
    var c := PhoneIssues(Trim(f.phone), PhoneTooLong);
    var d := MessageIssues(Trim(f.message), messageRequired);
    assert Issues(f, isEmail, messageRequired) == [] <==> a == [] && b == [] && c == [] && d == [] by {
      assert Issues(f, isEmail, messageRequired) == (a + b) + (c + d);
      NoIssuesIff(a, b, c, d);
    }
  }

  /** Four issue lists joined are empty exactly when each of them is. */
  lemma NoIssuesIff(a: seq<Issue>, b: seq<Issue>, c: seq<Issue>, d: seq<Issue>)
    ensures (a + b) + (c + d) == [] <==> a == [] && b == [] && c == [] && d == []
  {
    assert |(a + b) + (c + d)| == |a| + |b| + |c| + |d|;
  }

  /** A blank name or message is refused, however much whitespace it holds. */
  lemma {:induction false} BlankRefused(f: ContactForm, isEmail: string -> bool, messageRequired: string)
    ensures AllWhitespace(f.name) ==> !Acceptable(f, isEmail)
    ensures AllWhitespace(f.message) ==> !Acceptable(f, isEmail)
  {
    TrimEmptyIff(f.name);
    TrimEmptyIff(f.message);
  }

  /** A trimmed name of exactly 100 characters raises no name issue. */
  lemma {:induction false} HundredCharacterNameAccepted(name: string)
    requires JsLength(Trim(name)) == 100
    ensures NameIssues(Trim(name), "name", NameRequired, NameTooLong) == []
  {
  }

  /** An address that is both malformed and too long shows only the length
      message: both issues are reported and the later one wins the field. */
  lemma {:induction false} LongBadEmailShowsLengthMessage(f: ContactForm, isEmail: string -> bool, messageRequired: string)
    requires !isEmail(Trim(f.email)) && JsLength(Trim(f.email)) > 255
    ensures var shown := CollectErrors(Issues(f, isEmail, messageRequired));
      "email" in shown && shown["email"] == EmailTooLong
  {
    var a := NameIssues(Trim(f.name), "name", NameRequired, NameTooLong);
    var b := EmailIssues(Trim(f.email), isEmail);
    var c := PhoneIssues(Trim(f.phone), PhoneTooLong);
    var d := MessageIssues(Trim(f.message), messageRequired);
    assert Issues(f, isEmail, messageRequired) == (a + [Issue("email", InvalidEmail), Issue("email", EmailTooLong)]) + (c + d);
    var rest: seq<Issue> := c + d;
    assert forall j :: 0 <= j < |rest| ==> rest[j].field != "email" by {
      forall j | 0 <= j < |rest| ensures rest[j].field != "email" {
        if j < |c| { assert rest[j] == c[j]; } else { assert rest[j] == d[j - |c|]; }
      }
    }
    SecondWinsField(a, "email", InvalidEmail, EmailTooLong, rest);
  }

  /** Of two issues for one field followed only by other fields' issues, the
      form shows the second. */
  lemma {:induction false} SecondWinsField(a: seq<Issue>, field: string, first: string, second: string, rest: seq<Issue>)
    requires forall j :: 0 <= j < |rest| ==> rest[j].field != field
    ensures var shown := CollectErrors((a + [Issue(field, first), Issue(field, second)]) + rest);
      field in shown && shown[field] == second
  {
    var r := (a + [Issue(field, first), Issue(field, second)]) + rest;
    SecondIsLast(a, field, first, second, rest);
    ShownMessage(r, |a| + 1);
  }

  /** Of two issues for one field followed only by other fields' issues,
      the second is the last one for that field. */
  lemma {:induction false} SecondIsLast(a: seq<Issue>, field: string, first: string, second: string, rest: seq<Issue>)
    requires forall j :: 0 <= j < |rest| ==> rest[j].field != field
    ensures IsLastFor((a + [Issue(field, first), Issue(field, second)]) + rest, |a| + 1)
    ensures ((a + [Issue(field, first), Issue(field, second)]) + rest)[|a| + 1] == Issue(field, second)
  {
    var r := (a + [Issue(field, first), Issue(field, second)]) + rest;
    var k := |a| + 1;
    var head := a + [Issue(field, first), Issue(field, second)];
    assert r[k] == head[k] == Issue(field, second);
    forall j | k < j < |r| ensures r[j].field != field {
      assert r[j] == rest[j - |head|];
    }
  }

  /** The inserted row. */
  datatype Submission = Submission(name: string, email: string, phone: Option<string>, message: string)

  /** `{ name, email, phone: phone || null, message }` from the parsed
      (trimmed) data. */
  function ToSubmission(f: ContactForm): (p: Submission)
    ensures p.name == Trim(f.name) && p.email == Trim(f.email) && p.message == Trim(f.message)
    ensures p.phone.None? <==> Trim(f.phone) == ""
    ensures p.phone.Some? ==> p.phone.value == Trim(f.phone)
  {
    Submission(Trim(f.name), Trim(f.email), EmptyToNull(Trim(f.phone)), Trim(f.message))
  }

  /** The form filled in again from a stored row. */
  function Refill(p: Submission): (f: ContactForm)
    ensures f.phone == "" <==> p.phone.None? || p.phone == Some("")
  {
    ContactForm(p.name, p.email, NullToEmpty(p.phone), p.message)
  }

  /** The stored row is already in normal form: filling the form with it
      and submitting again stores the same row. */
  lemma {:induction false} SubmissionIsStable(f: ContactForm)
    ensures ToSubmission(Refill(ToSubmission(f))) == ToSubmission(f)
  {
    TrimIdempotent(f.name);
    TrimIdempotent(f.email);
    TrimIdempotent(f.phone);
    TrimIdempotent(f.message);
    assert Refill(ToSubmission(f)) == ContactForm(Trim(f.name), Trim(f.email), Trim(f.phone), Trim(f.message));
  }

  /** A stored row, filled in again, passes the schema again. */
  lemma {:induction false} SubmissionRevalidates(f: ContactForm, isEmail: string -> bool)
    requires Acceptable(f, isEmail)
    ensures Acceptable(Refill(ToSubmission(f)), isEmail)
  {
    var g := Refill(ToSubmission(f));
    TrimIdempotent(f.name);
    TrimIdempotent(f.email);
    TrimIdempotent(f.phone);
    TrimIdempotent(f.message);
    assert g.name == Trim(f.name) && g.email == Trim(f.email) && g.message == Trim(f.message);
    assert g.phone == Trim(f.phone);
    SameTrimSameAcceptance(f, g, isEmail);
  }

  /** Acceptance depends only on the trimmed values. */
  lemma SameTrimSameAcceptance(f: ContactForm, g: ContactForm, isEmail: string -> bool)
    requires Trim(f.name) == Trim(g.name) && Trim(f.email) == Trim(g.email)
    requires Trim(f.phone) == Trim(g.phone) && Trim(f.message) == Trim(g.message)
    ensures Acceptable(f, isEmail) == Acceptable(g, isEmail)
  {
  }

  datatype State = State(form: ContactForm, errors: FieldErrors)

  datatype Outcome = Outcome(state: State, toast: Option<Toast>, inserted: Option<Submission>)

  /** `handleSubmit`. The row is built by `build`, so the consultation form
      can reuse the flow with its own row. A rejected form shows its errors
      and inserts nothing; an accepted one inserts one row and, on success,
      empties the form. Old error entries are left as they were. */
  function SubmitWith(s: State, isEmail: string -> bool, messageRequired: string, build: ContactForm -> Submission,
                      success: Toast, failed: bool): (o: Outcome)
    ensures Issues(s.form, isEmail, messageRequired) != [] ==>
      o == Outcome(s.(errors := CollectErrors(Issues(s.form, isEmail, messageRequired))), None, None)
    ensures Issues(s.form, isEmail, messageRequired) == [] ==> o.inserted == Some(build(s.form)) && o.state.errors == s.errors
    ensures Issues(s.form, isEmail, messageRequired) == [] && !failed ==> o.state.form == EmptyForm && o.toast == Some(success)
    ensures Issues(s.form, isEmail, messageRequired) == [] && failed ==>
      o.state == s && o.toast == Some(Toast("Error", "Something went wrong. Please try again later.", true))
  {
    var issues := Issues(s.form, isEmail, messageRequired);
    if issues != [] then Outcome(s.(errors := CollectErrors(issues)), None, None)
    else if failed then Outcome(s, Some(Toast("Error", "Something went wrong. Please try again later.", true)), Some(build(s.form)))
    else Outcome(s.(form := EmptyForm), Some(success), Some(build(s.form)))
  }

  const Received := Toast("Message Received", "Thank you for reaching out. Our team will contact you within 24 hours.", false)

  /** The contact form's submit. */
  function Submit(s: State, isEmail: string -> bool, failed: bool): (o: Outcome)
    ensures o.inserted.Some? <==> Acceptable(s.form, isEmail)
    ensures o.inserted.Some? ==> o.inserted.value == ToSubmission(s.form)
    ensures o.inserted.Some? ==> o.inserted.value.message == Trim(s.form.message)
  {
    AcceptsIff(s.form, isEmail, MessageRequired);
    SubmitWith(s, isEmail, MessageRequired, ToSubmission, Received, failed)
  }

  /** `handleChange`. */
  function Edit(s: State, name: string, value: string): (r: State)
    ensures r.errors == ClearFieldError(s.errors, name)
    ensures name == "name" ==> r.form == s.form.(name := value)
    ensures name == "email" ==> r.form == s.form.(email := value)
    ensures name == "phone" ==> r.form == s.form.(phone := value)
    ensures name == "message" ==> r.form == s.form.(message := value)
    ensures name !in ContactFields ==> r.form == s.form
  {
    var f := match name
      case "name" => s.form.(name := value)
      case "email" => s.form.(email := value)
      case "phone" => s.form.(phone := value)
      case "message" => s.form.(message := value)
      case _ => s.form;
    State(f, ClearFieldError(s.errors, name))
  }
}
