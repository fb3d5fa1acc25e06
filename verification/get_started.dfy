/** The consultation request form: the contact schema with its own text for
    a missing message, and a row whose message carries a fixed prefix. */
module GetStarted {
  import opened Js
  import opened Text
  import opened Forms
  import Contact

  const MessageRequired := "Please tell us about your needs"
  const Prefix := "[Consultation Request] "

  /** The inserted row: the contact row with the message prefixed. */
  function ToSubmission(f: Contact.ContactForm): (p: Contact.Submission)
    ensures p.name == Trim(f.name) && p.email == Trim(f.email)
    ensures p.phone.None? <==> Trim(f.phone) == ""
    ensures IsPrefix(Prefix, p.message) && p.message[|Prefix|..] == Trim(f.message)
  {
    var c := Contact.ToSubmission(f);
    c.(message := Prefix + c.message)
  }

  /** The stored message is 23 UTF-16 units longer than the trimmed input. */
  lemma {:induction false} StoredMessageLength(f: Contact.ContactForm)
    ensures JsLength(ToSubmission(f).message) == 23 + JsLength(Trim(f.message))
  {
    var m := Trim(f.message);
    assert ToSubmission(f).message == Prefix + m;
    JsLengthAppend(Prefix, m);
    PrefixLength();
  }

  lemma PrefixLength()
    ensures JsLength(Prefix) == 23
  {
    JsLengthBmp(Prefix);
  }

  /** The two forms accept exactly the same inputs. */
  lemma {:induction false} SameAcceptanceAsContact(f: Contact.ContactForm, isEmail: string -> bool)
    ensures Contact.Issues(f, isEmail, MessageRequired) == [] <==> Contact.Issues(f, isEmail, Contact.MessageRequired) == []
  {
    Contact.AcceptsIff(f, isEmail, MessageRequired);
    Contact.AcceptsIff(f, isEmail, Contact.MessageRequired);
  }

  const Requested := Toast("Consultation Requested!", "We'll reach out within 24 hours to schedule your discovery call.", false)

  /** `handleSubmit`. */
  function Submit(s: Contact.State, isEmail: string -> bool, failed: bool): (o: Contact.Outcome)
    ensures o.inserted.Some? <==> Contact.Acceptable(s.form, isEmail)
    ensures o.inserted.Some? ==> o.inserted.value == ToSubmission(s.form)
    ensures !Contact.Acceptable(s.form, isEmail) ==> o.state.form == s.form
    ensures Contact.Acceptable(s.form, isEmail) && !failed ==> o.state.form == Contact.EmptyForm
  {
    Contact.AcceptsIff(s.form, isEmail, MessageRequired);
    Contact.SubmitWith(s, isEmail, MessageRequired, ToSubmission, Requested, failed)
  }

  /** The consultation row differs from the contact row only by the prefix. */
  lemma {:induction false} DiffersOnlyByPrefix(f: Contact.ContactForm)
    ensures ToSubmission(f) == Contact.ToSubmission(f).(message := Prefix + Contact.ToSubmission(f).message)
  {
  }
}
