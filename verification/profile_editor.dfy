/** The client's profile editor: the avatar upload with its type and size
    guards and storage path, and the name/phone form with its schema and the
    row it saves. */
module ProfileEditor {
  import opened Js
  import opened Text
  import opened Forms
  import Contact

  // ---------------------------------------------------------------------
  // Avatar upload

  /** The selected file: its name, MIME type and size in bytes. */
  datatype File = File(name: string, mimeType: string, size: nat)

  /** Files above 2 MiB are refused. */
  const MaxAvatarBytes := 2 * 1024 * 1024

  const InvalidFileType := Toast("Invalid file type", "Please select an image file.", true)
  const FileTooLarge := Toast("File too large", "Please select an image under 2MB.", true)
  const AvatarUpdated := Toast("Avatar updated", "Your profile picture has been updated.", false)

  /** `${id}/avatar.${name.split(".").pop()}`: one object per user, so a
      new upload replaces the old one. */
  function AvatarPath(profileId: string, fileName: string): (path: string)
    ensures IsPrefix(profileId + "/avatar.", path)
    ensures '.' !in path[|profileId + "/avatar."|..]
    ensures '.' !in fileName ==> path == profileId + "/avatar." + fileName
  {
    profileId + "/avatar." + LastSegment(fileName, '.')
  }

  /** The path ends with the file name's text after its last dot. */
  lemma {:induction false} AvatarPathExtension(profileId: string, fileName: string)
    ensures var ext := AvatarPath(profileId, fileName)[|profileId + "/avatar."|..];
      |ext| <= |fileName| && ext == fileName[|fileName| - |ext|..]
      && (|ext| == |fileName| || fileName[|fileName| - |ext| - 1] == '.')
  {
    LastSegmentIsSuffix(fileName, '.');
    var prefix := profileId + "/avatar.";
    assert (prefix + LastSegment(fileName, '.'))[|prefix|..] == LastSegment(fileName, '.');
  }

  /** The storage answers: an upload error, the public URL of a path, and an
      error from writing `avatar_url`. */
  datatype Storage = Storage(uploadError: Option<string>, publicUrl: string -> string, updateError: Option<string>)

  datatype AvatarCall = Upload(path: string) | SetAvatarUrl(profileId: string, url: string)

  datatype AvatarOutcome = AvatarOutcome(preview: Option<string>, toast: Option<Toast>, calls: seq<AvatarCall>)

  /** The two guards, in order: an image type, then the size. */
  predicate UploadAllowed(file: File) {
    IsPrefix("image/", file.mimeType) && file.size <= MaxAvatarBytes
  }

  /** `handleAvatarChange`. `now` stands for `Date.now()`, appended to the
      preview URL to defeat caching. */
  function ChangeAvatar(profileId: string, file: Option<File>, preview: Option<string>, storage: Storage, now: nat): (o: AvatarOutcome)
    ensures file.None? ==> o == AvatarOutcome(preview, None, [])
    ensures file.Some? && !IsPrefix("image/", file.value.mimeType) ==> o == AvatarOutcome(preview, Some(InvalidFileType), [])
    ensures file.Some? && IsPrefix("image/", file.value.mimeType) && file.value.size > MaxAvatarBytes ==>
      o == AvatarOutcome(preview, Some(FileTooLarge), [])
    ensures |o.calls| > 0 <==> file.Some? && UploadAllowed(file.value)
    ensures |o.calls| > 0 ==> o.calls[0] == Upload(AvatarPath(profileId, file.value.name))
    ensures o.preview != preview ==> |o.calls| == 2 && storage.uploadError.None? && storage.updateError.None?
    ensures |o.calls| == 2 ==> o.calls[1] == SetAvatarUrl(profileId, storage.publicUrl(o.calls[0].path))
    ensures |o.calls| > 0 && storage.uploadError.Some? ==>
      |o.calls| == 1 && o.toast == Some(Toast("Upload failed", storage.uploadError.value, true))
  {
    match file
    case None => AvatarOutcome(preview, None, [])
    case Some(f) =>
      if !IsPrefix("image/", f.mimeType) then AvatarOutcome(preview, Some(InvalidFileType), [])
      else if f.size > MaxAvatarBytes then AvatarOutcome(preview, Some(FileTooLarge), [])
      else
        var path := AvatarPath(profileId, f.name);
        match storage.uploadError
        case Some(e) => AvatarOutcome(preview, Some(Toast("Upload failed", e, true)), [Upload(path)])
        case None =>
          var url := storage.publicUrl(path);
          var calls := [Upload(path), SetAvatarUrl(profileId, url)];
          match storage.updateError
          case Some(e) => AvatarOutcome(preview, Some(Toast("Upload failed", e, true)), calls)
          case None => AvatarOutcome(Some(url + "?t=" + NatToString(now)), Some(AvatarUpdated), calls)
  }

  /** The type guard runs first: a non-image file is refused as such
      whatever its size, and an image of exactly 2 MiB is uploaded. */
  lemma {:induction false} AvatarGuardOrder(profileId: string, f: File, preview: Option<string>, storage: Storage, now: nat)
    ensures !IsPrefix("image/", f.mimeType) ==> ChangeAvatar(profileId, Some(f), preview, storage, now).toast == Some(InvalidFileType)
    ensures IsPrefix("image/", f.mimeType) && f.size == 2097152 ==>
      |ChangeAvatar(profileId, Some(f), preview, storage, now).calls| > 0
  {
  }

  /** A successful upload shows the stored URL with a cache-busting suffix. */
  lemma {:induction false} AvatarPreviewOnSuccess(profileId: string, f: File, preview: Option<string>, storage: Storage, now: nat)
    requires UploadAllowed(f) && storage.uploadError.None? && storage.updateError.None?
    ensures var o := ChangeAvatar(profileId, Some(f), preview, storage, now);
      o.preview.Some? && IsPrefix(storage.publicUrl(AvatarPath(profileId, f.name)) + "?t=", o.preview.value)
      && o.toast == Some(AvatarUpdated)
  {
  }

  // ---------------------------------------------------------------------
  // Name and phone

  datatype ProfileForm = ProfileForm(fullName: string, phone: string)

  const NameRequired := "Name is required"
  const NameTooLong := "Name is too long"
  const PhoneTooLong := "Phone number is too long"

  /** The form seeded from the profile with `value || ""`. */
  function InitialForm(fullName: Option<string>, phone: Option<string>): (f: ProfileForm)
    ensures fullName.Some? ==> f.fullName == fullName.value
    ensures phone.Some? ==> f.phone == phone.value
    ensures fullName.None? ==> f.fullName == ""
    ensures phone.None? ==> f.phone == ""
  {
    ProfileForm(NullToEmpty(fullName), NullToEmpty(phone))
  }

  /** `profileSchema`, fields in declaration order. */
  function Issues(f: ProfileForm): (r: seq<Issue>)
    ensures forall i :: 0 <= i < |r| ==> r[i].field in {"full_name", "phone"}
  {
    Contact.NameIssues(Trim(f.fullName), "full_name", NameRequired, NameTooLong) + Contact.PhoneIssues(Trim(f.phone), PhoneTooLong)
  }

  predicate Acceptable(f: ProfileForm) {
    1 <= JsLength(Trim(f.fullName)) <= 100 && JsLength(Trim(f.phone)) <= 20
  }

  /** The schema accepts exactly the acceptable forms. */
  lemma {:induction false} AcceptsIff(f: ProfileForm)
    ensures Issues(f) == [] <==> Acceptable(f)
  {
    var a := Contact.NameIssues(Trim(f.fullName), "full_name", NameRequired, NameTooLong);
    var b := Contact.PhoneIssues(Trim(f.phone), PhoneTooLong);
    assert |a + b| == |a| + |b|;
  }

  /** A blank name is refused. */
  lemma {:induction false} BlankNameRefused(f: ProfileForm)
    requires AllWhitespace(f.fullName)
    ensures !Acceptable(f)
  {
    TrimEmptyIff(f.fullName);
  }

  /** The saved columns. */
  datatype ProfileUpdate = ProfileUpdate(fullName: string, phone: Option<string>)

  /** `{ full_name: formData.full_name, phone: formData.phone || null }`:
      the raw form values, not the trimmed ones the schema checked. */
  function ToUpdate(f: ProfileForm): (u: ProfileUpdate)
    ensures u.fullName == f.fullName
    ensures u.phone.None? <==> f.phone == ""
    ensures u.phone.Some? ==> u.phone.value == f.phone
  {
    ProfileUpdate(f.fullName, EmptyToNull(f.phone))
  }

  /** Saving an untouched form writes the profile back as it was, except that
      an empty phone becomes null. */
  lemma {:induction false} UntouchedSaveRoundTrip(fullName: string, phone: Option<string>)
    ensures ToUpdate(InitialForm(Some(fullName), phone)) == ProfileUpdate(fullName, if phone == Some("") then None else phone)
  {
    NullRoundTrip(phone);
  }

  /** The name is saved untrimmed: surrounding spaces pass the schema and are
      stored. */
  lemma {:induction false} NameSavedUntrimmed(f: ProfileForm)
    requires Acceptable(f) && f.fullName != Trim(f.fullName)
    ensures ToUpdate(f).fullName != Trim(f.fullName)
  {
  }

  datatype State = State(form: ProfileForm, errors: FieldErrors)

  datatype Outcome = Outcome(state: State, toast: Option<Toast>, update: Option<ProfileUpdate>, notified: bool)

  const ProfileUpdated := Toast("Profile updated", "Your profile has been successfully updated.", false)

  /** `handleSubmit`. Errors are cleared first; a rejected form shows its
      errors and saves nothing; a failed save shows the error; a successful
      one calls `onUpdate`, the page's data refetch, and the editor stays
      open with the values as typed. */
  function Submit(s: State, updateError: Option<string>): (o: Outcome)
    ensures o.update.Some? <==> Acceptable(s.form)
    ensures o.update.Some? ==> o.update.value == ToUpdate(s.form) && o.state.errors == map[]
    ensures !Acceptable(s.form) ==> o.state.errors == CollectErrors(Issues(s.form)) && o.toast.None? && |o.state.errors| > 0
    ensures o.state.form == s.form
    ensures o.notified <==> Acceptable(s.form) && updateError.None?
    ensures Acceptable(s.form) && updateError.Some? ==> o.toast == Some(Toast("Update failed", updateError.value, true))
  {
    AcceptsIff(s.form);
    var issues := Issues(s.form);
    if issues != [] then Outcome(s.(errors := CollectErrors(issues)), None, None, false)
    else
      var cleared := s.(errors := map[]);
      match updateError
      case Some(e) => Outcome(cleared, Some(Toast("Update failed", e, true)), Some(ToUpdate(s.form)), false)
      case None => Outcome(cleared, Some(ProfileUpdated), Some(ToUpdate(s.form)), true)
  }

  /** `handleChange`. */
  function Edit(s: State, name: string, value: string): (r: State)
    ensures r.errors == ClearFieldError(s.errors, name)
    ensures name == "full_name" ==> r.form == s.form.(fullName := value)
    ensures name == "phone" ==> r.form == s.form.(phone := value)
    ensures name !in {"full_name", "phone"} ==> r.form == s.form
  {
    var f := match name
      case "full_name" => s.form.(fullName := value)
      case "phone" => s.form.(phone := value)
      case _ => s.form;
    State(f, ClearFieldError(s.errors, name))
  }
}
