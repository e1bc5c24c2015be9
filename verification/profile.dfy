/** The submit handler of `Profile.js`: the optional password change is
    checked, the update payload is built, `updateProfile` merges it into the
    stored user, and on success the password fields are cleared. */
module Profile {
  import opened Results
  import AuthService

  datatype ProfileForm = ProfileForm(
    fullName: string,
    email: string,
    currentPassword: string,
    newPassword: string,
    confirmPassword: string)

  const CurrentPasswordRequired := "Current password is required to change password"
  const PasswordsDiffer := "New passwords do not match"
  const UpdateFailed := "Failed to update profile"
  const Updated := "Profile updated successfully"

  /** The password checks, run only when a new password is typed: the
      message of the first that fails, or `None`. */
  function CheckPasswords(form: ProfileForm): (r: Option<string>)
    ensures form.newPassword == "" ==> r.None?
    ensures r.None? <==> form.newPassword == "" || (form.currentPassword != "" && form.newPassword == form.confirmPassword)
    ensures form.newPassword != "" && form.currentPassword == "" ==> r == Some(CurrentPasswordRequired)
    ensures form.newPassword != "" && form.currentPassword != "" && form.newPassword != form.confirmPassword ==>
      r == Some(PasswordsDiffer)
  {
    if form.newPassword != "" then
      if form.currentPassword == "" then Some(CurrentPasswordRequired)
      else if form.newPassword != form.confirmPassword then Some(PasswordsDiffer)
      else None
    else None
  }

  /** The object sent to `updateProfile`: name and email, plus the current
      and new password when a new password is typed. The confirmation is
      never sent. */
  function Payload(form: ProfileForm): (p: AuthService.Object)
    ensures "fullName" in p && p["fullName"] == AuthService.Str(form.fullName)
    ensures "email" in p && p["email"] == AuthService.Str(form.email)
    ensures "confirmPassword" !in p
    ensures form.newPassword == "" ==> p.Keys == {"fullName", "email"}
    ensures form.newPassword != "" ==>
      && p.Keys == {"fullName", "email", "currentPassword", "newPassword"}
      && p["currentPassword"] == AuthService.Str(form.currentPassword)
      && p["newPassword"] == AuthService.Str(form.newPassword)
  {
    var base := map["fullName" := AuthService.Str(form.fullName), "email" := AuthService.Str(form.email)];
    if form.newPassword != "" then
      base["currentPassword" := AuthService.Str(form.currentPassword)]["newPassword" := AuthService.Str(form.newPassword)]
    else base
  }

  /** What the handler leaves behind. */
  datatype ProfileState = ProfileState(form: ProfileForm, storage: AuthService.Storage, message: string, error: string)

  /** `handleSubmit` against the browser storage. */
  function HandleSubmit(form: ProfileForm, storage: AuthService.Storage): (r: ProfileState)
    ensures CheckPasswords(form).Some? ==>
      r == ProfileState(form, storage, "", CheckPasswords(form).value)
    ensures CheckPasswords(form).None? && AuthService.CurrentUser(storage).None? ==>
      r == ProfileState(form, storage, "", UpdateFailed)
    ensures CheckPasswords(form).None? && AuthService.CurrentUser(storage).Some? ==> r.error == ""
    ensures r.error == "" ==>
      && CheckPasswords(form).None?
      && r.message == Updated
      && r.form == form.(currentPassword := "", newPassword := "", confirmPassword := "")
      && r.storage == AuthService.UpdateProfile(storage, Payload(form)).state
  {
    match CheckPasswords(form)
    case Some(message) => ProfileState(form, storage, "", message)
    case None =>
      var step := AuthService.UpdateProfile(storage, Payload(form));
      if step.result.Err? then ProfileState(form, storage, "", UpdateFailed)
      else ProfileState(form.(currentPassword := "", newPassword := "", confirmPassword := ""), step.state, Updated, "")
  }

  /** A successful submit keeps the name and email just typed in the form,
      and the stored user then carries them. */
  lemma SuccessKeepsNameAndEmail(form: ProfileForm, storage: AuthService.Storage)
    requires HandleSubmit(form, storage).error == ""
    ensures var r := HandleSubmit(form, storage);
      && r.form.fullName == form.fullName && r.form.email == form.email
      && r.form.currentPassword == "" && r.form.newPassword == "" && r.form.confirmPassword == ""
      && AuthService.CurrentUser(r.storage).Some?
      && AuthService.CurrentUser(r.storage).value["fullName"] == AuthService.Str(form.fullName)
      && AuthService.CurrentUser(r.storage).value["email"] == AuthService.Str(form.email)
  {
    var step := AuthService.UpdateProfile(storage, Payload(form));
    assert step.result.Ok?;
  }

  /** The mock merge writes the typed passwords into the stored user object
      itself. */
  lemma PasswordChangeIsStoredWithUser(form: ProfileForm, storage: AuthService.Storage)
    requires form.newPassword != ""
    requires HandleSubmit(form, storage).error == ""
    ensures var stored := AuthService.CurrentUser(HandleSubmit(form, storage).storage);
      && stored.Some?
      && stored.value["newPassword"] == AuthService.Str(form.newPassword)
      && stored.value["currentPassword"] == AuthService.Str(form.currentPassword)
  {
    var step := AuthService.UpdateProfile(storage, Payload(form));
    assert step.result.Ok?;
  }

  /** Without a new password nothing password-related reaches the storage
      beyond what the stored user already had. */
  lemma NoPasswordChangeLeavesPasswordsAlone(form: ProfileForm, storage: AuthService.Storage, key: string)
    requires form.newPassword == ""
    requires key != "fullName" && key != "email"
    requires AuthService.CurrentUser(storage).Some?
    ensures var stored := AuthService.CurrentUser(HandleSubmit(form, storage).storage);
      && stored.Some?
      && (key in stored.value <==> key in AuthService.CurrentUser(storage).value)
      && (key in stored.value ==> stored.value[key] == AuthService.CurrentUser(storage).value[key])
  {
    var step := AuthService.UpdateProfile(storage, Payload(form));
    assert step.result.Ok?;
  }
}
