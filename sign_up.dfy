/**
 * The sign-up form's validation: when the submit button is enabled, when the mismatch
 * message shows, and what the submit hands on.
 */
module SignUp {
  import opened Wrappers
  import opened Text
  import Backend

  /** `passwordsMatch`. */
  predicate PasswordsMatch(password: string, confirmPassword: string) {
    password != [] && password == confirmPassword
  }

  /** `canSubmit`: every field filled in and the passwords matching. */
  predicate CanSubmit(username: string, email: string, password: string, confirmPassword: string) {
    && !IsBlank(username) && !IsBlank(email) && !IsBlank(password) && !IsBlank(confirmPassword)
    && PasswordsMatch(password, confirmPassword)
  }

  /** Whether "Passwords do not match" is shown. */
  predicate ShowsMismatch(password: string, confirmPassword: string) {
    confirmPassword != [] && !PasswordsMatch(password, confirmPassword)
  }

  /** The form's four fields. */
  datatype Form = Form(username: string, email: string, password: string, confirmPassword: string)

  /** What `onSignUp` receives when the button is pressed: nothing while it is disabled. */
  function Submit(f: Form): (r: Option<(string, string, string)>)
    ensures r.Some? <==> CanSubmit(f.username, f.email, f.password, f.confirmPassword)
    ensures r.Some? ==> r.value == (Trim(f.email), f.password, Trim(f.username))
    ensures r.Some? ==> r.value.0 != [] && r.value.2 != [] && r.value.1 == f.confirmPassword
  {
    if CanSubmit(f.username, f.email, f.password, f.confirmPassword) then
      TrimOfNonBlank(f.email);
      TrimOfNonBlank(f.username);
      Some((Trim(f.email), f.password, Trim(f.username)))
    else None
  }

  /** Submitting is possible only with matching passwords and no blank field. */
  lemma CanSubmitRequires(username: string, email: string, password: string, confirmPassword: string)
    ensures CanSubmit(username, email, password, confirmPassword) ==> PasswordsMatch(password, confirmPassword)
    ensures IsBlank(username) || IsBlank(email) || IsBlank(password) || IsBlank(confirmPassword) ==>
              !CanSubmit(username, email, password, confirmPassword)
  {
  }

  /** The mismatch message and an enabled button never show together; a typed confirmation shows exactly one when the rest is filled in. */
  lemma MismatchExcludesSubmit(username: string, email: string, password: string, confirmPassword: string)
    ensures ShowsMismatch(password, confirmPassword) ==> !CanSubmit(username, email, password, confirmPassword)
    ensures ShowsMismatch(password, confirmPassword) <==>
              confirmPassword != [] && (password == [] || password != confirmPassword)
  {
  }

  /** A submitted username is never rejected by the back end as missing. */
  lemma {:induction false} SubmittedUsernamePresent(f: Form)
    requires Submit(f).Some?
    ensures Backend.CheckSignupUsername(Some(Submit(f).value.2)) != Failure(Backend.HttpError(400, "USERNAME_REQUIRED"))
  {
    var u := Submit(f).value.2;
    assert u != [] && !IsWhitespace(u[0]);
    assert !IsBlank(u);
  }
}
