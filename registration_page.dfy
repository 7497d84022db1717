/** `pages/RegistrationPage.tsx`: the sign-up form's rules and what it sends. */
module RegistrationPage {
  import opened Wrappers
  import opened Text
  import opened FormRules
  import opened PageErrors

  datatype RegistrationForm = RegistrationForm(fullName: string, email: string, password: string, confirmPassword: string)

  /** The message shown under each field, if any. */
  datatype FormErrors = FormErrors(
    fullName: Option<string>, email: Option<string>, password: Option<string>, confirmPassword: Option<string>)

  predicate NoErrors(e: FormErrors) {
    e.fullName.None? && e.email.None? && e.password.None? && e.confirmPassword.None?
  }

  /** The confirmation: required, then equal to the password. */
  function ConfirmError(confirm: string, password: string): (r: Option<string>)
    ensures r.None? <==> confirm != "" && confirm == password
    ensures confirm == "" ==> r == Some("Please confirm your password")
    ensures confirm != "" && confirm != password ==> r == Some("Passwords do not match")
  {
    FieldError(confirm, "Please confirm your password", if confirm == password then None else Some("Passwords do not match"))
  }

  function Validate(f: RegistrationForm): (r: FormErrors)
    ensures r.fullName == FieldError(f.fullName, "Full Name is required", None)
    ensures r.email == EmailError(f.email)
    ensures r.password == PasswordError(f.password)
    ensures r.confirmPassword == ConfirmError(f.confirmPassword, f.password)
  {
    FormErrors(FieldError(f.fullName, "Full Name is required", None), EmailError(f.email),
               PasswordError(f.password), ConfirmError(f.confirmPassword, f.password))
  }

  /**
   * The form goes through exactly when the name is given, the email matches
   * the pattern, the password has six or more characters, and the
   * confirmation repeats it.
   */
  lemma ValidatesExactly(f: RegistrationForm)
    ensures NoErrors(Validate(f)) <==>
      f.fullName != "" && EmailPattern(f.email) && |f.password| >= 6 && f.confirmPassword == f.password
  {
  }

  /** A request the page sends: the path and the whole form as body. */
  datatype SignupRequest = SignupRequest(path: string, body: RegistrationForm)

  /** `handleSubmit(onSubmit)`: field errors stop it; otherwise the whole form, confirmation included, is posted. */
  function Submit(f: RegistrationForm): (r: Result<SignupRequest, FormErrors>)
    ensures r.Success? <==> NoErrors(Validate(f))
    ensures r.Success? ==> r.value.path == "/auth/signup" && r.value.body == f
    ensures r.Failure? ==> r.error == Validate(f)
  {
    if NoErrors(Validate(f)) then Success(SignupRequest("/auth/signup", f)) else Failure(Validate(f))
  }

  /** A sent form always carries a confirmation equal to its password. */
  lemma SentConfirmationMatches(f: RegistrationForm)
    requires Submit(f).Success?
    ensures Submit(f).value.body.confirmPassword == Submit(f).value.body.password
    ensures |Submit(f).value.body.password| >= 6
  {
  }

  const RegistrationFailed := "Registration failed. Please try again."

  /** The error shown when sign-up fails: message, error, the Axios message, the default. */
  function SignupErrorText(c: Caught): (r: string)
    ensures c.AxiosFailure? ==> r == OrElse(Or(ServerText(c.data), Some(c.message)), RegistrationFailed)
    ensures c.PlainError? ==> r == c.message
    ensures c.OtherThrown? ==> r == RegistrationFailed
  {
    ErrorThenMessageThenDefault(c, RegistrationFailed)
  }

  /** An Axios failure never leaves the sign-up error empty. */
  lemma SignupErrorNeverEmpty(c: Caught)
    requires c.AxiosFailure?
    ensures SignupErrorText(c) != ""
  {
    AxiosTextNonEmpty(c, RegistrationFailed);
  }
}
