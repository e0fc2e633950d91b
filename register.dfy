/** The registration form: per-field validation messages shown once the
    form has been submitted, the canSubmit test, and the submit handler
    that registers through the user store. */
module Register {
  import opened Common
  import opened Types
  import opened Email
  import opened AuthService

  const MinPasswordLength: nat := 6
  const FallbackMessage: string := "Registration failed."

  datatype RegisterForm = RegisterForm(name: string, email: string, pwd: string, confirm: string, terms: bool)

  /** The errors record: at most one message per field. */
  datatype RegisterErrors = RegisterErrors(
    name: Option<string>,
    email: Option<string>,
    pwd: Option<string>,
    confirm: Option<string>,
    terms: Option<string>)

  const NoErrors: RegisterErrors := RegisterErrors(None, None, None, None, None)

  /** The errors memo: nothing before the first submit; afterwards a
      missing value is reported before a malformed one. */
  function Errors(f: RegisterForm, touched: bool): RegisterErrors
  {
    if !touched then NoErrors
    else RegisterErrors(
      if f.name == "" then Some("Full name is required.") else None,
      if f.email == "" then Some("Email is required.")
      else if !IsValidEmail(f.email) then Some("Please enter a valid email.") else None,
      if f.pwd == "" then Some("Password is required.")
      else if |f.pwd| < MinPasswordLength then Some("Password must be at least 6 characters.") else None,
      if f.confirm == "" then Some("Please confirm your password.")
      else if f.pwd != f.confirm then Some("Passwords do not match.") else None,
      if !f.terms then Some("You must accept the Terms.") else None)
  }

  /** What a complete registration form is: a name, an address the e-mail
      pattern matches, a password of at least six characters, the same
      password again and the terms accepted. */
  ghost predicate Complete(f: RegisterForm)
  {
    && f.name != ""
    && MatchesPattern(f.email)
    && |f.pwd| >= MinPasswordLength
    && f.pwd == f.confirm
    && f.terms
  }

  /** Once touched, the form shows no error exactly when it is complete;
      before that it shows none. Required-field messages win over the
      others. */
  lemma ErrorsSpec(f: RegisterForm, touched: bool)
    ensures !touched ==> Errors(f, touched) == NoErrors
    ensures touched ==> (Errors(f, touched) == NoErrors <==> Complete(f))
    ensures touched && f.email == "" ==> Errors(f, touched).email == Some("Email is required.")
    ensures touched && f.pwd == "" ==> Errors(f, touched).pwd == Some("Password is required.")
    ensures touched && f.confirm == "" ==> Errors(f, touched).confirm == Some("Please confirm your password.")
  {
    IsValidEmailMatchesPattern(f.email);
  }

  /** canSubmit. */
  predicate CanSubmit(f: RegisterForm, touched: bool)
  {
    && f.name != "" && f.email != "" && f.pwd != "" && f.confirm != ""
    && IsValidEmail(f.email)
    && |f.pwd| >= MinPasswordLength
    && f.pwd == f.confirm
    && f.terms
    && Errors(f, touched) == NoErrors
  }

  /** canSubmit holds exactly for a complete form, whether or not it has
      been touched. */
  lemma CanSubmitIffComplete(f: RegisterForm, touched: bool)
    ensures CanSubmit(f, touched) <==> Complete(f)
  {
    IsValidEmailMatchesPattern(f.email);
  }

  class RegisterPage {
    var form: RegisterForm
    var touched: bool
    var errorMsg: Option<string>
    var navigatedHome: bool

    constructor ()
      ensures form == RegisterForm("", "", "", "", true) && !touched && errorMsg == None && !navigatedHome
    {
      form := RegisterForm("", "", "", "", true);
      touched := false;
      errorMsg := None;
      navigatedHome := false;
    }

    /** onSubmit with the id genId produces. The form becomes touched and
        the message is cleared; with canSubmit false nothing else happens.
        Otherwise the account is registered: success goes home, failure
        shows the error's message. */
    method OnSubmit(auth: AuthStore, id: string) returns (r: Option<Result<AuthUser, string>>)
      modifies this`touched, this`errorMsg, this`navigatedHome, auth
      ensures touched
      ensures !CanSubmit(form, old(touched)) ==>
                && r.None? && errorMsg == None && navigatedHome == old(navigatedHome)
                && auth.users == old(auth.users) && auth.current == old(auth.current)
      ensures CanSubmit(form, old(touched)) ==>
                && r.Some?
                && (r.value.Success? <==> !EmailTaken(old(auth.All()), form.email))
                && (r.value.Success? ==>
                      && r.value.value == AuthUser(id, form.name, form.email)
                      && auth.All() == old(auth.All()) + [UserRecord(id, form.name, form.email, form.pwd)]
                      && auth.Current() == Some(r.value.value)
                      && navigatedHome && errorMsg == None)
                && (r.value.Failure? ==>
                      && errorMsg == Some(EmailTakenMessage)
                      && auth.users == old(auth.users) && auth.current == old(auth.current)
                      && navigatedHome == old(navigatedHome))
    {
      var allowed := CanSubmit(form, touched);
      touched := true;
      errorMsg := None;
      if !allowed {
        return None;
      }
      var res := Register(auth, form.name, form.email, form.pwd, id);
      if res.Success? {
        navigatedHome := true;
      } else {
        errorMsg := Some(MessageOr(res.error, FallbackMessage));
      }
      r := Some(res);
    }
  }
}
