/** The login form: validation messages shown once submitted and the
    canSubmit test. Its submit handler navigates home without consulting
    the user store. */
module Login {
  import opened Common
  import opened Email

  datatype LoginErrors = LoginErrors(email: Option<string>, pwd: Option<string>)

  const NoErrors: LoginErrors := LoginErrors(None, None)

  /** The errors memo: nothing before the first submit; a missing address
      is reported before a malformed one; the password is only required. */
  function Errors(email: string, pwd: string, touched: bool): LoginErrors
  {
    if !touched then NoErrors
    else LoginErrors(
      if email == "" then Some("Email is required.")
      else if !IsValidEmail(email) then Some("Please enter a valid email.") else None,
      if pwd == "" then Some("Password is required.") else None)
  }

  /** canSubmit. */
  predicate CanSubmit(email: string, pwd: string, touched: bool)
  {
    email != "" && pwd != "" && IsValidEmail(email) && Errors(email, pwd, touched) == NoErrors
  }

  /** Once touched the form shows no error exactly when the address
      matches the pattern and a password is given, and canSubmit is that
      same condition whether or not the form was touched. */
  lemma LoginFormSpec(email: string, pwd: string, touched: bool)
    ensures !touched ==> Errors(email, pwd, touched) == NoErrors
    ensures touched ==> (Errors(email, pwd, touched) == NoErrors <==> MatchesPattern(email) && pwd != "")
    ensures touched && email == "" ==> Errors(email, pwd, touched).email == Some("Email is required.")
    ensures CanSubmit(email, pwd, touched) <==> MatchesPattern(email) && pwd != ""
  {
    IsValidEmailMatchesPattern(email);
  }

  class LoginPage {
    var email: string
    var pwd: string
    var touched: bool
    var navigatedHome: bool

    constructor ()
      ensures email == "" && pwd == "" && !touched && !navigatedHome
    {
      email := "";
      pwd := "";
      touched := false;
      navigatedHome := false;
    }

    /** onSubmit: the form becomes touched, and with canSubmit it goes
        home; no account is checked. */
    method OnSubmit()
      modifies this`touched, this`navigatedHome
      ensures touched
      ensures navigatedHome == (old(navigatedHome) || CanSubmit(email, pwd, old(touched)))
    {
      var allowed := CanSubmit(email, pwd, touched);
      touched := true;
      if allowed {
        navigatedHome := true;
      }
    }
  }
}
