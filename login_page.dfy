/** The login form: both fields are checked on submit, each on its own, and the login is sent
    only when both are filled; the server's refusal is mapped onto the email or the password
    field by its exact message. */
module LoginPage {
  import opened Wrappers
  import opened Forms

  const FillEmail: string := "Please fill in the email."
  const FillPassword: string := "Please fill in the password."
  const ServerUserNotFound: string := "User not found"
  const ServerInvalidPassword: string := "Invalid password"
  const UserNotFound: string := "User not found."
  const IncorrectPassword: string := "Incorrect password."
  const Unknown: string := "An unknown error occurred."

  datatype Errors = Errors(email: string, password: string)

  /** `login(email, password)`. */
  datatype LoginRequest = LoginRequest(email: string, password: string)

  function CheckErrors(email: string, password: string): (e: Errors)
    ensures e.email == RequiredError(email, FillEmail) && e.password == RequiredError(password, FillPassword)
  {
    Errors(RequiredError(email, FillEmail), RequiredError(password, FillPassword))
  }

  /** The login is sent exactly when the checks leave no error. */
  lemma SentIffNoErrors(email: string, password: string)
    ensures (email != "" && password != "") <==> CheckErrors(email, password) == Errors("", "")
  {
  }

  /** The `catch` block: an unknown user on the email field, a wrong password on the password
      field, anything else an unknown error on the password field. */
  function OnFailure(e: Errors, thrown: Thrown): (r: Errors)
    ensures thrown == ErrorWithMessage(ServerUserNotFound) ==> r == e.(email := UserNotFound)
    ensures thrown == ErrorWithMessage(ServerInvalidPassword) ==> r == e.(password := IncorrectPassword)
    ensures thrown != ErrorWithMessage(ServerUserNotFound) && thrown != ErrorWithMessage(ServerInvalidPassword) ==>
      r == e.(password := Unknown)
  {
    match thrown
    case ErrorWithMessage(m) =>
      if m == ServerUserNotFound then e.(email := UserNotFound)
      else if m == ServerInvalidPassword then e.(password := IncorrectPassword)
      else e.(password := Unknown)
    case NotAnError => e.(password := Unknown)
  }

  /** The errors after a submit whose request, if sent, ends in `outcome`. */
  function SubmitErrors(email: string, password: string, outcome: Outcome): Errors {
    var checked := CheckErrors(email, password);
    if email != "" && password != "" && outcome.Failed? then OnFailure(checked, outcome.thrown) else checked
  }

  /** A refused login shows exactly one error: on the email for an unknown user, else on the
      password. */
  lemma RefusalShowsOneError(email: string, password: string, thrown: Thrown)
    requires email != "" && password != ""
    ensures var r := SubmitErrors(email, password, Failed(thrown));
      (r.email == "") != (r.password == "") &&
      (r.email != "" <==> thrown == ErrorWithMessage(ServerUserNotFound))
  {
  }

  /** The message must match exactly: a longer one is an unknown error. */
  lemma MessageMatchedExactly(email: string, password: string)
    requires email != "" && password != ""
    ensures SubmitErrors(email, password, Failed(ErrorWithMessage(ServerUserNotFound + "."))) == Errors("", Unknown)
  {
    assert ServerUserNotFound + "." != ServerUserNotFound;
    assert ServerUserNotFound + "." != ServerInvalidPassword;
  }

  class LoginForm {
    var email: string
    var password: string
    var emailError: string
    var passwordError: string

    function ErrorsOf(): Errors
      reads this
    {
      Errors(emailError, passwordError)
    }

    constructor()
      ensures email == "" && password == "" && ErrorsOf() == Errors("", "")
    {
      email, password, emailError, passwordError := "", "", "", "";
    }

    /** `handleSubmit`. Returns the request sent, and whether the session is re-checked. */
    method HandleSubmit(outcome: Outcome) returns (sent: Option<LoginRequest>, checkAuth: bool)
      modifies this`emailError, this`passwordError
      ensures sent.Some? <==> email != "" && password != ""
      ensures sent.Some? ==> sent.value == LoginRequest(email, password)
      ensures checkAuth <==> sent.Some? && outcome.Succeeded?
      ensures ErrorsOf() == SubmitErrors(email, password, outcome)
    {
      var valid := true;
      if email == "" {
        emailError := FillEmail;
        valid := false;
      } else {
        emailError := "";
      }
      if password == "" {
        passwordError := FillPassword;
        valid := false;
      } else {
        passwordError := "";
      }
      sent, checkAuth := None, false;
      if valid {
        sent := Some(LoginRequest(email, password));
        match outcome
        case Succeeded =>
          checkAuth := true;
        case Failed(thrown) =>
          if thrown.ErrorWithMessage? {
            if thrown.message == ServerUserNotFound {
              emailError := UserNotFound;
            } else if thrown.message == ServerInvalidPassword {
              passwordError := IncorrectPassword;
            } else {
              passwordError := Unknown;
            }
          } else {
            passwordError := Unknown;
          }
      }
    }
  }
}
