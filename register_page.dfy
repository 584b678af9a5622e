/** The registration form: every field is checked on submit, each error set independently of
    the others, and the registration is sent only when all four are filled and the passwords
    match; the server's refusal is mapped back onto the username or email field. */
module RegisterPage {
  import opened Wrappers
  import opened Text
  import opened Forms

  const FillUsername: string := "Please fill in the username."
  const FillEmail: string := "Please fill in the email."
  const FillPassword: string := "Please fill in the password."
  const FillRepeat: string := "Please fill in the repeat password."
  const Mismatch: string := "Passwords do not match."
  const UsernameTaken: string := "A user with this username already exists."
  const EmailTaken: string := "A user with this email already exists."
  const UserExists: string := "User already exists."
  const EmailInUse: string := "Email already in use."
  const Unknown: string := "An unknown error occurred."

  datatype Fields = Fields(username: string, email: string, password: string, repeatPassword: string)

  datatype Errors = Errors(username: string, email: string, password: string, repeatPassword: string)

  /** `register(email, password, username)`. */
  datatype RegisterRequest = RegisterRequest(email: string, password: string, username: string)

  /** The repeat field's error: fill-in when empty, mismatch when different, else cleared. */
  function RepeatError(password: string, repeatPassword: string): (e: string)
    ensures repeatPassword == "" ==> e == FillRepeat
    ensures repeatPassword != "" && password != repeatPassword ==> e == Mismatch
    ensures repeatPassword != "" && password == repeatPassword ==> e == ""
  {
    if repeatPassword == "" then FillRepeat else if password != repeatPassword then Mismatch else ""
  }

  /** The errors the checks leave, each field on its own. */
  function CheckErrors(f: Fields): Errors {
    Errors(RequiredError(f.username, FillUsername), RequiredError(f.email, FillEmail),
           RequiredError(f.password, FillPassword), RepeatError(f.password, f.repeatPassword))
  }

  /** All four filled and the passwords equal. */
  predicate CanRegister(f: Fields) {
    f.username != "" && f.email != "" && f.password != "" && f.repeatPassword != "" &&
    f.password == f.repeatPassword
  }

  /** The form is sent exactly when the checks leave no error. */
  lemma SentIffNoErrors(f: Fields)
    ensures CanRegister(f) <==> CheckErrors(f) == Errors("", "", "", "")
  {
  }

  /** A field's error is its own: it is the same whatever the other fields hold. */
  lemma ErrorsIndependent(f: Fields, g: Fields)
    ensures f.username == g.username ==> CheckErrors(f).username == CheckErrors(g).username
    ensures f.email == g.email ==> CheckErrors(f).email == CheckErrors(g).email
    ensures f.password == g.password ==> CheckErrors(f).password == CheckErrors(g).password
    ensures f.password == g.password && f.repeatPassword == g.repeatPassword ==>
      CheckErrors(f).repeatPassword == CheckErrors(g).repeatPassword
  {
  }

  /** The `catch` block: a taken username, else a taken email, is shown on its field; any
      other `Error` changes nothing; a value that is not an `Error` is an unknown error on
      the username field. */
  function OnFailure(e: Errors, thrown: Thrown): (r: Errors)
    ensures thrown.NotAnError? ==> r == e.(username := Unknown)
    ensures thrown.ErrorWithMessage? && Contains(thrown.message, UsernameTaken) ==> r == e.(username := UserExists)
    ensures thrown.ErrorWithMessage? && !Contains(thrown.message, UsernameTaken) && Contains(thrown.message, EmailTaken) ==>
      r == e.(email := EmailInUse)
    ensures thrown.ErrorWithMessage? && !Contains(thrown.message, UsernameTaken) && !Contains(thrown.message, EmailTaken) ==>
      r == e
  {
    match thrown
    case ErrorWithMessage(m) =>
      if Includes(m, UsernameTaken) then e.(username := UserExists)
      else if Includes(m, EmailTaken) then e.(email := EmailInUse)
      else e
    case NotAnError => e.(username := Unknown)
  }

  /** The errors after a submit whose request, if sent, ends in `outcome`. */
  function SubmitErrors(f: Fields, outcome: Outcome): Errors {
    var checked := CheckErrors(f);
    if CanRegister(f) && outcome.Failed? then OnFailure(checked, outcome.thrown) else checked
  }

  /** A refused registration only ever shows one server error, on the username or the email. */
  lemma ServerErrorOnOneField(f: Fields, thrown: Thrown)
    requires CanRegister(f)
    ensures var r := SubmitErrors(f, Failed(thrown));
      r.password == "" && r.repeatPassword == "" && (r.username == "" || r.email == "")
  {
  }

  /** The form's state. */
  class RegisterForm {
    var username: string
    var email: string
    var password: string
    var repeatPassword: string
    var usernameError: string
    var emailError: string
    var passwordError: string
    var repeatPasswordError: string

    function FieldsOf(): Fields
      reads this
    {
      Fields(username, email, password, repeatPassword)
    }

    function ErrorsOf(): Errors
      reads this
    {
      Errors(usernameError, emailError, passwordError, repeatPasswordError)
    }

    constructor()
      ensures FieldsOf() == Fields("", "", "", "") && ErrorsOf() == Errors("", "", "", "")
    {
      username, email, password, repeatPassword := "", "", "", "";
      usernameError, emailError, passwordError, repeatPasswordError := "", "", "", "";
    }

    /** `handleSubmit`: the checks behind one `valid` flag, then the request and its failure.
        Returns the request sent, and whether the session is re-checked after success. */
    method HandleSubmit(outcome: Outcome) returns (sent: Option<RegisterRequest>, checkAuth: bool)
      modifies this`usernameError, this`emailError, this`passwordError, this`repeatPasswordError
      ensures sent.Some? <==> CanRegister(FieldsOf())
      ensures sent.Some? ==> sent.value == RegisterRequest(email, password, username)
      ensures checkAuth <==> sent.Some? && outcome.Succeeded?
      ensures ErrorsOf() == SubmitErrors(FieldsOf(), outcome)
    {
      var valid := true;
      if username == "" {
        usernameError := FillUsername;
        valid := false;
      } else {
        usernameError := "";
      }
      if email == "" {
        emailError := FillEmail;
        valid := false;
      } else {
        emailError := "";
      }
      if password == "" {
        passwordError := FillPassword;
        valid := false;
      } else {
        passwordError := "";
      }
      if repeatPassword == "" {
        repeatPasswordError := FillRepeat;
        valid := false;
      } else if password != repeatPassword {
        repeatPasswordError := Mismatch;
        valid := false;
      } else {
        repeatPasswordError := "";
      }
      sent, checkAuth := None, false;
      if valid {
        sent := Some(RegisterRequest(email, password, username));
        match outcome
        case Succeeded =>
          checkAuth := true;
        case Failed(thrown) =>
          if thrown.ErrorWithMessage? {
            if Includes(thrown.message, UsernameTaken) {
              usernameError := UserExists;
            } else if Includes(thrown.message, EmailTaken) {
              emailError := EmailInUse;
            }
          } else {
            usernameError := Unknown;
          }
      }
    }
  }
}
