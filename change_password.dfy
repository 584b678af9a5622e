/** The change-password form: the three fields are checked on submit, each on its own, and
    the change is posted only when all are filled and the new password is repeated exactly;
    the request carries the old and the new password only. */
module ChangePassword {
  import opened Wrappers
  import opened Forms

  const FillOld: string := "Please fill in your old password."
  const FillNew: string := "Please fill in your new password."
  const FillRepeat: string := "Please repeat your new password."
  const Mismatch: string := "New passwords do not match."
  const OldIncorrect: string := "Old password is incorrect."
  const SettingsPath: string := "/settings"

  datatype Errors = Errors(oldPassword: string, newPassword: string, repeatPassword: string)

  /** The body posted to `/api/Users/ChangePassword`. */
  datatype ChangeRequest = ChangeRequest(oldPassword: string, newPassword: string)

  function RepeatError(newPassword: string, repeatPassword: string): (e: string)
    ensures repeatPassword == "" ==> e == FillRepeat
    ensures repeatPassword != "" && newPassword != repeatPassword ==> e == Mismatch
    ensures repeatPassword != "" && newPassword == repeatPassword ==> e == ""
  {
    if repeatPassword == "" then FillRepeat else if newPassword != repeatPassword then Mismatch else ""
  }

  function CheckErrors(oldPassword: string, newPassword: string, repeatPassword: string): Errors {
    Errors(RequiredError(oldPassword, FillOld), RequiredError(newPassword, FillNew),
           RepeatError(newPassword, repeatPassword))
  }

  predicate CanPost(oldPassword: string, newPassword: string, repeatPassword: string) {
    oldPassword != "" && newPassword != "" && repeatPassword != "" && newPassword == repeatPassword
  }

  /** The change is posted exactly when the checks leave no error. */
  lemma PostedIffNoErrors(oldPassword: string, newPassword: string, repeatPassword: string)
    ensures CanPost(oldPassword, newPassword, repeatPassword) <==>
      CheckErrors(oldPassword, newPassword, repeatPassword) == Errors("", "", "")
  {
  }

  /** The errors after a submit whose post, if made, ends in `outcome`: any failure is shown
      as a wrong old password. */
  function SubmitErrors(oldPassword: string, newPassword: string, repeatPassword: string, outcome: Outcome): Errors {
    var checked := CheckErrors(oldPassword, newPassword, repeatPassword);
    if CanPost(oldPassword, newPassword, repeatPassword) && outcome.Failed? then checked.(oldPassword := OldIncorrect)
    else checked
  }

  /** Whatever the failure, the same message on the old password and nothing else. */
  lemma AnyFailureSameMessage(oldPassword: string, newPassword: string, t1: Thrown, t2: Thrown)
    requires CanPost(oldPassword, newPassword, newPassword)
    ensures SubmitErrors(oldPassword, newPassword, newPassword, Failed(t1)) ==
            SubmitErrors(oldPassword, newPassword, newPassword, Failed(t2)) == Errors(OldIncorrect, "", "")
  {
  }

  class ChangePasswordForm {
    var oldPassword: string
    var newPassword: string
    var repeatPassword: string
    var oldPasswordError: string
    var newPasswordError: string
    var repeatPasswordError: string

    function ErrorsOf(): Errors
      reads this
    {
      Errors(oldPasswordError, newPasswordError, repeatPasswordError)
    }

    constructor()
      ensures oldPassword == "" && newPassword == "" && repeatPassword == "" && ErrorsOf() == Errors("", "", "")
    {
      oldPassword, newPassword, repeatPassword := "", "", "";
      oldPasswordError, newPasswordError, repeatPasswordError := "", "", "";
    }

    /** `handleSubmit`. Returns the body posted, and where the page navigates. The bearer
        token read from the cookie is not modelled. */
    method HandleSubmit(outcome: Outcome) returns (posted: Option<ChangeRequest>, navigate: Option<string>)
      modifies this`oldPasswordError, this`newPasswordError, this`repeatPasswordError
      ensures posted.Some? <==> CanPost(oldPassword, newPassword, repeatPassword)
      ensures posted.Some? ==> posted.value == ChangeRequest(oldPassword, newPassword)
      ensures navigate == if posted.Some? && outcome.Succeeded? then Some(SettingsPath) else None
      ensures ErrorsOf() == SubmitErrors(oldPassword, newPassword, repeatPassword, outcome)
    {
      var valid := true;
      if oldPassword == "" {
        oldPasswordError := FillOld;
        valid := false;
      } else {
        oldPasswordError := "";
      }
      if newPassword == "" {
        newPasswordError := FillNew;
        valid := false;
      } else {
        newPasswordError := "";
      }
      if repeatPassword == "" {
        repeatPasswordError := FillRepeat;
        valid := false;
      } else if newPassword != repeatPassword {
        repeatPasswordError := Mismatch;
        valid := false;
      } else {
        repeatPasswordError := "";
      }
      posted, navigate := None, None;
      if valid {
        posted := Some(ChangeRequest(oldPassword, newPassword));
        if outcome.Succeeded? {
          navigate := Some(SettingsPath);
        } else {
          oldPasswordError := OldIncorrect;
        }
      }
    }
  }
}
