/** What the account forms share: a required field's error, and what an awaited request can
    end in. */
module Forms {

  /** What a `catch` receives: an `Error` with its message, or any other thrown value. */
  datatype Thrown = ErrorWithMessage(message: string) | NotAnError

  /** The awaited request: it resolves, or it throws. */
  datatype Outcome = Succeeded | Failed(thrown: Thrown)

  /** A required field's error: the fill-in message when empty (`!value`), cleared otherwise. */
  function RequiredError(value: string, message: string): (e: string)
    ensures value == "" ==> e == message
    ensures value != "" ==> e == ""
  {
    if value == "" then message else ""
  }
}
