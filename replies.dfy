/** The replies the server's controllers return: `Ok` with a body, or one of the three error
    results with a message. The error results are statuses 401, 404 and 400 (sections 15.5.2,
    15.5.5 and 15.5.1 of RFC 9110). */
module Replies {

  datatype Reply<+T> =
    | Ok(value: T)
    | Unauthorized(message: string)
    | NotFound(message: string)
    | BadRequest(message: string)

  /** The reply to a request whose token carries no email. */
  const InvalidToken: string := "Invalid token."
}
