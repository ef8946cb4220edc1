/** What an operation of the service can throw. */
module Errors {
  import opened Wrappers

  /** An `Error` instance with its message and the optional numeric
      `statusCode` property the validators attach, or a thrown value that
      is not an `Error` at all (a string, `null`, `undefined`). */
  datatype Thrown = Error(message: string, statusCode: Option<int>) | NotAnError

  /** `new Error(message)` with no status code. */
  function Plain(message: string): Thrown {
    Error(message, None)
  }
}
