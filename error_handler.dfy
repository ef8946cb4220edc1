/** `errorHandler`, the last middleware: it turns whatever a route threw
    into an HTTP status and a `{error, message}` body. */
module ErrorHandler {
  import opened Wrappers
  import opened Errors

  const DefaultMessage := "An unexpected error occurred"
  const ServerErrorLabel := "Internal server error"

  /** The status and the JSON body `{error: title, message}` sent back. */
  datatype ErrorReply = ErrorReply(status: int, title: string, message: string)

  /** `(err as any).statusCode || 500`: a missing or zero status code
      falls back to 500. */
  function StatusOf(statusCode: Option<int>): (s: int)
    ensures s != 0
    ensures statusCode.Some? && statusCode.value != 0 ==> s == statusCode.value
    ensures statusCode.None? || statusCode.value == 0 ==> s == 500
  {
    match statusCode
    case Some(code) => if code != 0 then code else 500
    case None => 500
  }

  /** What `errorHandler` answers for a thrown value. The status is 400,
      403 or 404 exactly when the error carries that status code, each
      with its own title; everything else is a 500. The error's own
      message is sent when it has one; an empty message, or a thrown value
      that is not an `Error`, gets the default text. */
  function HandleError(err: Thrown): (r: ErrorReply)
    ensures r.status == 400 <==> err.Error? && err.statusCode == Some(400)
    ensures r.status == 404 <==> err.Error? && err.statusCode == Some(404)
    ensures r.status == 403 <==> err.Error? && err.statusCode == Some(403)
    ensures r.status == 400 || r.status == 403 || r.status == 404 || r.status == 500
    ensures r.status == 400 <==> r.title == "Bad Request"
    ensures r.status == 404 <==> r.title == "Not Found"
    ensures r.status == 403 <==> r.title == "Forbidden"
    ensures r.status == 500 <==> r.title == ServerErrorLabel
    ensures err.Error? && err.message != [] ==> r.message == err.message
    ensures err.NotAnError? || err.message == [] ==> r.message == DefaultMessage
  {
    match err
    case NotAnError => ErrorReply(500, ServerErrorLabel, DefaultMessage)
    case Error(message, statusCode) =>
      var status := StatusOf(statusCode);
      var text := if message == [] then DefaultMessage else message;
      if status == 400 then ErrorReply(400, "Bad Request", text)
      else if status == 404 then ErrorReply(404, "Not Found", text)
      else if status == 403 then ErrorReply(403, "Forbidden", text)
      else ErrorReply(500, ServerErrorLabel, text)
  }

  /** An `Error` thrown without a status code, as the use cases throw
      them, is a server error that keeps its message. */
  lemma PlainIsServerError(message: string)
    requires message != []
    ensures HandleError(Plain(message)) == ErrorReply(500, ServerErrorLabel, message)
  {
  }
}
