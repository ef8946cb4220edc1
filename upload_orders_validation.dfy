/** `UploadOrdersValidation.validate`: the request check that runs before
    the upload, with the same two tests as the use case but errors that
    carry status code 400. */
module UploadOrdersValidation {
  import opened Wrappers
  import opened Errors
  import opened Files
  import opened Orders
  import opened ErrorHandler
  import opened UploadOrders

  /** The error `validate` throws for a request's file, if any. */
  function Validate(file: Option<UploadFile>): (r: Option<Thrown>)
    ensures r.None? <==> file.Some? && IsTxt(file.value.originalName)
    ensures r.Some? ==> r.value.Error? && r.value.statusCode == Some(400)
    ensures file.None? ==> r == Some(Error(NoFileMessage, Some(400)))
    ensures file.Some? && !IsTxt(file.value.originalName) ==> r == Some(Error(NotTxtMessage, Some(400)))
  {
    if file.None? then Some(Error(NoFileMessage, Some(400)))
    else if !IsTxt(file.value.originalName) then Some(Error(NotTxtMessage, Some(400)))
    else None
  }

  /** The validator and the use case reject the same requests with the
      same message; only the validator's error carries a status code. */
  lemma AgreesWithUseCase(file: Option<UploadFile>, drop: DropOutcome, insert: seq<OrderRecord> -> InsertOutcome)
    ensures Validate(file).Some? ==>
      Upload(file, drop, insert) == Err(Error(Validate(file).value.message, None))
    ensures Validate(file).None? && !DropIsFatal(drop) ==> Upload(file, drop, insert).Ok?
  {
  }

  /** What `errorHandler` itself makes of the two errors: a validator
      rejection is a 400 "Bad Request" and the same rejection as the use
      case throws it is a 500. This is about the middleware alone: at run
      time the route adapter catches the use case's error first and
      answers 500 without its message. */
  lemma RejectionStatus(file: Option<UploadFile>, drop: DropOutcome, insert: seq<OrderRecord> -> InsertOutcome)
    requires Validate(file).Some?
    ensures HandleError(Validate(file).value) == ErrorReply(400, "Bad Request", Validate(file).value.message)
    ensures HandleError(Upload(file, drop, insert).error) == ErrorReply(500, ServerErrorLabel, Validate(file).value.message)
  {
    AgreesWithUseCase(file, drop, insert);
  }
}
