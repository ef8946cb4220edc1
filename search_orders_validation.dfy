/** `SearchOrdersValidation.validate`: the request check for a search. The
    checks run in order and the first that fails throws an error with
    status code 400. */
module SearchOrdersValidation {
  import opened Wrappers
  import opened Numbers
  import opened Errors
  import opened SearchQuery
  import opened ErrorHandler
  import opened SearchOrders

  const StartMessage := "Data inicial deve estar no formato YYYY-MM-DD"
  const EndMessage := "Data final deve estar no formato YYYY-MM-DD"

  function BadRequest(message: string): Thrown {
    Error(message, Some(400))
  }

  /** An id value passes when it is falsy or made of digits only. */
  predicate IdPasses(v: Option<string>) {
    !Truthy(v) || IsDigits(v.value)
  }

  /** A date value passes when it is falsy or ten characters long; its
      content is not looked at. */
  predicate DatePasses(v: Option<string>) {
    !Truthy(v) || |v.value| == 10
  }

  /** The error `validate` throws for a query, if any: the checks run in
      order (unknown keys, `order_id`, `user_id`, `start`, `end`) and the
      first that fails decides the message. */
  function Validate(q: Query): (r: Option<Thrown>)
    ensures r.Some? ==> r.value.Error? && r.value.statusCode == Some(400)
    ensures InvalidParams(q) != [] ==> r == Some(BadRequest(NotAllowedMessage(InvalidParams(q))))
    ensures InvalidParams(q) == [] && !IdPasses(Get(q, "order_id"))
      ==> r == Some(BadRequest(OrderIdMessage))
    ensures InvalidParams(q) == [] && IdPasses(Get(q, "order_id")) && !IdPasses(Get(q, "user_id"))
      ==> r == Some(BadRequest(UserIdMessage))
    ensures InvalidParams(q) == [] && IdPasses(Get(q, "order_id")) && IdPasses(Get(q, "user_id"))
      && !DatePasses(Get(q, "start"))
      ==> r == Some(BadRequest(StartMessage))
    ensures InvalidParams(q) == [] && IdPasses(Get(q, "order_id")) && IdPasses(Get(q, "user_id"))
      && DatePasses(Get(q, "start")) && !DatePasses(Get(q, "end"))
      ==> r == Some(BadRequest(EndMessage))
  {
    var bad := InvalidParams(q);
    if bad != [] then Some(BadRequest(NotAllowedMessage(bad)))
    else if !IdPasses(Get(q, "order_id")) then Some(BadRequest(OrderIdMessage))
    else if !IdPasses(Get(q, "user_id")) then Some(BadRequest(UserIdMessage))
    else if !DatePasses(Get(q, "start")) then Some(BadRequest(StartMessage))
    else if !DatePasses(Get(q, "end")) then Some(BadRequest(EndMessage))
    else None
  }

  /** A query passes exactly when every key is allowed and every value
      passes its own check, whatever the order the checks run in. */
  lemma ValidateAccepts(q: Query)
    ensures Validate(q).None? <==>
      (forall i :: 0 <= i < |q| ==> q[i].key in AllowedParams)
      && IdPasses(Get(q, "order_id")) && IdPasses(Get(q, "user_id"))
      && DatePasses(Get(q, "start")) && DatePasses(Get(q, "end"))
  {
    NoInvalidParams(q);
  }

  /** A key outside the allow-list wins over every other check, and the
      message names exactly the keys outside the allow-list. */
  lemma NotAllowedFirst(q: Query)
    requires exists i :: 0 <= i < |q| && q[i].key !in AllowedParams
    ensures Validate(q) == Some(BadRequest(NotAllowedMessage(InvalidParams(q))))
  {
    NoInvalidParams(q);
  }

  /** The empty query passes; an empty value is falsy, so an empty
      `order_id` passes too. */
  lemma EmptyOrderIdPasses()
    ensures Validate([]) == None
    ensures Validate([Param("order_id", "")]) == None
  {
    assert Keys([Param("order_id", "")]) == ["order_id"];
  }

  /** Only the length of a date is checked: ten letters pass. */
  lemma DateContentUnchecked()
    ensures Validate([Param("start", "abcdefghij")]) == None
  {
    assert Keys([Param("start", "abcdefghij")]) == ["start"];
  }

  /** Every rejection is answered as a 400 "Bad Request" carrying its
      message. */
  lemma RejectionIsBadRequest(q: Query)
    requires Validate(q).Some?
    ensures HandleError(Validate(q).value) == ErrorReply(400, "Bad Request", Validate(q).value.message)
  {
  }

  /** The validator and the use case reject unknown keys alike, with the
      same message. */
  lemma SameKeyRejection(q: Query, today: string)
    requires InvalidParams(q) != []
    ensures Validate(q).Some? && SearchFilter(q, today).Err?
    ensures Validate(q).value.message == SearchFilter(q, today).error.message
  {
  }

  /** Elsewhere they differ: an empty `order_id` is falsy for the
      validator, which lets it through, but present for the use case,
      which rejects it as not a number. */
  lemma EmptyOrderIdDisagreement(today: string)
    ensures Validate([Param("order_id", "")]) == None
    ensures SearchFilter([Param("order_id", "")], today) == Err(Plain(OrderIdMessage))
  {
    EmptyOrderIdPasses();
    assert Keys([Param("order_id", "")]) == ["order_id"];
  }

  /** And a ten-character date passes the validator whatever it holds,
      while the use case rejects one without the `YYYY-MM-DD` shape. */
  lemma DateShapeDisagreement(today: string)
    ensures Validate([Param("start", "abcdefghij")]) == None
    ensures SearchFilter([Param("start", "abcdefghij")], today) == Err(Plain(DateFormatMessage))
  {
    DateContentUnchecked();
    assert Keys([Param("start", "abcdefghij")]) == ["start"];
  }
}
