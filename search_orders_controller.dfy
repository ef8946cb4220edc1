/** `SearchOrdersController.handle`: runs the search use case and turns
    its outcome into a status code and a body. */
module SearchOrdersController {
  import opened Wrappers
  import opened Text
  import opened Numbers
  import opened Orders
  import opened Errors
  import opened SearchQuery
  import opened SearchOrders
  import opened ErrorHandler

  /** The body sent: the use case's answer unchanged, or `{ error }`. */
  datatype Body = Found(result: SearchResponse) | Failure(error: string)

  datatype HttpResponse = HttpResponse(statusCode: int, body: Body)

  /** What `handle` answers. A missing query is the empty one. */
  function Handle(query: Option<Query>, today: string, count: Filter -> nat, find: (Filter, Option<Window>) -> seq<OrderRecord>)
    : (r: HttpResponse)
    ensures r.statusCode == 200 || r.statusCode == 400 || r.statusCode == 500
    ensures r.statusCode == 200 <==> r.body.Found?
  {
    var q := query.GetOr([]);
    match Search(q, today, count, find)
    case Ok(result) => HttpResponse(200, Found(result))
    case Err(e) =>
      if e.Error? && Contains(e.message, NotAllowedText) then HttpResponse(400, Failure(e.message))
      else HttpResponse(500, Failure(ServerErrorLabel))
  }

  /** No query at all is answered as the empty query. */
  lemma MissingQuery(today: string, count: Filter -> nat, find: (Filter, Option<Window>) -> seq<OrderRecord>)
    ensures Handle(None, today, count, find) == Handle(Some([]), today, count, find)
  {
  }

  /** 200 with the search result when the query is good; 400 naming the
      unknown keys when there are any; 500 with a fixed text for every
      other failure, the malformed ids and dates included. */
  lemma Outcomes(q: Query, today: string, count: Filter -> nat, find: (Filter, Option<Window>) -> seq<OrderRecord>)
    ensures var r := Handle(Some(q), today, count, find);
      && (r.statusCode == 200 <==> SearchFilter(q, today).Ok?)
      && (r.statusCode == 200 ==> r.body == Found(Search(q, today, count, find).value))
      && (r.statusCode == 400 <==> InvalidParams(q) != [])
      && (r.statusCode == 400 ==> r.body == Failure(NotAllowedMessage(InvalidParams(q))))
      && (r.statusCode == 500 <==> SearchFilter(q, today).Err? && InvalidParams(q) == [])
      && (r.statusCode == 500 ==> r.body == Failure(ServerErrorLabel))
  {
    SearchOutcome(q, today, count, find);
    if SearchFilter(q, today).Err? {
      FilterErrors(q, today);
    }
  }

  /** An `order_id` that is not a number gives a 500, not a 400. */
  lemma MalformedIdIsServerError(q: Query, today: string, count: Filter -> nat, find: (Filter, Option<Window>) -> seq<OrderRecord>)
    requires InvalidParams(q) == []
    requires Get(q, "order_id").Some? && !IsDigits(Get(q, "order_id").value)
    ensures Handle(Some(q), today, count, find) == HttpResponse(500, Failure(ServerErrorLabel))
  {
    Outcomes(q, today, count, find);
  }
}
