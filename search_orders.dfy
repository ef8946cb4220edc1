/** `SearchOrdersUseCaseImpl.execute`: checks the query, builds the
    repository filter from it, picks a page and answers with the page's
    records grouped by user and order.

    The repository is a parameter: `count` is what `countDocuments` gives
    for a filter and `find` what `find` returns for a filter and an
    optional window. Today's date (`new Date().toISOString().slice(0, 10)`)
    is a parameter too. */
module SearchOrders {
  import opened Wrappers
  import opened Text
  import opened Numbers
  import opened Orders
  import opened Errors
  import opened Seqs
  import opened SearchQuery
  import opened OrderAggregation
  import opened UserGrouping

  const DateFormatMessage := "Datas devem estar no formato YYYY-MM-DD"
  const EarliestDate := "0000-01-01"
  const PageSize: nat := 100

  /** `{ $gte: gte, $lte: lte }` on the `date` field. */
  datatype DateRange = DateRange(gte: string, lte: string)

  /** The repository filter: each condition is present or absent. */
  datatype Filter = Filter(orderId: Option<int>, userId: Option<int>, date: Option<DateRange>)

  /** The `{ skip, limit }` options of a paged `find`. */
  datatype Window = Window(skip: int, limit: nat)

  datatype Pagination = Pagination(totalPages: int, currentPage: int, totalItems: nat, itemsPerPage: nat)

  datatype SearchResponse = SearchResponse(pagination: Pagination, data: seq<UserDto>)

  // ---------------------------------------------------------------------
  // The filter
  // ---------------------------------------------------------------------

  /** An id parameter: absent, no condition; present, it must be made of
      digits, and the condition is its number. */
  function IdCondition(v: Option<string>, message: string): (r: Result<Option<int>, Thrown>)
    ensures r.Err? <==> v.Some? && !IsDigits(v.value)
    ensures r.Err? ==> r.error == Plain(message)
    ensures r.Ok? ==> (r.value.Some? <==> v.Some?)
    ensures r.Ok? && v.Some? ==> AllDigitsIn(v.value, 10) && r.value == Some(ValueIn(v.value, 10))
  {
    if v.None? then Ok(None)
    else if !IsDigits(v.value) then Err(Plain(message))
    else
      NumberOfDigits(v.value);
      Ok(NumberValue(v.value))
  }

  /** The start date used: the one given, or the earliest date. */
  function StartOf(start: Option<string>): string {
    if Truthy(start) then start.value else EarliestDate
  }

  /** The end date used: the one given, or today. */
  function EndOf(end: Option<string>, today: string): string {
    if Truthy(end) then end.value else today
  }

  /** A range over two dates of the `YYYY-MM-DD` shape, running from the
      smaller to the larger. */
  predicate OrderedRange(range: DateRange, s: string, e: string) {
    && IsIsoDate(range.gte) && IsIsoDate(range.lte)
    && !Less(range.lte, range.gte)
    && (range == DateRange(s, e) || range == DateRange(e, s))
  }

  /** The date condition. With neither date given there is none. A
      missing start is the earliest date and a missing end is today; both
      must then have the `YYYY-MM-DD` shape, and the range runs from the
      smaller to the larger, so it is never empty by construction. */
  function DateCondition(start: Option<string>, end: Option<string>, today: string): (r: Result<Option<DateRange>, Thrown>)
    ensures r.Ok? && r.value.None? <==> !Truthy(start) && !Truthy(end)
    ensures r.Err? <==> (Truthy(start) || Truthy(end)) && !(IsIsoDate(StartOf(start)) && IsIsoDate(EndOf(end, today)))
    ensures r.Err? ==> r.error == Plain(DateFormatMessage)
    ensures r.Ok? && r.value.Some? ==> OrderedRange(r.value.value, StartOf(start), EndOf(end, today))
  {
    if !Truthy(start) && !Truthy(end) then Ok(None)
    else
      var s := StartOf(start);
      var e := EndOf(end, today);
      LessTotal(s, e);
      if !IsIsoDate(s) || !IsIsoDate(e) then Err(Plain(DateFormatMessage))
      else if Less(e, s) then Ok(Some(DateRange(e, s)))
      else Ok(Some(DateRange(s, e)))
  }

  /** The filter for a query, or the first error: unknown keys, then
      `order_id`, then `user_id`, then the dates. */
  function SearchFilter(q: Query, today: string): Result<Filter, Thrown> {
    var bad := InvalidParams(q);
    var orderId := IdCondition(Get(q, "order_id"), OrderIdMessage);
    var userId := IdCondition(Get(q, "user_id"), UserIdMessage);
    var date := DateCondition(Get(q, "start"), Get(q, "end"), today);
    if bad != [] then Err(Plain(NotAllowedMessage(bad)))
    else if orderId.Err? then Err(orderId.error)
    else if userId.Err? then Err(userId.error)
    else if date.Err? then Err(date.error)
    else Ok(Filter(orderId.value, userId.value, date.value))
  }

  /** The filter-building statements of `execute`: the id checks, then
      `startDate`/`endDate` defaulted, checked and swapped in place. */
  method BuildFilter(query: Query, today: string) returns (r: Result<Filter, Thrown>)
    ensures r == SearchFilter(query, today)
  {
    var invalidParams := InvalidParams(query);
    if |invalidParams| > 0 {
      return Err(Plain(NotAllowedMessage(invalidParams)));
    }
    var orderId, userId := Get(query, "order_id"), Get(query, "user_id");
    var start, end := Get(query, "start"), Get(query, "end");
    var filterOrderId: Option<int> := None;
    if orderId.Some? {
      if !IsDigits(orderId.value) {
        return Err(Plain(OrderIdMessage));
      }
      filterOrderId := NumberValue(orderId.value);
    }
    var filterUserId: Option<int> := None;
    if userId.Some? {
      if !IsDigits(userId.value) {
        return Err(Plain(UserIdMessage));
      }
      filterUserId := NumberValue(userId.value);
    }
    var startDate := if Truthy(start) then start else None;
    var endDate := if Truthy(end) then end else None;
    if startDate.Some? && endDate.None? {
      endDate := Some(today);
    }
    if startDate.None? && endDate.Some? {
      startDate := Some(EarliestDate);
    }
    var date: Option<DateRange> := None;
    if startDate.Some? && endDate.Some? {
      if !IsIsoDate(startDate.value) || !IsIsoDate(endDate.value) {
        return Err(Plain(DateFormatMessage));
      }
      if Less(endDate.value, startDate.value) {
        var temp := startDate;
        startDate := endDate;
        endDate := temp;
      }
      date := Some(DateRange(startDate.value, endDate.value));
    }
    return Ok(Filter(filterOrderId, filterUserId, date));
  }

  // ---------------------------------------------------------------------
  // The page
  // ---------------------------------------------------------------------

  /** `Number(page) || 1`: the page's number, or 1 when it is not a
      number or is 0. */
  function PageNumber(page: Option<string>): (n: int)
    ensures n != 0
    ensures page.None? ==> n == 1
  {
    var v := if page.None? then None else NumberValue(page.value);
    if v.None? || v.value == 0 then 1 else v.value
  }

  /** `Math.ceil(totalItems / 100) || 1`. */
  function PageCount(totalItems: nat): (pages: nat)
    ensures totalItems == 0 ==> pages == 1
    ensures totalItems > 0 ==> (pages - 1) * PageSize < totalItems <= pages * PageSize
  {
    if totalItems == 0 then 1 else (totalItems + PageSize - 1) / PageSize
  }

  /** The pagination block: pages of 100 unless `all` is "true", in which
      case a single page holds every item and the page count is the page
      number asked for. */
  function Paging(totalItems: nat, pageNumber: int, all: bool): Pagination {
    if all then Pagination(pageNumber, pageNumber, totalItems, totalItems)
    else Pagination(PageCount(totalItems), pageNumber, totalItems, PageSize)
  }

  /** The window `find` is given: none when `all` is "true", otherwise
      `skip = (pageNumber - 1) * limit` and the limit. */
  function WindowOf(p: Pagination, all: bool): Option<Window> {
    if all then None else Some(Window((p.currentPage - 1) * p.itemsPerPage, p.itemsPerPage))
  }

  /** What `execute` answers for a query, or what it throws. */
  function Search(q: Query, today: string, count: Filter -> nat, find: (Filter, Option<Window>) -> seq<OrderRecord>)
    : Result<SearchResponse, Thrown>
  {
    match SearchFilter(q, today)
    case Err(e) => Err(e)
    case Ok(filter) =>
      var all := Get(q, "all") == Some("true");
      var pagination := Paging(count(filter), PageNumber(Get(q, "page")), all);
      Ok(SearchResponse(pagination, Group(find(filter, WindowOf(pagination, all)))))
  }

  /** `execute`. */
  method Execute(query: Query, today: string, count: Filter -> nat, find: (Filter, Option<Window>) -> seq<OrderRecord>)
    returns (r: Result<SearchResponse, Thrown>)
    ensures r == Search(query, today, count, find)
  {
    var filter := BuildFilter(query, today);
    if filter.Err? {
      return Err(filter.error);
    }
    var pageNumber := PageNumber(Get(query, "page"));
    var totalItems := count(filter.value);
    var all := Get(query, "all") == Some("true");
    var limitNumber := if !all then PageSize else totalItems;
    var skip := (pageNumber - 1) * limitNumber;
    var totalPages := if !all then PageCount(totalItems) else pageNumber;
    var docs := if all then find(filter.value, None) else find(filter.value, Some(Window(skip, limitNumber)));
    var result := GroupAndSum(docs);
    r := Ok(SearchResponse(Pagination(totalPages, pageNumber, totalItems, limitNumber), result));
  }

  // ---------------------------------------------------------------------
  // What a search promises
  // ---------------------------------------------------------------------

  /** Every error of the filter is a plain `Error` without a status code;
      it is about unknown keys, recognisably by its text, exactly when
      the query has a key outside the allow-list. */
  lemma FilterErrors(q: Query, today: string)
    requires SearchFilter(q, today).Err?
    ensures var e := SearchFilter(q, today).error;
      e.Error? && e.statusCode.None? && e.message != [] &&
      (Contains(e.message, NotAllowedText) <==> InvalidParams(q) != [])
  {
    var bad := InvalidParams(q);
    var orderId := IdCondition(Get(q, "order_id"), OrderIdMessage);
    var userId := IdCondition(Get(q, "user_id"), UserIdMessage);
    var e := SearchFilter(q, today).error;
    if bad != [] {
      assert e == Plain(NotAllowedMessage(bad));
      NotAllowedMessageFlagged(bad);
    } else if orderId.Err? {
      assert e == Plain(OrderIdMessage);
      Unflagged(e.message);
    } else if userId.Err? {
      assert e == Plain(UserIdMessage);
      Unflagged(e.message);
    } else {
      assert e == Plain(DateFormatMessage);
      Unflagged(e.message);
    }
  }

  /** None of the other messages reads as one about unknown keys: none
      holds the letter that text starts with. */
  lemma Unflagged(m: string)
    requires m == OrderIdMessage || m == UserIdMessage || m == DateFormatMessage
    ensures m != [] && !Contains(m, NotAllowedText)
  {
    if m == OrderIdMessage {
      OrderIdUnflagged();
    } else if m == UserIdMessage {
      UserIdUnflagged();
    } else {
      DateFormatUnflagged();
    }
    NotContainsByFirstChar(m, NotAllowedText);
  }

  lemma OrderIdUnflagged()
    ensures NotAllowedText != [] && NotAllowedText[0] !in OrderIdMessage
  {
  }

  lemma UserIdUnflagged()
    ensures NotAllowedText != [] && NotAllowedText[0] !in UserIdMessage
  {
  }

  lemma DateFormatUnflagged()
    ensures NotAllowedText != [] && NotAllowedText[0] !in DateFormatMessage
  {
  }

  /** A filter keeps every condition the query asks for, side by side:
      each id given becomes a condition on its number, and the date range
      is present exactly when a date is given. */
  lemma FilterConditions(q: Query, today: string)
    requires SearchFilter(q, today).Ok?
    ensures var f := SearchFilter(q, today).value;
      && InvalidParams(q) == []
      && (f.orderId.Some? <==> Get(q, "order_id").Some?)
      && (f.userId.Some? <==> Get(q, "user_id").Some?)
      && (f.orderId.Some? ==> IsDigits(Get(q, "order_id").value) && AllDigitsIn(Get(q, "order_id").value, 10))
      && (f.orderId.Some? ==> f.orderId.value == ValueIn(Get(q, "order_id").value, 10))
      && (f.userId.Some? ==> IsDigits(Get(q, "user_id").value) && AllDigitsIn(Get(q, "user_id").value, 10))
      && (f.userId.Some? ==> f.userId.value == ValueIn(Get(q, "user_id").value, 10))
      && (f.date.Some? <==> Truthy(Get(q, "start")) || Truthy(Get(q, "end")))
      && (f.date.Some? ==> !Less(f.date.value.lte, f.date.value.gte))
  {
    var orderId := IdCondition(Get(q, "order_id"), OrderIdMessage);
    var userId := IdCondition(Get(q, "user_id"), UserIdMessage);
    var date := DateCondition(Get(q, "start"), Get(q, "end"), today);
    assert InvalidParams(q) == [] && orderId.Ok? && userId.Ok? && date.Ok?;
    assert SearchFilter(q, today).value == Filter(orderId.value, userId.value, date.value);
  }

  /** When several checks fail, the first in the order of `execute`
      decides the error: unknown keys, then a present `order_id` that is
      not all digits, then such a `user_id`, then a date without the
      `YYYY-MM-DD` shape. */
  lemma FilterFirstError(q: Query, today: string)
    ensures InvalidParams(q) != [] ==> SearchFilter(q, today) == Err(Plain(NotAllowedMessage(InvalidParams(q))))
    ensures InvalidParams(q) == [] && Get(q, "order_id").Some? && !IsDigits(Get(q, "order_id").value)
      ==> SearchFilter(q, today) == Err(Plain(OrderIdMessage))
    ensures InvalidParams(q) == [] && (Get(q, "order_id").None? || IsDigits(Get(q, "order_id").value))
      && Get(q, "user_id").Some? && !IsDigits(Get(q, "user_id").value)
      ==> SearchFilter(q, today) == Err(Plain(UserIdMessage))
    ensures InvalidParams(q) == [] && (Get(q, "order_id").None? || IsDigits(Get(q, "order_id").value))
      && (Get(q, "user_id").None? || IsDigits(Get(q, "user_id").value))
      && (Truthy(Get(q, "start")) || Truthy(Get(q, "end")))
      && !(IsIsoDate(StartOf(Get(q, "start"))) && IsIsoDate(EndOf(Get(q, "end"), today)))
      ==> SearchFilter(q, today) == Err(Plain(DateFormatMessage))
  {
    var orderId := IdCondition(Get(q, "order_id"), OrderIdMessage);
    var userId := IdCondition(Get(q, "user_id"), UserIdMessage);
    var date := DateCondition(Get(q, "start"), Get(q, "end"), today);
    assert orderId.Err? <==> Get(q, "order_id").Some? && !IsDigits(Get(q, "order_id").value);
    assert userId.Err? <==> Get(q, "user_id").Some? && !IsDigits(Get(q, "user_id").value);
  }

  /** Consecutive pages of 100 follow each other without gap or overlap;
      every page up to the page count starts at an existing item, and the
      last one reaches the last item. */
  lemma PagesCoverItems(totalItems: nat, page: int)
    requires totalItems > 0 && 1 <= page <= PageCount(totalItems)
    ensures var w := WindowOf(Paging(totalItems, page, false), false).value;
      && w.limit == PageSize
      && 0 <= w.skip < totalItems
      && WindowOf(Paging(totalItems, page + 1, false), false).value.skip == w.skip + PageSize
      && (page == PageCount(totalItems) ==> totalItems <= w.skip + w.limit)
  {
    var n := PageCount(totalItems);
    assert (page - 1) * PageSize <= (n - 1) * PageSize;
  }

  /** 250 items, page 3: the window skips 200 items and there are 3 pages. */
  lemma PageExample()
    ensures Paging(250, 3, false) == Pagination(3, 3, 250, 100)
    ensures WindowOf(Paging(250, 3, false), false) == Some(Window(200, 100))
  {
  }

  /** A page of digits is read as its number, page 0 being page 1. */
  lemma PageNumbers(digits: string)
    requires IsDigits(digits)
    ensures AllDigitsIn(digits, 10)
    ensures PageNumber(Some(digits)) == if ValueIn(digits, 10) == 0 then 1 else ValueIn(digits, 10)
  {
    NumberOfDigits(digits);
  }

  /** No page, or an empty one, is the first page. */
  lemma EmptyPageNumber()
    ensures PageNumber(None) == 1
    ensures PageNumber(Some("")) == 1
  {
    assert Trim("") == "";
  }

  /** A search succeeds exactly when its filter does and then fails with
      the filter's error otherwise; on success the page reports the
      repository's count and holds every record `find` returned, each
      once, grouped by user and order. */
  lemma SearchOutcome(q: Query, today: string, count: Filter -> nat, find: (Filter, Option<Window>) -> seq<OrderRecord>)
    ensures var r := Search(q, today, count, find);
      && (r.Ok? <==> SearchFilter(q, today).Ok?)
      && (r.Err? ==> r.error == SearchFilter(q, today).error)
    ensures var r := Search(q, today, count, find);
      r.Ok? ==>
        var f := SearchFilter(q, today).value;
        var all := Get(q, "all") == Some("true");
        && r.value.pagination.totalItems == count(f)
        && r.value.pagination.currentPage == PageNumber(Get(q, "page"))
        && r.value.pagination.currentPage != 0
        && Total(r.value.data, OrderProducts) == |find(f, WindowOf(r.value.pagination, all))|
  {
    var r := Search(q, today, count, find);
    if r.Ok? {
      var f := SearchFilter(q, today).value;
      var all := Get(q, "all") == Some("true");
      GroupProductCount(find(f, WindowOf(r.value.pagination, all)));
    }
  }

  /** With `all=true` there is no window: `find` gets the bare filter,
      one page holds every item, and the page count echoes the page
      number. */
  lemma SearchAll(q: Query, today: string, count: Filter -> nat, find: (Filter, Option<Window>) -> seq<OrderRecord>)
    requires Get(q, "all") == Some("true") && SearchFilter(q, today).Ok?
    ensures var r := Search(q, today, count, find);
      var f := SearchFilter(q, today).value;
      && r.Ok?
      && r.value.pagination.itemsPerPage == count(f)
      && r.value.pagination.totalPages == r.value.pagination.currentPage
      && r.value.data == Group(find(f, None))
  {
  }
}
