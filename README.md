# Sales-Order-API core in Dafny

A model of the core of Sales-Order-API, a service that takes orders in
and answers questions about them. It covers four parts:

- **The upload.** It takes in a fixed-width text file of order rows
  (`UploadOrdersUseCaseImpl.execute`). Each non-blank line is read at its
  fixed offsets. Then:
  - the unique index is dropped, and some failures to drop it are tolerated;
  - the rows are cut into batches of 2000;
  - the batches are sent five at a time;
  - the answer holds the counts of saved and skipped rows and the grouped
    view of every row read.
- **The aggregation.** `OrderAggregationServiceImpl.groupAndSum` folds flat
  rows into users, each user's orders and each order's products. Every
  order's total is recomputed as a two-decimal text.
- **The search.** `SearchOrdersUseCaseImpl.execute` does three things:
  - it checks the query's keys against an allow-list;
  - it builds the repository filter from the ids and the date range, where
    a missing end is today and a reversed range is swapped;
  - it pages through the results and groups them.
- **Around them:**
  - the two request validators;
  - the `errorHandler` middleware, which maps an error to an HTTP status
    and body;
  - the search controller, which maps the use case's outcome to 200, 400
    or 500.

The repository and the clock are parameters:
- the upload is given what `dropIndex` did and a function for what
  `insertMany` does with a batch;
- the search is given functions for `countDocuments` and `find`;
- today's date is a string argument.

JavaScript's own operations are written out in the modules `Text`,
`Numbers` and `Money`:
- `trim`, `substring`, `split`, `toLowerCase`, string `<` and `includes`;
- `parseInt`, `Number`, and `parseFloat` with `toFixed(2)` on amounts,
  counted as whole cents.

The loops of the source are methods, proved equal to the functions that
state what they compute:
- `ReadDocuments`, `MakeBatches`, `SaveInWaves`;
- `GroupAndSum` with its `AddToMap`, `FindOrderIndex` and `OrderTotal`;
- `BuildFilter` and the two `Execute` methods.

Each function is then related by lemmas to an independent reference
definition or to its inverse:
- The grouped view is proved equal to a reference. That reference groups
  by first appearance of user id and then of order id.
- A 95-character line built from a row reads back as that row.
- The two-decimal text of an amount reads back as the same amount.
- Batching and waves lose and repeat nothing.

## Model

| member | source | states |
|---|---|---|
| UploadOrders.Execute | src/data/useCases/upload-orders.use-case.ts:26-129 | the method throws or answers exactly what `Upload` says: missing file, wrong extension and fatal index drop first, then the accepted response |
| UploadOrders.UploadFails | src/data/useCases/upload-orders.use-case.ts:27-81 | the upload fails exactly when there is no file, the extension is not "txt", or `dropIndex` threw an object with a `codeName` other than "IndexNotFound"; each failure carries its own message or the thrown error |
| UploadOrders.DropTolerated | src/data/useCases/upload-orders.use-case.ts:70-81 | a tolerated `dropIndex` failure leaves the outcome exactly as if the index had been dropped |
| UploadOrders.ToleratedDrops | src/data/useCases/upload-orders.use-case.ts:72-80 | a missing index, an error without `codeName` and a thrown non-object are all tolerated |
| UploadOrders.UploadSucceeds | src/data/useCases/upload-orders.use-case.ts:118-128 | an accepted upload answers with the success message, the file's name and size, `lines` equal to the number of non-blank lines, `savedOrders + skippedOrders == lines`, saved equal to what the batches saved, and exactly one product per line read in `data` |
| UploadOrders.UploadCounts | src/data/useCases/upload-orders.use-case.ts:85-118 | skipped is never negative when the repository reports at most the batch size; everything is saved when it stores every batch; everything is skipped when it rejects every batch |
| UploadOrders.Respond | src/data/useCases/upload-orders.use-case.ts:106-128 | the accepted path answers with the response `Accepted` defines for the documents read |
| UploadOrders.ReadDocuments | src/data/useCases/upload-orders.use-case.ts:63-69 | the loop yields the parsed non-blank lines of the content in order, and a line count equal to their number |
| UploadOrders.LineDocs | src/data/useCases/upload-orders.use-case.ts:66-68 | a line gives at most one document, and none exactly when it is blank |
| UploadOrders.OneLine | src/data/useCases/upload-orders.use-case.ts:65-68 | a content without newline gives no document when blank and its one parsed line otherwise |
| UploadOrders.DocumentsJoin | src/data/useCases/upload-orders.use-case.ts:65-69 | the documents of two texts joined by a newline are the documents of the first followed by those of the second |
| UploadOrders.TrailingBlankLines | src/data/useCases/upload-orders.use-case.ts:66 | blank lines at the end of a file add no document |
| UploadOrders.NoDocumentsInEmpty | src/data/useCases/upload-orders.use-case.ts:65-66 | an empty file gives no document |
| UploadOrders.ProcessLine | src/data/useCases/upload-orders.use-case.ts:34-62 | the parsed name never has surrounding white space |
| UploadOrders.ReadEncodedLine | src/data/useCases/upload-orders.use-case.ts:34-62 | a row written at the fixed offsets (ids zero-padded to 10, name padded to 45, cents padded to 12, date as `YYYYMMDD`) reads back as the same ids, name, amount in two-decimal form and `YYYY-MM-DD` date |
| UploadOrders.ReadFields | src/data/useCases/upload-orders.use-case.ts:36-51 | any line whose six fields hold those contents, whatever its length, parses into that record |
| UploadOrders.ReadIds | src/data/useCases/upload-orders.use-case.ts:36-43 | zero-padded id fields read back as their numbers |
| UploadOrders.ReadName | src/data/useCases/upload-orders.use-case.ts:38 | a space-padded name field reads back as the name |
| UploadOrders.ReadValue | src/data/useCases/upload-orders.use-case.ts:44-57 | a zero-padded cents field becomes the two-decimal text of those cents |
| UploadOrders.ReadDate | src/data/useCases/upload-orders.use-case.ts:47-51 | the eight-character date field becomes year, '-', month, '-', day |
| UploadOrders.DateShape | src/data/useCases/upload-orders.use-case.ts:47-51 | on a full line the date is ten characters with '-' at 4 and 7, and removing them gives back characters 87 to 95 of the line |
| UploadOrders.DateOfField | src/data/useCases/upload-orders.use-case.ts:47-51 | the same for any eight-character field |
| UploadOrders.ValueReadsBack | src/data/useCases/upload-orders.use-case.ts:44-57 | the stored amount text, read by `parseFloat`, gives back the cents of the field, and NaN for NaN |
| UploadOrders.ValuePadded | src/data/useCases/upload-orders.use-case.ts:44-57 | a 12-digit zero-padded field of `c` cents is stored as the two-decimal text of `c` |
| UploadOrders.ValueExample | src/data/useCases/upload-orders.use-case.ts:44-57 | the field of 1000 cents is stored as "10.00" |
| UploadOrders.MakeBatches | src/data/useCases/upload-orders.use-case.ts:106-110 | the batching loop yields the documents cut into consecutive slices of 2000 |
| UploadOrders.BatchesOf | src/data/useCases/upload-orders.use-case.ts:107-110 | the batches concatenate back to the documents; each holds 1 to 2000 documents; all but the last are full; their number is the ceiling of documents / 2000 |
| UploadOrders.WavesOf | src/data/useCases/upload-orders.use-case.ts:111-113 | the waves concatenate back to the batches, each holds 1 to 5 batches, and there is none only when there are no batches |
| UploadOrders.SaveInWaves | src/data/useCases/upload-orders.use-case.ts:111-117 | the saving loop's total is what the waves save and equally what the batches save one by one |
| UploadOrders.WavesSaveAll | src/data/useCases/upload-orders.use-case.ts:111-117 | sending the batches in waves saves what sending each batch once saves |
| UploadOrders.WavesSaveEveryBatch | src/data/useCases/upload-orders.use-case.ts:111-117 | what any waves save is what their concatenated batches save |
| UploadOrders.SavedBounds | src/data/useCases/upload-orders.use-case.ts:85-105 | the saved total is at most, exactly, or none of the documents sent, as the repository reports at most, all, or nothing |
| UploadOrdersValidation.Validate | src/presentation/validations/upload-orders.validation.ts:4-16 | the check passes exactly when there is a file with a "txt" extension; otherwise it throws the matching message with status code 400 |
| UploadOrdersValidation.AgreesWithUseCase | src/presentation/validations/upload-orders.validation.ts:5-16 | the validator rejects exactly the requests the use case rejects before the drop, with the same message |
| UploadOrdersValidation.RejectionStatus | src/presentation/validations/upload-orders.validation.ts:5-16 | `errorHandler`, given the validator's rejection, answers 400 "Bad Request"; given the same rejection as the use case throws it, without a status code, it answers 500 (at run time the route adapter answers the use case's error before `errorHandler` sees it) |
| Files.IsTxtIff | src/data/useCases/upload-orders.use-case.ts:30-33 | a name passes exactly when it ends in "txt" in any case, preceded by '.' or alone |
| Files.EndsInTxt | src/data/useCases/upload-orders.use-case.ts:30-31 | any base name, '.', and "txt" in any case passes |
| Files.ExtensionAfterDot | src/data/useCases/upload-orders.use-case.ts:30 | the extension of a base name, '.', and a part without '.' is that part lowercased |
| Files.BareTxtPasses | src/data/useCases/upload-orders.use-case.ts:30-31 | the name "txt" alone passes, since a name without '.' is its own last piece |
| Files.TxtNamesPass | tests/presentation/validations/upload-orders.validation.test.ts:54-88 | "test.TXT" and "test.file.txt" pass |
| Files.OtherNamesFail | tests/presentation/validations/upload-orders.validation.test.ts:42-112 | "testfile", "testfile." and "test.pdf" fail |
| OrderAggregation.GroupAndSum | src/data/services/order-aggregation.service.ts:10-59 | the `forEach` over a map with its insertion order returns `Group(records)` |
| OrderAggregation.AddToMap | src/data/services/order-aggregation.service.ts:13-56 | one step keeps the map and its key order in step, and moves the users in key order by exactly one `AddRecord` |
| OrderAggregation.Values | src/data/services/order-aggregation.service.ts:58 | `Array.from(userMap.values())` lists the users in insertion order |
| OrderAggregation.AddOrderProduct | src/data/services/order-aggregation.service.ts:31-55 | find-or-create the order, push the product, recompute the total: the result is `AddToOrders` |
| OrderAggregation.FindOrderIndex | src/data/services/order-aggregation.service.ts:31 | the search loop returns the index `FindOrder` names |
| OrderAggregation.FindOrder | src/data/services/order-aggregation.service.ts:31 | the index of the first order whose id `===` the record's; a NaN id matches nothing |
| OrderAggregation.FindUser | src/data/services/order-aggregation.service.ts:21-29 | the index of the first user with that id, comparing as a `Map` does (NaN equals NaN) |
| OrderAggregation.OrderTotal | src/data/services/order-aggregation.service.ts:50-55 | the reduce loop gives the two-decimal text of the sum of the products' amounts |
| OrderAggregation.SumOfAmounts | src/data/services/order-aggregation.service.ts:50-55 | products whose values are two-decimal texts sum to the sum of their cents |
| OrderAggregation.AmountValue | src/data/services/order-aggregation.service.ts:50-55 | `parseFloat` of a two-decimal text gives back its cents |
| OrderAggregation.NotNumberAddsNothing | src/data/services/order-aggregation.service.ts:51 | a product whose value is not a number adds 0 to the total |
| OrderAggregation.NaNAddsNothing | src/data/services/order-aggregation.service.ts:51 | a "NaN" value adds 0 to the total |
| TotalExamples.TotalExample | tests/data/services/order-aggregation.service.test.ts:124-158 | "100.50", "75.25" and "25.00" total "200.75" |
| UserGrouping.GroupIsReference | src/data/services/order-aggregation.service.ts:10-59 | the fold equals the reference grouping: one user per distinct id in order of first appearance, each holding the grouped orders of its own records |
| UserGrouping.UsersOfGroup | src/data/services/order-aggregation.service.ts:11-58 | the users are the distinct ids of the records, each once, in order of first appearance; each user has the name of its first record and the orders grouped from exactly its records |
| UserGrouping.GroupProductCount | src/data/services/order-aggregation.service.ts:43-48 | every record becomes exactly one product of the result |
| UserGrouping.GroupEmpty | src/data/services/order-aggregation.service.ts:10-58 | no records give no users |
| OrderGrouping.GroupOrdersIsReference | src/data/services/order-aggregation.service.ts:31-55 | one user's order fold equals the reference: one order per distinct id in order of first appearance, and one order per record whose id is NaN |
| OrderGrouping.OrdersOfGroup | src/data/services/order-aggregation.service.ts:31-55 | each order holds the products of exactly its records in order, the date of the first, and the two-decimal total of its products |
| OrderGrouping.OrderIdsDistinct | src/data/services/order-aggregation.service.ts:31-41 | no two orders of a user share a numeric id |
| OrderGrouping.EveryOrderIdGrouped | src/data/services/order-aggregation.service.ts:31-41 | every numeric order id of the records has its order |
| OrderGrouping.GroupOrdersProductCount | src/data/services/order-aggregation.service.ts:43-48 | the orders hold exactly one product per record |
| Money.ParseFormatCents | src/data/services/order-aggregation.service.ts:50-55 | the two-decimal text of any amount, negative included, reads back by `parseFloat` as the same amount |
| Money.FormatCents | src/data/useCases/upload-orders.use-case.ts:57 | `toFixed(2)` text ends in '.' and two digits and starts with '-' exactly for a negative amount |
| Money.FieldCentsPadded | src/data/useCases/upload-orders.use-case.ts:44-45 | a zero-padded amount field reads as its number of cents |
| Numbers.ParseIntPadded | src/data/useCases/upload-orders.use-case.ts:36-43 | `parseInt` of a zero-padded field is its number |
| Numbers.NumberOfDigits | src/data/useCases/search-orders.use-case.ts:39-50 | `Number` of a string of digits is its decimal value |
| Text.Substring | src/data/useCases/upload-orders.use-case.ts:36-51 | `substring` past the end is cut at the end, and inside the string is the slice |
| Text.TrimIsSlice | src/data/useCases/upload-orders.use-case.ts:38 | `trim` removes exactly the white space at both ends and keeps the slice between |
| Text.TrimEmptyIffBlank | src/data/useCases/upload-orders.use-case.ts:66 | a line trims to "" exactly when it is all white space |
| Text.TrimPadded | src/data/useCases/upload-orders.use-case.ts:38 | a trimmed name padded with spaces trims back to itself |
| Text.SplitJoin | src/data/useCases/upload-orders.use-case.ts:65 | the pieces of `split` joined with the separator give the text back |
| Text.SplitAtSeparator | src/data/useCases/upload-orders.use-case.ts:30 | splitting at a separator splits the two sides independently |
| SearchOrders.Execute | src/data/useCases/search-orders.use-case.ts:18-107 | the method throws or answers exactly what `Search` says |
| SearchOrders.BuildFilter | src/data/useCases/search-orders.use-case.ts:22-74 | the filter-building statements, with their in-place defaulting and swapping of the dates, give `SearchFilter` |
| SearchOrders.IdCondition | src/data/useCases/search-orders.use-case.ts:39-50 | a present id is rejected exactly when it is not all digits; otherwise it becomes the condition on its decimal value, and an absent one sets none |
| SearchOrders.DateCondition | src/data/useCases/search-orders.use-case.ts:51-74 | no date condition exactly when neither date is truthy; otherwise the defaults fill in, and the result is an error exactly when a date is not `YYYY-MM-DD`, else a range of the two dates with the smaller first |
| SearchOrders.FilterErrors | src/data/useCases/search-orders.use-case.ts:22-74 | every filter error is a plain `Error` with a message, and it names unknown keys exactly when the query has one |
| SearchOrders.FilterConditions | src/data/useCases/search-orders.use-case.ts:22-74 | an accepted query has only allowed keys; each id condition is present exactly when its key is, and is the decimal value of its all-digit text; the date condition is present exactly when a date is truthy and is never reversed |
| SearchOrders.FilterFirstError | src/data/useCases/search-orders.use-case.ts:34-67 | when several checks fail the first in order decides the error: unknown keys, then a non-digit `order_id`, then a non-digit `user_id`, then a date without the `YYYY-MM-DD` shape |
| SearchOrders.PageNumber | src/data/useCases/search-orders.use-case.ts:75 | the page number is never 0, and 1 without `page` |
| SearchOrders.PageNumbers | src/data/useCases/search-orders.use-case.ts:75 | a page of digits is its value, 0 being page 1 |
| SearchOrders.EmptyPageNumber | src/data/useCases/search-orders.use-case.ts:75 | no page and an empty page are page 1 |
| SearchOrders.PageCount | src/data/useCases/search-orders.use-case.ts:81-82 | 1 page for no items, otherwise the smallest number of 100-item pages that holds them all |
| SearchOrders.PagesCoverItems | src/data/useCases/search-orders.use-case.ts:78-89 | each page from 1 to the page count starts inside the items, 100 after the one before, and the last reaches the end |
| SearchOrders.PageExample | tests/data/useCases/search-orders.use-case.test.ts:202-227 | 250 items, page 3: 3 pages of 100, window skip 200 limit 100 |
| SearchOrders.SearchOutcome | src/data/useCases/search-orders.use-case.ts:75-102 | the search fails exactly when the filter does and with its error; otherwise it reports the count for the filter and the page asked for, and its data holds one product per record `find` returned |
| SearchOrders.SearchAll | src/data/useCases/search-orders.use-case.ts:78-89 | with `all=true`: no window, items per page equal to the count, page count equal to the page number, and the data is all the records grouped |
| SearchQuery.InvalidParams | src/data/useCases/search-orders.use-case.ts:22-31 | the unknown keys are exactly the query's keys outside the allow-list |
| SearchQuery.NoInvalidParams | src/data/useCases/search-orders.use-case.ts:31-36 | there are none exactly when every key is allowed |
| SearchQuery.NotAllowedMessage | src/data/useCases/search-orders.use-case.ts:32-35 | the message starts with the not-allowed text |
| SearchQuery.Get | src/data/useCases/search-orders.use-case.ts:37 | a value is absent exactly when its key is not in the query, and a present one is the query's |
| SearchOrdersValidation.Validate | src/presentation/validations/search-orders.validation.ts:4-41 | every rejection is an `Error` with status code 400; the checks run as unknown keys, `order_id`, `user_id`, `start`, `end`, and the first that fails decides the message |
| SearchOrdersValidation.ValidateAccepts | src/presentation/validations/search-orders.validation.ts:4-41 | a query passes exactly when every key is allowed, each truthy id is all digits and each truthy date is ten characters long |
| SearchOrdersValidation.NotAllowedFirst | src/presentation/validations/search-orders.validation.ts:13-21 | an unknown key wins over every other check, and the message names the unknown keys |
| SearchOrdersValidation.EmptyOrderIdPasses | src/presentation/validations/search-orders.validation.ts:22 | the empty query and an empty `order_id` pass |
| SearchOrdersValidation.DateContentUnchecked | src/presentation/validations/search-orders.validation.ts:32-41 | any ten characters pass as a date |
| SearchOrdersValidation.RejectionIsBadRequest | src/presentation/validations/search-orders.validation.ts:15-40 | through `errorHandler` every rejection is a 400 "Bad Request" with its message |
| SearchOrdersValidation.SameKeyRejection | src/presentation/validations/search-orders.validation.ts:13-21 | the validator and the use case reject unknown keys alike, with the same message |
| SearchOrdersValidation.EmptyOrderIdDisagreement | src/presentation/validations/search-orders.validation.ts:22-26 | an empty `order_id` passes the validator but is rejected by the use case |
| SearchOrdersValidation.DateShapeDisagreement | src/presentation/validations/search-orders.validation.ts:32-36 | a ten-letter start passes the validator but is rejected by the use case |
| SearchOrdersController.Handle | src/presentation/controllers/search-orders.controller.ts:8-31 | the status is 200, 400 or 500, and 200 exactly when the body is the search result |
| SearchOrdersController.MissingQuery | src/presentation/controllers/search-orders.controller.ts:10 | a missing query is the empty query |
| SearchOrdersController.Outcomes | src/presentation/controllers/search-orders.controller.ts:9-30 | 200 with the result exactly when the filter is accepted; 400 naming the unknown keys exactly when there are some; 500 with a fixed text exactly for the other failures |
| SearchOrdersController.MalformedIdIsServerError | src/presentation/controllers/search-orders.controller.ts:26-29 | a non-numeric `order_id` is answered with 500 |
| ErrorHandler.HandleError | src/main/middlewares/error-handler.ts:3-36 | 400, 403 and 404 exactly for an `Error` with that status code, each with its title; 500 for everything else; the error's own message unless it is empty or the value is not an `Error` |
| ErrorHandler.StatusOf | src/main/middlewares/error-handler.ts:10 | a missing or zero status code is 500, any other is kept |
| ErrorHandler.PlainIsServerError | src/main/middlewares/error-handler.ts:9-30 | an `Error` without status code, as the use cases throw, is a 500 keeping its message |

## Where the code and its description differ

The model follows the code in each of these cases:

- **A malformed line is not rejected.** A short line or a line with
  non-numeric fields still becomes a document: its ids are NaN, its amount
  is "NaN", and its fields are short or empty. `ProcessLine` models this.
- **`skippedOrders` can be negative.** It is computed as lines minus saved,
  so it goes below 0 if the repository reports more documents than it was
  given. `saved + skipped == lines` always holds.
- **The search always answers with the pagination envelope**, also when
  `all` is "true".
- **The date check is about shape only.** The use case checks dates with
  the shape test `YYYY-MM-DD`, so "2024-13-45" is accepted.
- **The validator checks less than the use case.** The search validator
  only looks at a date's length. It also lets an empty `order_id` through,
  which the use case rejects.
- **A file named "txt" passes the extension test.**
- **Lines are read at fixed offsets, not split at tabs.** The upload tests
  (tests/data/useCases/upload-orders.use-case.test.ts:192-221) feed a
  tab-separated line and expect the name 'João Silva' and order id 1. The
  code reads fixed-width fields, so that line gives the name
  "va\t1\t1\t100\t20240101" and a NaN order id. `ProcessLine` follows the
  code.

## Left out

- UploadOrders.Execute: the file content is given already decoded to
  text, so `buffer.toString()` (UTF-8 decoding) is not modelled.
- UploadOrders.ProcessLine and SearchOrdersValidation.DatePasses: offsets
  and lengths count characters, while JavaScript counts UTF-16 units, so
  the two differ for characters outside the Basic Multilingual Plane.
- UploadOrders.ProcessLine: `created_at` and `updated_at`
  (`new Date()`) are not modelled.
- UploadOrders.ValueOf: only the leading digits of the amount field are
  read as whole cents. A fraction, an exponent or "Infinity" in the field
  is not modelled.
- UploadOrders.ValueOf: the floating-point division by 100 and the
  rounding of `toFixed(2)` are computed exactly in cents. They differ from
  floating point only beyond 2^53 cents.
- OrderAggregation.OrderTotal: the floating-point sum of the amounts is
  an exact sum of cents, so rounding error in long sums is not modelled.
- Money.ParseCents: `parseFloat` reads digits with at most one fraction;
  exponents and "Infinity" are not read. Fraction digits after the second
  are dropped rather than summed and rounded by `toFixed(2)`: products
  "0.005" and "0.005" total "0.00" in the model where JavaScript prints
  "0.01". The upload only stores two-decimal texts or "NaN", but a search
  reads whatever the repository holds.
- Numbers.NumberValue: `Number` reads decimal integers only. Hex, octal
  and binary prefixes, fractions, exponents and "Infinity" are not read.
- Numbers.ParseInt and Numbers.NumberValue: integers are unbounded, so
  the loss of precision beyond 2^53 is not modelled.
- SearchQuery.Get: the values are strings only, so an array or nested
  object value (a repeated key in the URL) is not modelled.
- SearchQuery.Get: a key that occurs twice is read at its first
  occurrence.
- SearchOrders.Search: errors thrown by `countDocuments` or `find` are not
  modelled. The repository is a pair of total functions.
- SearchOrders.Search: how MongoDB evaluates the filter is not modelled;
  `count` and `find` are arbitrary functions.
- SearchOrders.Search: the `console.error` before rethrowing is not
  modelled.
- UploadOrders.SaveInWaves: the batches of one wave are run one after the
  other, not under `Promise.all`. The wave's total does not depend on the
  order.
- UploadOrders.SaveInWaves: what `insertMany` does with a batch depends
  only on the batch, not on what earlier batches stored.
- UploadOrders.SaveBatch: the `console.warn` calls are not modelled.
- UploadOrders.DropIsFatal: two kinds of thrown value cannot be
  expressed. One is an object that is not an `Error` but has a `codeName`;
  the source treats it as fatal. The other is a `codeName` property that
  is present but `undefined`.
- ErrorHandler.HandleError: a `statusCode` that is not a number is not
  modelled.
- Not part of this model:
  - the Express and Multer wiring, routes, factories, CORS, Swagger,
    server start-up and the healthcheck;
  - the upload controller (`upload-orders.controller.ts`).

  The upload validator is modelled as a standalone check beside the use
  case.
