# Transaction rules of the sinibeli backend, in Dafny

This project models the transaction subsystem of a small Go REST backend, together with
three printing exercises that ship in the same repository. The backend manages companies,
customers, products and transactions.

The model covers five parts:

- **Field and filter validation** (`TxModel`, model.go). This is the ordered chain of checks
  in `Transaction.Validate` and `TransactionSummaryFilter.Validate`, with the sentinel errors
  and their messages.
- **Creation rules** (`TxService`, service.go).
  - `Create` runs its checks in order: validate, stamp the time, customer exists, product
    exists, id not taken, type rule, insert.
  - The refund rule tracks the balance of purchases minus refunds, and a 30-day window after
    the latest purchase.
  - The purchase rule has amount bounds and a tax-share cap for each tax type.
  - The payment rule.
  - Also covered: `GetByID`, `GetAll`, and the ceiling page count of the two reports.
  - The store is one immutable value: the customer and product ids, and the transaction rows
    in insertion order. `time.Now()` becomes the parameter `now`.
- **Handlers** (`TxHandler`, handler.go).
  - Binding and parameter checks, with their defaults, bounds and the end-of-day extension.
  - The refund tax check.
  - The status code each error value receives.
  - Parameters arrive already parsed, as `Missing`, `Unparsable` or `Given(v)`.
- **Repository** (`TxRepository`, `TxReports`, repository.go).
  - The row mapping of the nullable `tax_type` column, and the lookup by id and by
    (customer, product).
  - How optional filters become numbered placeholders and bound arguments, and how the count
    statement and the LIMIT/OFFSET statement are assembled.
  - The offset as Go computes it and as it is meant.
  - What the grouped summary and the ranked activity report mean over a sequence of rows.
- **Printing exercises** (`LogicTest`, logicTest/logic.go). The Fibonacci line, the star
  pyramid and the hollow diamond, each as a pure producer of its lines.

Model conventions:

- Amounts are exact `real`s.
- Timestamps are whole Unix seconds. Go's zero `time.Time` is the constant `ZeroTime`.
- Thirty days is `30 * 86400` seconds.
- `latestPurchase = &tx` at service.go:85 is read with Go 1.22 loop-variable semantics: each
  iteration has its own `tx`.

How the handlers turn errors into status codes:

- The create handler answers 400 for the eight field sentinels of `Validate` and 500 for every
  other service error, including a taken id, a missing customer or product, and a refund over
  the balance (handler.go:86-96; `TxHandler.ServiceErrorsAreServerErrors`,
  `TxHandler.DuplicateIdIsServerError`).
- `GetByID` answers 500 when no transaction has the id, because its not-found comparison never
  matches the service's error text (see Findings).

## Model

| member | source | states |
|---|---|---|
| `TxModel.IsValidTransactionType` | internal/app/transaction/model.go:193-200 | accepted exactly for purchase, refund, payment |
| `TxModel.IsValidPaymentStatus` | internal/app/transaction/model.go:202-209 | accepted exactly for pending, completed, failed, cancelled |
| `TxModel.IsValidTaxType` | internal/app/transaction/model.go:211-218 | accepted exactly for VAT, GST, SALES_TAX and the empty string |
| `TxModel.Validate` | internal/app/transaction/model.go:120-153 | nil iff ids > 0, amount > 0, tax >= 0, type, status and tax type in their sets, timestamp zero or not after now; any error is one of the eight field sentinels |
| `TxModel.ValidateReportsFirstFailure` | internal/app/transaction/model.go:122-150 | the k-th sentinel is reported iff checks 0..k-1 pass and check k fails (customer, product, amount, tax, type, status, tax type, future date) |
| `TxModel.EmptyTaxTypeNeverRejected` | internal/app/transaction/model.go:144-146 | an empty tax type never yields ErrInvalidTaxType |
| `TxModel.UnknownTaxTypeRejected` | internal/app/transaction/model.go:144-146 | any other tax type outside VAT/GST/SALES_TAX yields ErrInvalidTaxType once earlier checks pass |
| `TxModel.TimestampBoundary` | internal/app/transaction/model.go:148-150 | a zero timestamp or one equal to now is never "in the future" |
| `TxModel.ValidateFilter` | internal/app/transaction/model.go:155-191 | nil iff paging in bounds, dates ordered when both present, min < max when both present, amounts non-negative, present ids positive |
| `TxModel.ValidateFilterReportsFirstFailure` | internal/app/transaction/model.go:157-188 | the k-th filter error is reported iff it is the first failing check in source order |
| `TxModel.FilterPagingChecks` | internal/app/transaction/model.go:157-162 | page < 1 reports ErrInvalidPage whatever the size; otherwise the size error is reported iff size is outside [1, 100] |
| `TxModel.FilterDateRange` | internal/app/transaction/model.go:164-168 | the date-range error is raised iff both dates are present and start is strictly after end |
| `TxModel.FilterEqualNegativeAmounts` | internal/app/transaction/model.go:170-181 | min = max = -1 reports the amount-range error, not a negative amount |
| `TxModel.FilterOptionalFields` | internal/app/transaction/model.go:183-188 | absent filters are never rejected; a present company or product id <= 0 is |
| `TxRepository.TaxTypeColumn` | internal/app/transaction/repository.go:25-30 | the bound value is NULL exactly for the empty tax type |
| `TxRepository.TaxTypeField` | internal/app/transaction/repository.go:80-82 | a NULL column reads back as the empty tax type |
| `TxRepository.TaxTypeRoundTrip` | internal/app/transaction/repository.go:25-30 | writing then reading returns every tax type; reading then writing returns every column except a stored "" |
| `TxRepository.RowRoundTrip` | internal/app/transaction/repository.go:17-85 | every field of a transaction survives an insert followed by a scan |
| `TxRepository.FindById` | internal/app/transaction/repository.go:50-85 | absent (with no error) iff no row has the id; otherwise the scanned row with that id |
| `TxRepository.History` | internal/app/transaction/repository.go:295-344 | exactly the (customer, product) rows: every matching row is in it and everything in it comes from a matching row |
| `TxRepository.HistoryCons` | internal/app/transaction/repository.go:295-344 | read front to back, the first row contributes first; with the empty case this fixes the history exactly, each matching row once per occurrence, in table order |
| `TxRepository.HistorySnoc` | internal/app/transaction/repository.go:311-336 | a row appended to the table is appended to the history exactly when it matches |
| `TxRepository.ApplyTermsNumbersConsecutively` | internal/app/transaction/repository.go:384-421 | the builder loop appends the clauses numbered $n, $n+1, ... with no gaps and advances argPos by the number of present filters |
| `TxRepository.ApplyTermsBindsInOrder` | internal/app/transaction/repository.go:384-421 | the builder loop binds exactly one argument per present filter, in filter order |
| `TxRepository.SummaryTerms` | internal/app/transaction/repository.go:387-421 | one term per present filter, strictly in the order company, product, start, end, min, max, each carrying its filter's value; absent filters contribute nothing |
| `TxRepository.FilteredStatements` | internal/app/transaction/repository.go:384-437 | both statements share one base query: the fixed head, the clauses numbered $1..$k, the fixed tail; LIMIT is $(k+1), OFFSET $(k+2); arguments are the k filter values then page size and offset |
| `TxRepository.SummaryStatements` | internal/app/transaction/repository.go:423-437 | k = number of present filters; the count statement runs the base query with exactly the k filter arguments; the page statement uses LIMIT $(k+1) OFFSET $(k+2) and binds k+2 arguments ending with page size and offset |
| `TxRepository.ActivityTerms` | internal/app/transaction/repository.go:228-238 | the company term first and the minimum-count term last, present exactly when their filters are |
| `TxRepository.ActivityStatements` | internal/app/transaction/repository.go:240-263 | same numbering, count wrapping and argument layout for the activity report |
| `TxRepository.WrapInt64` | internal/app/transaction/repository.go:435 | int64 two's-complement wrap: result in range, congruent mod 2^64, identity in range |
| `TxRepository.GoOffset` | internal/app/transaction/repository.go:435 | Go's int64 offset; equal to (page-1)*pageSize when that fits |
| `TxRepository.GoOffsetWrapsNegative` | internal/app/transaction/repository.go:435 | page 2^57+1 with page size 100 gives a negative offset |
| `TxRepository.Offset` | internal/app/transaction/repository.go:435-437 | the intended offset: 0 on page 1, and offset + pageSize = page * pageSize |
| `TxRepository.GoOffsetAgreesWithOffset` | internal/app/transaction/repository.go:435 | within int64 range the computed offset is the intended one |
| `TxRepository.Window` | internal/app/transaction/repository.go:436-437 | LIMIT/OFFSET keeps min(limit, rows left) rows starting at the offset |
| `TxRepository.FirstPageStartsAtZero` | internal/app/transaction/repository.go:435-437 | page 1 is the first pageSize rows |
| `TxRepository.ConsecutivePagesAdjacent` | internal/app/transaction/repository.go:435-437 | page p+1 starts where page p ends; together they are one window of twice the size |
| `TxRepository.PagesArePrefix` | internal/app/transaction/repository.go:435-437 | pages 1..n concatenated are exactly the first n*pageSize rows |
| `TxReports.LastOf` | internal/app/transaction/repository.go:359-366 | `id_last_trx` row: a member of the group that is greatest in (datetime, id) order |
| `TxReports.FirstOf` | internal/app/transaction/repository.go:368-375 | `id_first_trx` row: a member of the group that is least in (datetime, id) order |
| `TxReports.LastOfIsUnique` | internal/app/transaction/repository.go:364 | with unique ids the greatest row is unique, so the tie-break on id determines the answer |
| `TxReports.GroupOf` | internal/app/transaction/repository.go:377-382 | exactly the rows of one (company, product) group |
| `TxReports.GroupOfCounts` | internal/app/transaction/repository.go:377-382 | the group holds each row of its company and product as often as the table does, and no other row |
| `TxReports.Where` | internal/app/transaction/repository.go:387-421 | exactly the rows satisfying every present filter |
| `TxReports.WhereCounts` | internal/app/transaction/repository.go:387-421 | the WHERE clause keeps each selected row as often as the table holds it, and no other row |
| `TxReports.UnfilteredSelectsAll` | internal/app/transaction/repository.go:133-175 | with every filter absent all rows are selected, so each group's summary row is the same in the unfiltered report and in the filtered one without filters; the unfiltered query returns every group, while the filtered one always pages |
| `TxReports.MaxTime` | internal/app/transaction/repository.go:359 | `last_trx_on` is attained by a row and bounds every row |
| `TxReports.MinTime` | internal/app/transaction/repository.go:368 | `first_trx_on` is attained by a row and bounds every row |
| `TxReports.SumAppend` | internal/app/transaction/repository.go:354-356 | the amount and tax sums are additive over a split of the rows |
| `TxReports.SumPermutation` | internal/app/transaction/repository.go:354-356 | rows holding the same multiset have the same amount and tax sums, as SQL `SUM` promises |
| `TxReports.SumRemove` | internal/app/transaction/repository.go:354-356 | the sums are one row's share plus the sums over the remaining rows |
| `TxReports.SummarizeGroup` | internal/app/transaction/repository.go:348-426 | amount and tax are the sums, count the size, last/first date the max/min over the filtered group; the first/last ids range over the whole unfiltered group |
| `TxReports.SummaryOrderIndependent` | internal/app/transaction/repository.go:348-426 | the aggregate columns are the same for any order of the same table rows |
| `TxReports.SelectionOrderIndependent` | internal/app/transaction/repository.go:377-421 | the same table rows in any order give the same filtered group, counted with multiplicity |
| `TxReports.ExtremesOfSameRows` | internal/app/transaction/repository.go:359-368 | `MAX` and `MIN` of the datetime depend only on which rows are present |
| `TxReports.IdLastIgnoresDateFilter` | internal/app/transaction/repository.go:359-366 | an end-date filter can leave `id_last_trx` naming a transaction later than `last_trx_on` |
| `TxReports.NumberRows` | internal/app/transaction/repository.go:243-244 | rows keep their arrival order; numbers lie in 1..n and, with one row per (company, customer), order the rows exactly as (company, count desc, customer) does, all distinct |
| `TxReports.RowNumbersRank` | internal/app/transaction/repository.go:243-244 | a row's number is fixed by the window ordering alone: smaller number iff ranked earlier, whatever the input order |
| `TxReports.NumbersFollowPositionWhenRanked` | internal/app/transaction/repository.go:243-244 | on rows already in window order, each number is the row's position plus one |
| `TxReports.NumbersIgnoreArrivalOrder` | internal/app/transaction/repository.go:243-244 | two rows arriving against the window order are numbered 2 and 1 |
| `TxReports.RowNumbersStableAcrossPages` | internal/app/transaction/repository.go:240-263 | the j-th row of a page is the row at offset + j of the whole result, with its number; in window order that number is (p-1)*pageSize + j + 1 |
| `TxService.Stamp` | internal/app/transaction/service.go:31-33 | a zero timestamp becomes now; any other transaction is unchanged; no other field changes |
| `TxService.StampIdempotent` | internal/app/transaction/service.go:25-33 | stamping twice is stamping once, and stamping never changes the validation verdict |
| `TxService.LatestPurchase` | internal/app/transaction/service.go:79-86 | None iff no purchase; otherwise a purchase with the greatest timestamp, the first such one |
| `TxService.RefundRule` | internal/app/transaction/service.go:66-108 | a refund passes iff history non-empty, 0 < amount <= purchases - refunds, and some purchase lies within 30 days before it; each failure reports its own error: empty history, over the balance, not positive, no purchase, every purchase too old |
| `TxService.CheckRefund` | internal/app/transaction/service.go:73-108 | the single-pass loop with running totals and latest-purchase pointer computes exactly the refund rule |
| `TxService.PercentAbove` | internal/app/transaction/service.go:122-124 | (tax / amount) * 100 > bound iff tax * 100 > bound * amount, for positive amounts |
| `TxService.PurchaseRule` | internal/app/transaction/service.go:110-142 | passes iff 1 <= amount <= 1,000,000 and, when tax > 0, tax*100 <= cap*amount with cap 25/15/12 for VAT/GST/SALES_TAX and 50 otherwise; each failing check reports its own error: below minimum, above maximum, over 50%, then the VAT, GST or SALES_TAX cap |
| `TxService.GeneralCapPrecedesTypeCap` | internal/app/transaction/service.go:124-126 | above 50% the general error wins over the type-specific one |
| `TxService.PaymentRule` | internal/app/transaction/service.go:144-147 | passes iff amount > 0 |
| `TxService.TypeRule` | internal/app/transaction/service.go:65-148 | passes iff the rule of the transaction's type accepts; unknown types have no rule; its errors are never field sentinels |
| `TxService.Create` | internal/app/transaction/service.go:25-151 | succeeds iff validation, customer, product, unused id and type rule all hold; the error is the first failing stage's: validation's own error, customer not found, product not found, duplicate id, then the type rule's verdict on the stamped transaction; on failure nothing changes; on success exactly the stamped row is appended |
| `TxService.CreatePreservesInvariant` | internal/app/transaction/service.go:25-151 | unique ids, existing references, positive amounts and set timestamps are kept by every create |
| `TxService.GetById` | internal/app/transaction/service.go:153-162 | fails with "transaction not found" iff no row has the id; otherwise returns that row |
| `TxService.GetByIdAfterInsert` | internal/app/transaction/service.go:153-162 | a row with a new id is what GetByID returns after it is appended |
| `TxService.CreateThenGetById` | internal/app/transaction/service.go:150-162 | a created transaction is read back as the stamped transaction |
| `TxService.RejectedNotStored` | internal/app/transaction/service.go:25-149 | a rejected create leaves the lookup unchanged |
| `TxService.All` | internal/app/transaction/service.go:164-177 | one transaction per row, in table order |
| `TxService.GetByIdAgreesWithAll` | internal/app/transaction/service.go:153-177 | whatever GetByID returns is listed by GetAll |
| `TxService.DuplicateRejected` | internal/app/transaction/service.go:57-63 | a taken id is refused before any type rule runs |
| `TxService.NoPurchaseMeansExceeds` | internal/app/transaction/service.go:92-103 | with positive amounts and no purchases, a refund fails as exceeding the original |
| `TxService.PositivityErrorsUnreachable` | internal/app/transaction/service.go:92-147 | the refund and payment positivity errors never come out of Create |
| `TxService.CreateErrorOrigin` | internal/app/transaction/service.go:25-148 | every error of Create is a field sentinel, a missing customer or product, a duplicate id, or the type rule's verdict on a validated, stamped transaction |
| `TxService.NoPurchaseFoundUnreachable` | internal/app/transaction/service.go:101-103 | on a consistent store "no purchase found" never comes out of Create |
| `TxService.PaymentsIgnored` | internal/app/transaction/service.go:81-90 | payments in the history change neither the balance nor the latest purchase |
| `TxService.RefundDeadlineInclusive` | internal/app/transaction/service.go:105-108 | a refund exactly 30 days after the purchase passes; one second later it has expired |
| `TxService.TotalPages` | internal/app/transaction/service.go:194-197 | the page count n satisfies (n-1)*size < total <= n*size |
| `TxService.TotalPagesUnique` | internal/app/transaction/service.go:194-197 | that property determines the page count |
| `TxService.TotalPagesExample` | internal/app/transaction/service.go:236-239 | 23 rows in pages of 10 give 3 pages, 20 give 2, 0 give 0 |
| `TxService.TotalPagesCoverRows` | internal/app/transaction/service.go:194-197 | reading pages 1..TotalPages yields every row, one page fewer misses some |
| `TxService.SummaryWithFilter` | internal/app/transaction/service.go:183-208 | fails iff the filter is invalid, with its validation error; otherwise echoes page, size, data and total with the ceiling page count |
| `TxService.ActivityRequest` | internal/app/transaction/service.go:217-229 | fails iff page < 1 or size outside [1, 100], page error first |
| `TxService.CustomerActivity` | internal/app/transaction/service.go:210-250 | paging checked before the repository result is used, with the request check's error; on success the page, page size, data and total are echoed and the page count is the ceiling |
| `TxHandler.ToTransaction` | internal/app/transaction/handler.go:74-84 | every field of the request carried over (ids, type, amounts, tax type, payment status), with an empty datetime as the zero time |
| `TxHandler.CreateStatus` | internal/app/transaction/handler.go:86-96 | 400 exactly for the eight field sentinels, 500 for every other error |
| `TxHandler.CreateEndpoint` | internal/app/transaction/handler.go:19-100 | 201 iff binding and the handler's checks pass and the service accepts; 400 whenever binding or a handler check fails; a service error e is answered with CreateStatus(e) and its message; the store changes only on 201 |
| `TxHandler.PrechecksImplyValid` | internal/app/transaction/handler.go:21-72 | a request passing binding and the handler's checks passes Transaction.Validate |
| `TxHandler.ServiceErrorsAreServerErrors` | internal/app/transaction/handler.go:86-96 | so every service error on such a request is answered with 500 |
| `TxHandler.DuplicateIdIsServerError` | internal/app/transaction/handler.go:86-96 | a taken id is answered 500 with "transaction ID already exists" |
| `TxHandler.GetByIdEndpointAsWritten` | internal/app/transaction/handler.go:111-129 | 400 for an unparsable id; 200 iff the transaction exists, with the found transaction as the body |
| `TxHandler.GetByIdNeverNotFound` | internal/app/transaction/handler.go:118-125 | as written the handler never answers 404, and answers 500 for a missing id |
| `TxHandler.GetByIdEndpoint` | internal/app/transaction/handler.go:111-129 | intended: 400 iff the id does not parse; 404 iff it parses and no row has it; 200 with the stored transaction whenever one has it |
| `TxHandler.CreatedIsFound` | internal/app/transaction/handler.go:111-129 | after a 201 the intended lookup returns the created transaction |
| `TxHandler.FilterOf` | internal/app/transaction/handler.go:143-245 | page defaults to 1 and page size to 10; the end date is moved to 23:59:59 of its day |
| `TxHandler.ParseSummaryParams` | internal/app/transaction/handler.go:143-245 | each parameter is refused iff unparsable or out of bounds (page >= 1, size in [1, 100], ids > 0, amounts >= 0) |
| `TxHandler.ParseSummaryQuery` | internal/app/transaction/handler.go:143-265 | accepted iff every parameter is and the date and amount ranges hold; an accepted filter always passes the service's validation |
| `TxHandler.DateRangeByDay` | internal/app/transaction/handler.go:209-255 | for day-aligned dates the range is refused iff start day > end day |
| `TxHandler.SummaryStatus` | internal/app/transaction/handler.go:267-277 | 400 exactly for the paging and range sentinels, else 500 |
| `TxHandler.SummaryEndpoint` | internal/app/transaction/handler.go:140-293 | 200 iff the query is acceptable, otherwise 400; never 500 from validation; a 200 carries the data, the total, the requested or default page and page size, and the ceiling page count |
| `TxHandler.SummaryDefaults` | internal/app/transaction/handler.go:143-167 | an empty query is page 1 of 10, unfiltered |
| `TxHandler.ParseActivityQuery` | internal/app/transaction/handler.go:296-334 | company_id need only parse, min_trx >= 0, page >= 1, size in [1, 100], defaults 1 and 10 |
| `TxHandler.ActivityStatus` | internal/app/transaction/handler.go:336-345 | 400 exactly for the two paging sentinels, else 500 |
| `TxHandler.ActivityEndpoint` | internal/app/transaction/handler.go:295-348 | 200 iff the query is acceptable, otherwise 400; a 200 carries the data, the total, the requested or default page and page size, and the ceiling page count |
| `TxHandler.CompanyIdRulesDiffer` | internal/app/transaction/handler.go:297-304 | company_id 0 is refused by the summary endpoint and accepted by the activity endpoint |
| `LogicTest.Fibonacci` | logicTest/logic.go:20-33 | the loop prints the first ten terms joined by single spaces |
| `LogicTest.FibTerms` | logicTest/logic.go:22-31 | each term is the sum of the two before it; the terms are 1 1 2 3 5 8 13 21 34 55 |
| `LogicTest.JoinWordsCons` | logicTest/logic.go:24-29 | joining with single spaces reads the same from the front: first word, space, join of the rest |
| `LogicTest.FibonacciText` | logicTest/logic.go:20-33 | the printed text is exactly "1 1 2 3 5 8 13 21 34 55" |
| `LogicTest.PyramidLine` | logicTest/logic.go:39-58 | line i is d spaces then 2(3-d)-1 stars, d the distance from the widest line |
| `LogicTest.Pyramid` | logicTest/logic.go:35-62 | five lines, line k is PyramidLine(k+1) |
| `LogicTest.PyramidSymmetric` | logicTest/logic.go:42-50 | line i equals line 6-i |
| `LogicTest.PyramidPicture` | logicTest/logic.go:35-62 | the five printed lines |
| `LogicTest.DiamondLine` | logicTest/logic.go:70-111 | 21 characters, column j being the printed cell |
| `LogicTest.Diamond` | logicTest/logic.go:64-113 | 13 lines |
| `LogicTest.DiamondIsPicture` | logicTest/logic.go:74-108 | the loop's cell equals the picture: stars outside [10-d, 10+d], d = min(i, 12-i); on line 6 stars at both edges and dashes at odd offsets |
| `LogicTest.DiamondShape` | logicTest/logic.go:64-113 | 13 lines of 21 characters, all star, space or dash |
| `LogicTest.DiamondDashes` | logicTest/logic.go:79-88 | a dash appears iff on line 6 at an odd offset from column 4 inside (4, 16); columns 4 and 16 there are stars |
| `LogicTest.DiamondSymmetric` | logicTest/logic.go:97-108 | line i equals line 12-i, and every line is a palindrome |
| `LogicTest.DiamondMirror` | logicTest/logic.go:74-108 | every printed line reads the same from both ends |
| `Text.NatToString` | logicTest/logic.go:26-28 | decimal rendering: non-empty digits without a leading zero |
| `Text.ParseNatToString` | logicTest/logic.go:26-28 | reading a rendered number gives it back |

## Left out

- Binding, JSON parsing, `strconv.ParseFloat`/`ParseInt` and `time.Parse` are not modelled. Every parameter arrives already parsed as `Missing`, `Unparsable` or `Given`. An empty string counts as `Missing`, which matches the handlers' `!= ""` guards and `DefaultQuery`.
- SQL execution, scanning and database errors are not modelled. Repository results are parameters. The rows are a sequence, and the "failed to ..." wrapping errors never occur in the model.
- The fixed SELECT and GROUP BY texts of the two reports are kept whitespace-normalised and by name (`TxRepository.FixedSql`). The builder is modelled from the point where the source appends the first filter clause. A statement's text is rendered from these parts; no property depends on what the fixed parts say.
- History is returned in table order. The source's `ORDER BY transaction_datetime DESC` is not modelled. The refund rule depends only on the two totals and on the greatest purchase timestamp, so no order changes its outcome.
- Customers and products are modelled only by their ids. Names and fees are left out. `ErrCustomerCompanyMismatch` is defined (`CustomerCompanyMismatch` and its message) but nothing returns it. The summary row leaves out the company and product names and fee columns.
- The `COUNT(t.id) >= $n` activity filter is modelled as the text the code appends. An aggregate in a WHERE clause is not accepted by PostgreSQL. What the database makes of it is outside the model.
- Floating point is replaced by exact reals. This covers the rounding of `(tax / amount) * 100` and of sums.
- TxHandler.CreateEndpoint: amounts are finite reals, so `NaN` and `Inf` are not modelled. `strconv.ParseFloat` accepts "NaN" and "Inf". Every comparison with NaN is false, so `amount <= 0` (handler.go:37, model.go:129) and `taxAmount < 0` (handler.go:47, model.go:132) let a NaN through, and so do the purchase caps and the refund balance check. Go stores such a transaction. The model's promise that an accepted amount is positive does not hold for them in the source.
- TxService.RefundRule: the refund window `AddDate(0, 0, 30)` is taken as exactly 30 * 86400 seconds. Calendar and daylight-saving effects of local time zones are not modelled.
- `time.Now()` is one parameter `now`. The create path reads the clock at three sites: the handler's future-date check (handler.go:63), `Validate`'s future-date check (model.go:148) and the stamping of a zero datetime (service.go:32). The last two never both run in one call: `Validate` reads the clock only for a non-zero datetime and the stamping only for a zero one. The model uses the same `now` at all three sites, so it leaves out the clock advancing between the handler's check and the service's.
- Concurrency is not modelled: the read-then-insert race and the shared package-level `CreateTxReq`.
- TxHandler.CreateEndpoint: each request is bound into a fresh `CreateRequest`. The source binds into the one package-level `CreateTxReq` (handler.go:21), and JSON decoding leaves omitted fields as they were. So an omitted `transaction_datetime`, `tax_type` or `amount` inherits the previous request's value even with one request at a time. The model treats an omitted field as absent.
- The `applied_filters` echo of the summary handler and the JSON shape of replies are not modelled. A reply is a status with a body or an error text.
- int64 overflow in `strconv.ParseInt` is folded into `Unparsable`. int64 wrap-around is modelled only for the offset (see Findings).
- The activity query's grouping and counting, from transactions to `count_trx`, is not modelled. `TxReports.NumberRows` starts from the grouped rows, one per (company, customer).
- TxReports.RowNumbersStableAcrossPages: the outer SELECT of the activity query (repository.go:240-250) has no ORDER BY. `ROW_NUMBER() OVER (ORDER BY ...)` fixes each row's number, but not the order the rows come back in. Which rows LIMIT/OFFSET puts on a page is therefore the database's choice. The model takes the arrival order as an input; the lemma gives each page row its position only when that order is the window order.
- TxReports.NumberRows: when two rows tie on (company, count, customer), `ROW_NUMBER` breaks the tie arbitrarily and the model gives both the same number. The GROUP BY on company and customer rules such ties out, and the order clauses are stated under that condition (`DistinctKeys`).
- Company, customer and product services, handlers and repositories are not part of this model. Neither are the Redis cache, the configuration, JWT, the auth middleware, logging and `cmd/main.go`. They only delegate to SQL or external libraries.

## Findings

| source | as written | input that shows it | evidently intended | confidence | as-written member | corrected member |
|---|---|---|---|---|---|---|
| internal/app/transaction/handler.go:120 | the not-found branch compares the error text with "Transaction not found", but the service returns "transaction not found" (service.go:159), so the branch is dead | GET /transactions/999 when no transaction 999 exists: answered 500 | 404 for a missing transaction | high; not executed | `TxHandler.GetByIdNeverNotFound` | `TxHandler.GetByIdEndpoint` |
| internal/app/transaction/repository.go:435 | `offset := (filter.Page - 1) * filter.PageSize` in int64 wraps for large pages, which the handlers accept (any int64 >= 1) | page = 144115188075855873 (2^57 + 1), page_size = 100: the offset is negative | the offset is the number of rows on earlier pages; a far page is simply empty | high; not executed | `TxRepository.GoOffsetWrapsNegative` | `TxRepository.Offset` |
