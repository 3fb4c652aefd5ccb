/** The HTTP handlers of the transaction package
    (internal/app/transaction/handler.go): request binding and parameter
    rules, and the mapping of errors to status codes. Parsing of numbers
    and dates is not modelled: each parameter arrives already parsed, as a
    `Param`. */
module TxHandler {
  import opened Wrappers
  import opened TxModel
  import opened TxRepository
  import opened TxService

  /** A query or body parameter after parsing: `Missing` is an absent or
      empty string, `Unparsable` one the parser rejects (including int64
      overflow), `Given` the parsed value. */
  datatype Param<T> = Missing | Unparsable | Given(value: T)

  const StatusOk: int := 200
  const StatusCreated: int := 201
  const StatusBadRequest: int := 400
  const StatusNotFound: int := 404
  const StatusInternalError: int := 500

  /** A response: its status and either the body or the error text. */
  datatype Reply<T> = Reply(status: int, payload: Result<T, string>)

  /** `time.Parse("2006-01-02", ...)` yields midnight; the handler moves the
      end date to 23:59:59 of the same day. */
  const EndOfDay: int := 23 * 3600 + 59 * 60 + 59

  /** The value of a paging parameter, or its default when absent. */
  function OrDefault(p: Param<int>, default: int): int
  {
    if p.Given? then p.value else default
  }

  /** A page parameter is acceptable when absent or an integer >= 1. */
  predicate PageParamOk(p: Param<int>)
  {
    p.Missing? || (p.Given? && p.value >= 1)
  }

  /** A page_size parameter is acceptable when absent or within [1, 100]. */
  predicate PageSizeParamOk(p: Param<int>)
  {
    p.Missing? || (p.Given? && 1 <= p.value <= 100)
  }

  // ---------------------------------------------------------------------
  // POST /transactions

  /** The JSON body of a create request (`CreateTxReq`). */
  datatype CreateRequest = CreateRequest(
    id: int,
    customerId: int,
    transactionType: string,
    amount: Param<real>,
    datetime: Param<int>,
    taxAmount: Param<real>,
    taxType: string,
    paymentStatus: string,
    productId: int)

  /** The binding tags of `CreateTxReq`: ids at least 1, the enumerations,
      and non-empty amount and tax amount strings. */
  predicate BindingValid(req: CreateRequest)
  {
    && req.id >= 1
    && req.customerId >= 1
    && req.productId >= 1
    && req.transactionType in {"purchase", "refund", "payment"}
    && req.paymentStatus in {"pending", "completed", "failed", "cancelled"}
    && req.taxType in {"", "VAT", "GST", "SALES_TAX"}
    && !req.amount.Missing?
    && !req.taxAmount.Missing?
  }

  /** The handler's own checks after binding, stated directly. */
  predicate PrechecksPass(req: CreateRequest, now: int)
  {
    && BindingValid(req)
    && req.amount.Given? && req.amount.value > 0.0
    && req.taxAmount.Given? && req.taxAmount.value >= 0.0
    && !req.datetime.Unparsable?
    && (req.datetime.Given? ==> req.datetime.value <= now)
    && (req.transactionType == Refund ==> req.taxAmount.value <= req.amount.value)
  }

  /** The transaction the handler builds; an empty datetime is the zero time. */
  function ToTransaction(req: CreateRequest): (t: Transaction)
    requires req.amount.Given? && req.taxAmount.Given?
    ensures t.id == req.id && t.customerId == req.customerId && t.productId == req.productId
    ensures t.amount == req.amount.value && t.taxAmount == req.taxAmount.value
    ensures t.transactionType == req.transactionType && t.taxType == req.taxType
    ensures t.paymentStatus == req.paymentStatus
    ensures req.datetime.Given? ==> t.datetime == req.datetime.value
    ensures !req.datetime.Given? ==> t.datetime == ZeroTime
  {
    Transaction(req.id, req.customerId, req.transactionType, req.amount.value,
                if req.datetime.Given? then req.datetime.value else ZeroTime,
                req.taxAmount.value, req.taxType, req.paymentStatus, req.productId)
  }

  /** The status `Create` gives a service error: the eight field-validation
      sentinels are client errors, everything else a server error. */
  function CreateStatus(e: Error): (status: int)
    ensures status == StatusBadRequest <==> e in FieldErrors
    ensures status == StatusBadRequest || status == StatusInternalError
  {
    if e == InvalidAmount || e == InvalidTaxAmount
       || e == InvalidTransactionType || e == InvalidPaymentStatus
       || e == InvalidTaxType || e == FutureTransactionDate
       || e == InvalidCustomerID || e == InvalidProductID
    then StatusBadRequest
    else StatusInternalError
  }

  /** `TransactionHandler.Create`: the reply and the store afterwards. */
  function CreateEndpoint(s: Store, req: CreateRequest, now: int): (r: (Reply<Transaction>, Store))
    ensures r.0.status == StatusCreated <==>
              PrechecksPass(req, now) && Accepted(s, ToTransaction(req), now)
    ensures r.0.status in {StatusCreated, StatusBadRequest, StatusInternalError}
    ensures r.0.status == StatusCreated ==>
              && r.0.payload == Success(Stamp(ToTransaction(req), now))
              && r.1 == Create(s, ToTransaction(req), now).store
    ensures r.0.status != StatusCreated ==> r.1 == s
    ensures !PrechecksPass(req, now) ==> r.0.status == StatusBadRequest
    ensures PrechecksPass(req, now) && Create(s, ToTransaction(req), now).err.Some? ==>
              var e := Create(s, ToTransaction(req), now).err.value;
              r.0 == Reply(CreateStatus(e), Failure(Message(e)))
  {
    if !BindingValid(req) then (Reply(StatusBadRequest, Failure("validation failed")), s)
    else if req.amount.Unparsable? then
      (Reply(StatusBadRequest, Failure("invalid amount format, must be a valid number")), s)
    else if req.amount.value <= 0.0 then
      (Reply(StatusBadRequest, Failure("amount must be greater than 0")), s)
    else if req.taxAmount.Unparsable? then
      (Reply(StatusBadRequest, Failure("invalid tax_amount format, must be a valid number")), s)
    else if req.taxAmount.value < 0.0 then
      (Reply(StatusBadRequest, Failure("tax_amount must be >= 0")), s)
    else if req.datetime.Unparsable? then
      (Reply(StatusBadRequest, Failure("invalid transaction_datetime format, use RFC3339")), s)
    else if req.datetime.Given? && req.datetime.value > now then
      (Reply(StatusBadRequest, Failure("transaction_datetime cannot be in the future")), s)
    else if req.transactionType == Refund && req.taxAmount.value > req.amount.value then
      (Reply(StatusBadRequest, Failure("tax_amount cannot be greater than refund amount")), s)
    else
      var t := ToTransaction(req);
      var o := Create(s, t, now);
      match o.err
      case Some(e) => (Reply(CreateStatus(e), Failure(Message(e))), s)
      case None => (Reply(StatusCreated, Success(Stamp(t, now))), o.store)
  }

  /** Whatever passes the handler's own checks also passes
      `Transaction.Validate`. */
  lemma PrechecksImplyValid(req: CreateRequest, now: int)
    requires PrechecksPass(req, now)
    ensures Validate(ToTransaction(req), now).None?
  {
  }

  /** So every error the service reports for a request that reaches it is
      answered with 500: not-found customers and products, duplicate ids
      and the refund and purchase rules included. */
  lemma ServiceErrorsAreServerErrors(s: Store, req: CreateRequest, now: int)
    requires PrechecksPass(req, now)
    requires Create(s, ToTransaction(req), now).err.Some?
    ensures CreateEndpoint(s, req, now).0.status == StatusInternalError
  {
    PrechecksImplyValid(req, now);
    var e := Create(s, ToTransaction(req), now).err.value;
    assert e !in FieldErrors;
  }

  /** Creating a transaction whose id is taken is answered with 500 and the
      duplicate-id message, not with a client error. */
  lemma DuplicateIdIsServerError(s: Store, req: CreateRequest, now: int)
    requires PrechecksPass(req, now)
    requires req.customerId in s.customers && req.productId in s.products
    requires exists i :: 0 <= i < |s.rows| && s.rows[i].id == req.id
    ensures CreateEndpoint(s, req, now).0 ==
            Reply(StatusInternalError, Failure("transaction ID already exists"))
  {
    PrechecksImplyValid(req, now);
    DuplicateRejected(s, ToTransaction(req), now);
  }

  // ---------------------------------------------------------------------
  // GET /transactions/:id

  /** `TransactionHandler.GetByID` as written: the not-found branch compares
      the error text with "Transaction not found". */
  function GetByIdEndpointAsWritten(s: Store, id: Option<int>): (r: Reply<Transaction>)
    ensures id.None? ==> r.status == StatusBadRequest
    ensures id.Some? ==> (r.status == StatusOk <==> GetById(s, id.value).Success?)
    ensures id.Some? && GetById(s, id.value).Success? ==> r.payload == Success(GetById(s, id.value).value)
  {
    if id.None? then Reply(StatusBadRequest, Failure("invalid transaction ID"))
    else
      match GetById(s, id.value)
      case Success(t) => Reply(StatusOk, Success(t))
      case Failure(e) =>
        if Message(e) == "Transaction not found" then Reply(StatusNotFound, Failure("transaction not found"))
        else Reply(StatusInternalError, Failure(Message(e)))
  }

  /** The service's text starts with a lower-case letter, so the comparison
      never matches: a missing id is answered with 500, never 404. */
  lemma GetByIdNeverNotFound(s: Store, id: Option<int>)
    ensures GetByIdEndpointAsWritten(s, id).status != StatusNotFound
    ensures id.Some? && GetById(s, id.value).Failure? ==>
              GetByIdEndpointAsWritten(s, id).status == StatusInternalError
  {
    assert Message(TransactionNotFound)[0] == 't';
    assert "Transaction not found"[0] == 'T';
  }

  /** The evidently intended endpoint: a missing transaction is a 404. */
  function GetByIdEndpoint(s: Store, id: Option<int>): (r: Reply<Transaction>)
    ensures r.status in {StatusOk, StatusBadRequest, StatusNotFound}
    ensures r.status == StatusNotFound <==>
              id.Some? && forall i :: 0 <= i < |s.rows| ==> s.rows[i].id != id.value
    ensures r.status == StatusOk ==>
              id.Some? && GetById(s, id.value).Success? && r.payload == Success(GetById(s, id.value).value)
    ensures r.status == StatusBadRequest <==> id.None?
    ensures id.Some? && GetById(s, id.value).Success? ==> r.status == StatusOk
  {
    if id.None? then Reply(StatusBadRequest, Failure("invalid transaction ID"))
    else
      match GetById(s, id.value)
      case Success(t) => Reply(StatusOk, Success(t))
      case Failure(e) => Reply(StatusNotFound, Failure(Message(e)))
  }

  /** After a successful create the intended endpoint returns the stored
      transaction. */
  lemma CreatedIsFound(s: Store, req: CreateRequest, now: int)
    requires CreateEndpoint(s, req, now).0.status == StatusCreated
    ensures GetByIdEndpoint(CreateEndpoint(s, req, now).1, Some(req.id))
            == Reply(StatusOk, CreateEndpoint(s, req, now).0.payload)
  {
    CreateThenGetById(s, ToTransaction(req), now);
  }

  // ---------------------------------------------------------------------
  // GET /transactions/summary

  /** The query string of the filtered summary; dates are midnights. */
  datatype SummaryQuery = SummaryQuery(
    page: Param<int>,
    pageSize: Param<int>,
    companyId: Param<int>,
    productId: Param<int>,
    startDate: Param<int>,
    endDate: Param<int>,
    minAmount: Param<real>,
    maxAmount: Param<real>)

  function OptionOf<T>(p: Param<T>): (o: Option<T>)
    ensures o.Some? <==> p.Given?
    ensures o.Some? ==> o.value == p.value
  {
    if p.Given? then Some(p.value) else None
  }

  /** Each parameter on its own is acceptable, stated directly. */
  predicate ParamsAcceptable(q: SummaryQuery)
  {
    && PageParamOk(q.page) && PageSizeParamOk(q.pageSize)
    && !q.companyId.Unparsable? && (q.companyId.Given? ==> q.companyId.value > 0)
    && !q.productId.Unparsable? && (q.productId.Given? ==> q.productId.value > 0)
    && !q.startDate.Unparsable?
    && !q.endDate.Unparsable?
    && !q.minAmount.Unparsable? && (q.minAmount.Given? ==> q.minAmount.value >= 0.0)
    && !q.maxAmount.Unparsable? && (q.maxAmount.Given? ==> q.maxAmount.value >= 0.0)
  }

  /** What the handler accepts: each parameter, then the two ranges. */
  predicate SummaryQueryAcceptable(q: SummaryQuery)
  {
    && ParamsAcceptable(q)
    && (q.startDate.Given? && q.endDate.Given? ==> q.startDate.value <= q.endDate.value + EndOfDay)
    && (q.minAmount.Given? && q.maxAmount.Given? ==> q.minAmount.value < q.maxAmount.value)
  }

  /** The filter the parameters denote: page 1 and page size 10 by default,
      the end date moved to the end of its day. */
  function FilterOf(q: SummaryQuery): (f: SummaryFilter)
    ensures f.page == OrDefault(q.page, 1) && f.pageSize == OrDefault(q.pageSize, 10)
    ensures f.companyId == OptionOf(q.companyId) && f.productId == OptionOf(q.productId)
    ensures f.startDate == OptionOf(q.startDate)
    ensures f.endDate.Some? <==> q.endDate.Given?
    ensures f.endDate.Some? ==> f.endDate.value == q.endDate.value + EndOfDay
    ensures f.minAmount == OptionOf(q.minAmount) && f.maxAmount == OptionOf(q.maxAmount)
  {
    var endDate := if q.endDate.Given? then Some(q.endDate.value + EndOfDay) else None;
    SummaryFilter(OptionOf(q.companyId), OptionOf(q.productId), OptionOf(q.startDate), endDate,
                  OptionOf(q.minAmount), OptionOf(q.maxAmount),
                  OrDefault(q.page, 1), OrDefault(q.pageSize, 10))
  }

  /** The per-parameter checks of `GetTransactionSummaryFiltered`, in
      order; a failure carries the handler's error text. */
  function ParseSummaryParams(q: SummaryQuery): (r: Result<SummaryFilter, string>)
    ensures r.Success? <==> ParamsAcceptable(q)
    ensures r.Success? ==> r.value == FilterOf(q)
  {
    if q.page.Unparsable? || (q.page.Given? && q.page.value < 1) then Failure("invalid page parameter")
    else if q.pageSize.Unparsable? || (q.pageSize.Given? && (q.pageSize.value < 1 || q.pageSize.value > 100))
    then Failure("invalid page_size parameter")
    else if q.companyId.Unparsable? || (q.companyId.Given? && q.companyId.value <= 0)
    then Failure("invalid company_id parameter")
    else if q.productId.Unparsable? || (q.productId.Given? && q.productId.value <= 0)
    then Failure("invalid product_id parameter")
    else if q.startDate.Unparsable? then Failure("invalid start_date format")
    else if q.endDate.Unparsable? then Failure("invalid end_date format")
    else if q.minAmount.Unparsable? || (q.minAmount.Given? && q.minAmount.value < 0.0)
    then Failure("invalid min_amount parameter")
    else if q.maxAmount.Unparsable? || (q.maxAmount.Given? && q.maxAmount.value < 0.0)
    then Failure("invalid max_amount parameter")
    else Success(FilterOf(q))
  }

  /** All parameter checks of `GetTransactionSummaryFiltered`. A filter
      that gets through them always passes the service's validation. */
  function ParseSummaryQuery(q: SummaryQuery): (r: Result<SummaryFilter, string>)
    ensures r.Success? <==> SummaryQueryAcceptable(q)
    ensures r.Success? ==> r.value == FilterOf(q)
    ensures r.Success? ==> FilterValid(r.value)
  {
    match ParseSummaryParams(q)
    case Failure(m) => Failure(m)
    case Success(f) =>
      if f.startDate.Some? && f.endDate.Some? && f.startDate.value > f.endDate.value
      then Failure("invalid date range")
      else if f.minAmount.Some? && f.maxAmount.Some? && f.minAmount.value >= f.maxAmount.value
      then Failure("invalid amount range")
      else Success(f)
  }

  /** With both dates at midnight, the range is refused exactly when the
      start day is after the end day; the same day is accepted. */
  lemma DateRangeByDay(start: int, end: int)
    requires start % Day == 0 && end % Day == 0
    ensures start > end + EndOfDay <==> start > end
  {
    var a, b := start / Day, end / Day;
    assert start == a * Day && end == b * Day;
    if a > b {
      assert a * Day >= (b + 1) * Day;
    } else {
      assert a * Day <= b * Day;
    }
  }

  /** The status of a summary service error: the paging and range
      sentinels are client errors, everything else a server error. */
  function SummaryStatus(e: Error): (status: int)
    ensures status == StatusBadRequest <==> e in {InvalidPage, InvalidPageSize, InvalidDateRange, InvalidAmountRange}
    ensures status == StatusBadRequest || status == StatusInternalError
  {
    if e == InvalidPage || e == InvalidPageSize || e == InvalidDateRange || e == InvalidAmountRange
    then StatusBadRequest
    else StatusInternalError
  }

  /** `GetTransactionSummaryFiltered`, given the repository's page and
      total for the parsed filter. */
  function SummaryEndpoint<T>(q: SummaryQuery, data: seq<T>, total: nat): (r: Reply<Response<T>>)
    ensures r.status == StatusOk <==> SummaryQueryAcceptable(q)
    ensures r.status == StatusOk || r.status == StatusBadRequest
    ensures r.status == StatusOk ==>
              r.payload.Success? && r.payload.value.data == data && r.payload.value.pagination.totalItems == total
    ensures r.status == StatusOk ==>
              && r.payload.Success?
              && r.payload.value.pagination.page == OrDefault(q.page, 1)
              && r.payload.value.pagination.pageSize == OrDefault(q.pageSize, 10)
              && 1 <= OrDefault(q.pageSize, 10) <= 100
              && r.payload.value.pagination.totalPages == TotalPages(total, OrDefault(q.pageSize, 10))
  {
    match ParseSummaryQuery(q)
    case Failure(m) => Reply(StatusBadRequest, Failure(m))
    case Success(f) =>
      match SummaryWithFilter(f, data, total)
      case Failure(e) => Reply(SummaryStatus(e), Failure(Message(e)))
      case Success(resp) => Reply(StatusOk, Success(resp))
  }

  /** An empty query string asks for the first page of ten, unfiltered. */
  lemma SummaryDefaults()
    ensures ParseSummaryQuery(SummaryQuery(Missing, Missing, Missing, Missing, Missing, Missing, Missing, Missing))
            == Success(SummaryFilter(None, None, None, None, None, None, 1, 10))
  {
  }

  // ---------------------------------------------------------------------
  // GET /transactions/reports

  datatype ActivityQuery = ActivityQuery(
    companyId: Param<int>,
    minTrx: Param<int>,
    page: Param<int>,
    pageSize: Param<int>)

  /** What the handler accepts: company_id need only parse (any value,
      zero and negatives included), min_trx must be non-negative. */
  predicate ActivityQueryAcceptable(q: ActivityQuery)
  {
    && !q.companyId.Unparsable?
    && !q.minTrx.Unparsable? && (q.minTrx.Given? ==> q.minTrx.value >= 0)
    && PageParamOk(q.page) && PageSizeParamOk(q.pageSize)
  }

  /** The parameter checks of `GetCustomerActivity`, in order. */
  function ParseActivityQuery(q: ActivityQuery): (r: Result<ActivityFilter, string>)
    ensures r.Success? <==> ActivityQueryAcceptable(q)
    ensures r.Success? ==> r.value.page >= 1 && 1 <= r.value.pageSize <= 100
    ensures r.Success? ==> r.value.companyId == OptionOf(q.companyId) && r.value.minTrxCount == OptionOf(q.minTrx)
    ensures r.Success? ==> r.value.page == OrDefault(q.page, 1) && r.value.pageSize == OrDefault(q.pageSize, 10)
  {
    if q.companyId.Unparsable? then Failure("invalid company_id")
    else if q.minTrx.Unparsable? || (q.minTrx.Given? && q.minTrx.value < 0)
    then Failure("invalid min_trx (must be non-negative integer)")
    else if q.page.Unparsable? || (q.page.Given? && q.page.value < 1) then Failure("invalid page")
    else if q.pageSize.Unparsable? || (q.pageSize.Given? && (q.pageSize.value < 1 || q.pageSize.value > 100))
    then Failure("page_size must be between 1 and 100")
    else Success(ActivityFilter(OptionOf(q.companyId), OptionOf(q.minTrx),
                                OrDefault(q.page, 1), OrDefault(q.pageSize, 10)))
  }

  function ActivityStatus(e: Error): (status: int)
    ensures status == StatusBadRequest <==> e == InvalidPage || e == InvalidPageSize
    ensures status == StatusBadRequest || status == StatusInternalError
  {
    if e == InvalidPage || e == InvalidPageSize then StatusBadRequest else StatusInternalError
  }

  /** `GetCustomerActivity`, given the repository's page and total. The
      handler's checks subsume the service's, so no paging error reaches
      the status switch. */
  function ActivityEndpoint<T>(q: ActivityQuery, data: seq<T>, total: nat): (r: Reply<Response<T>>)
    ensures r.status == StatusOk <==> ActivityQueryAcceptable(q)
    ensures r.status == StatusOk || r.status == StatusBadRequest
    ensures r.status == StatusOk ==>
              r.payload.Success? && r.payload.value.data == data && r.payload.value.pagination.totalItems == total
    ensures r.status == StatusOk ==>
              && r.payload.Success?
              && r.payload.value.pagination.page == OrDefault(q.page, 1)
              && r.payload.value.pagination.pageSize == OrDefault(q.pageSize, 10)
              && 1 <= OrDefault(q.pageSize, 10) <= 100
              && r.payload.value.pagination.totalPages == TotalPages(total, OrDefault(q.pageSize, 10))
  {
    match ParseActivityQuery(q)
    case Failure(m) => Reply(StatusBadRequest, Failure(m))
    case Success(f) =>
      match CustomerActivity(f.companyId, f.minTrxCount, f.page, f.pageSize, data, total)
      case Failure(e) => Reply(ActivityStatus(e), Failure(Message(e)))
      case Success(resp) => Reply(StatusOk, Success(resp))
  }

  /** The two endpoints differ on company ids: a non-positive one is
      refused by the summary and accepted by the activity report. */
  lemma CompanyIdRulesDiffer()
    ensures ParseSummaryQuery(SummaryQuery(Missing, Missing, Given(0), Missing, Missing, Missing, Missing, Missing)).Failure?
    ensures ParseActivityQuery(ActivityQuery(Given(0), Missing, Missing, Missing)).Success?
  {
  }
}
