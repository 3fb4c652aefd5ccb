/** Entities, sentinel errors and field validation of the transaction
    package (internal/app/transaction/model.go). */
module TxModel {
  import opened Wrappers

  /** Go's zero `time.Time` (0001-01-01T00:00:00Z) in Unix seconds. Every
      timestamp in the model is an instant in whole Unix seconds, so
      `IsZero` is equality with this constant and `After` is `>`. */
  const ZeroTime: int := -62135596800

  const Purchase: string := "purchase"
  const Refund: string := "refund"
  const Payment: string := "payment"

  const ValidTransactionTypes: seq<string> := [Purchase, Refund, Payment]
  const ValidPaymentStatuses: seq<string> := ["pending", "completed", "failed", "cancelled"]
  /** The empty tax type is listed as valid, so a missing tax type passes. */
  const ValidTaxTypes: seq<string> := ["VAT", "GST", "SALES_TAX", ""]

  datatype Transaction = Transaction(
    id: int,
    customerId: int,
    transactionType: string,
    amount: real,
    datetime: int,
    taxAmount: real,
    taxType: string,
    paymentStatus: string,
    productId: int)

  /** Filter of the summary report; `None` is a nil pointer (filter absent). */
  datatype SummaryFilter = SummaryFilter(
    companyId: Option<int>,
    productId: Option<int>,
    startDate: Option<int>,
    endDate: Option<int>,
    minAmount: Option<real>,
    maxAmount: Option<real>,
    page: int,
    pageSize: int)

  datatype ActivityFilter = ActivityFilter(
    companyId: Option<int>,
    minTrxCount: Option<int>,
    page: int,
    pageSize: int)

  /** Every error value the package produces. The first block are the
      package-level sentinels (compared by identity in the handlers); the
      second block are values built with `errors.New` where they are
      returned, so no handler can recognise them. */
  datatype Error =
    | InvalidPage
    | InvalidPageSize
    | InvalidAmount
    | InvalidTaxAmount
    | InvalidTransactionType
    | InvalidPaymentStatus
    | InvalidTaxType
    | InvalidDateRange
    | InvalidAmountRange
    | FutureTransactionDate
    | InvalidCustomerID
    | InvalidProductID
    | CustomerNotFound
    | ProductNotFound
    | CustomerCompanyMismatch
    | RefundExceedsOriginal
    | InsufficientPurchaseHistory
    | DuplicateTransactionID
    | MinAmountNegative
    | MaxAmountNegative
    | FilterCompanyIdNotPositive
    | FilterProductIdNotPositive
    | RefundNotPositive
    | NoPurchaseFound
    | RefundPeriodExpired
    | PurchaseBelowMinimum
    | PurchaseAboveMaximum
    | TaxUnreasonablyHigh
    | VatRateTooHigh
    | GstRateTooHigh
    | SalesTaxRateTooHigh
    | PaymentNotPositive
    | TransactionNotFound

  /** The text `err.Error()` yields for each error value. */
  function Message(e: Error): string
  {
    match e
    case InvalidPage => "page must be >= 1"
    case InvalidPageSize => "page_size must be between 1 and 100"
    case InvalidAmount => "amount must be greater than 0"
    case InvalidTaxAmount => "tax_amount must be >= 0"
    case InvalidTransactionType => "transaction_type must be one of: purchase, refund, payment"
    case InvalidPaymentStatus => "payment_status must be one of: pending, completed, failed, cancelled"
    case InvalidTaxType => "tax_type must be one of: VAT, GST, SALES_TAX, or empty"
    case InvalidDateRange => "start_date must be before end_date"
    case InvalidAmountRange => "min_amount must be less than max_amount"
    case FutureTransactionDate => "transaction_datetime cannot be in the future"
    case InvalidCustomerID => "customer_id must be greater than 0"
    case InvalidProductID => "product_id must be greater than 0"
    case CustomerNotFound => "customer not found"
    case ProductNotFound => "product not found"
    case CustomerCompanyMismatch => "customer does not belong to the same company as the product"
    case RefundExceedsOriginal => "refund amount exceeds original purchase amount"
    case InsufficientPurchaseHistory => "insufficient purchase history for refund"
    case DuplicateTransactionID => "transaction ID already exists"
    case MinAmountNegative => "min_amount must be >= 0"
    case MaxAmountNegative => "max_amount must be >= 0"
    case FilterCompanyIdNotPositive => "company_id must be greater than 0"
    case FilterProductIdNotPositive => "product_id must be greater than 0"
    case RefundNotPositive => "refund amount must be greater than 0"
    case NoPurchaseFound => "no purchase found for refund"
    case RefundPeriodExpired => "refund period has expired (30 days limit)"
    case PurchaseBelowMinimum => "minimum purchase amount is 1.00"
    case PurchaseAboveMaximum => "purchase amount exceeds maximum allowed limit"
    case TaxUnreasonablyHigh => "tax amount seems unreasonably high (>50% of purchase amount)"
    case VatRateTooHigh => "VAT rate exceeds typical maximum (25%)"
    case GstRateTooHigh => "GST rate exceeds typical maximum (15%)"
    case SalesTaxRateTooHigh => "sales tax rate exceeds typical maximum (12%)"
    case PaymentNotPositive => "payment amount must be greater than 0"
    case TransactionNotFound => "transaction not found"
  }

  function IsValidTransactionType(s: string): (ok: bool)
    ensures ok <==> s == "purchase" || s == "refund" || s == "payment"
  {
    s in ValidTransactionTypes
  }

  function IsValidPaymentStatus(s: string): (ok: bool)
    ensures ok <==> s == "pending" || s == "completed" || s == "failed" || s == "cancelled"
  {
    s in ValidPaymentStatuses
  }

  function IsValidTaxType(s: string): (ok: bool)
    ensures ok <==> s == "" || s == "VAT" || s == "GST" || s == "SALES_TAX"
  {
    s in ValidTaxTypes
  }

  // ---------------------------------------------------------------------
  // Transaction.Validate

  const FieldCheckCount: nat := 8

  /** The k-th check of `Transaction.Validate`, in the order the source
      runs them; `true` means the check passes. */
  predicate FieldCheck(t: Transaction, now: int, k: nat)
    requires k < FieldCheckCount
  {
    if k == 0 then t.customerId > 0
    else if k == 1 then t.productId > 0
    else if k == 2 then t.amount > 0.0
    else if k == 3 then t.taxAmount >= 0.0
    else if k == 4 then IsValidTransactionType(t.transactionType)
    else if k == 5 then IsValidPaymentStatus(t.paymentStatus)
    else if k == 6 then t.taxType == "" || IsValidTaxType(t.taxType)
    else t.datetime == ZeroTime || t.datetime <= now
  }

  /** The sentinel the k-th check reports. */
  function FieldError(k: nat): Error
    requires k < FieldCheckCount
  {
    if k == 0 then InvalidCustomerID
    else if k == 1 then InvalidProductID
    else if k == 2 then InvalidAmount
    else if k == 3 then InvalidTaxAmount
    else if k == 4 then InvalidTransactionType
    else if k == 5 then InvalidPaymentStatus
    else if k == 6 then InvalidTaxType
    else FutureTransactionDate
  }

  /** The checks before the k-th all pass. */
  predicate FieldChecksBefore(t: Transaction, now: int, k: nat)
    requires k <= FieldCheckCount
  {
    forall i :: 0 <= i < k ==> FieldCheck(t, now, i)
  }

  const FieldErrors: set<Error> := {
    InvalidCustomerID, InvalidProductID, InvalidAmount, InvalidTaxAmount,
    InvalidTransactionType, InvalidPaymentStatus, InvalidTaxType, FutureTransactionDate }

  /** The field constraints stated directly, independent of check order. */
  predicate FieldsValid(t: Transaction, now: int)
  {
    && t.customerId > 0
    && t.productId > 0
    && t.amount > 0.0
    && t.taxAmount >= 0.0
    && t.transactionType in {"purchase", "refund", "payment"}
    && t.paymentStatus in {"pending", "completed", "failed", "cancelled"}
    && t.taxType in {"", "VAT", "GST", "SALES_TAX"}
    && (t.datetime == ZeroTime || t.datetime <= now)
  }

  /** `Transaction.Validate` with `time.Now()` passed in as `now`; `None` is
      a nil error. */
  function Validate(t: Transaction, now: int): (r: Option<Error>)
    ensures r.None? <==> FieldsValid(t, now)
    ensures r.Some? ==> r.value in FieldErrors
  {
    if t.customerId <= 0 then Some(InvalidCustomerID)
    else if t.productId <= 0 then Some(InvalidProductID)
    else if t.amount <= 0.0 then Some(InvalidAmount)
    else if t.taxAmount < 0.0 then Some(InvalidTaxAmount)
    else if !IsValidTransactionType(t.transactionType) then Some(InvalidTransactionType)
    else if !IsValidPaymentStatus(t.paymentStatus) then Some(InvalidPaymentStatus)
    else if t.taxType != "" && !IsValidTaxType(t.taxType) then Some(InvalidTaxType)
    else if t.datetime != ZeroTime && t.datetime > now then Some(FutureTransactionDate)
    else None
  }

  /** Validate reports the k-th sentinel exactly when the k-th check is the
      first one to fail. */
  lemma ValidateReportsFirstFailure(t: Transaction, now: int, k: nat)
    requires k < FieldCheckCount
    ensures Validate(t, now) == Some(FieldError(k))
            <==> FieldChecksBefore(t, now, k) && !FieldCheck(t, now, k)
  {
    var c0, c1, c2, c3 := FieldCheck(t, now, 0), FieldCheck(t, now, 1), FieldCheck(t, now, 2), FieldCheck(t, now, 3);
    var c4, c5, c6 := FieldCheck(t, now, 4), FieldCheck(t, now, 5), FieldCheck(t, now, 6);
  }

  /** An empty tax type never fails validation on its own account. */
  lemma EmptyTaxTypeNeverRejected(t: Transaction, now: int)
    requires t.taxType == ""
    ensures Validate(t, now) != Some(InvalidTaxType)
  {
    assert FieldCheck(t, now, 6);
  }

  /** Any tax type outside VAT, GST and SALES_TAX (other than empty) is
      reported as `ErrInvalidTaxType` once the earlier checks pass. */
  lemma UnknownTaxTypeRejected(t: Transaction, now: int)
    requires FieldChecksBefore(t, now, 6)
    requires t.taxType !in {"", "VAT", "GST", "SALES_TAX"}
    ensures Validate(t, now) == Some(InvalidTaxType)
  {
    ValidateReportsFirstFailure(t, now, 6);
  }

  /** A zero timestamp is never "in the future", and a timestamp equal to
      `now` passes because `After` is strict. */
  lemma TimestampBoundary(t: Transaction, now: int)
    requires t.datetime == ZeroTime || t.datetime == now
    ensures Validate(t, now) != Some(FutureTransactionDate)
  {
    assert FieldCheck(t, now, 7);
  }

  // ---------------------------------------------------------------------
  // TransactionSummaryFilter.Validate

  const FilterCheckCount: nat := 8

  /** The k-th check of `TransactionSummaryFilter.Validate`, in source order. */
  predicate FilterCheck(f: SummaryFilter, k: nat)
    requires k < FilterCheckCount
  {
    if k == 0 then f.page >= 1
    else if k == 1 then 1 <= f.pageSize <= 100
    else if k == 2 then !(f.startDate.Some? && f.endDate.Some? && f.startDate.value > f.endDate.value)
    else if k == 3 then !(f.minAmount.Some? && f.maxAmount.Some? && f.minAmount.value >= f.maxAmount.value)
    else if k == 4 then !(f.minAmount.Some? && f.minAmount.value < 0.0)
    else if k == 5 then !(f.maxAmount.Some? && f.maxAmount.value < 0.0)
    else if k == 6 then !(f.companyId.Some? && f.companyId.value <= 0)
    else !(f.productId.Some? && f.productId.value <= 0)
  }

  function FilterError(k: nat): Error
    requires k < FilterCheckCount
  {
    if k == 0 then InvalidPage
    else if k == 1 then InvalidPageSize
    else if k == 2 then InvalidDateRange
    else if k == 3 then InvalidAmountRange
    else if k == 4 then MinAmountNegative
    else if k == 5 then MaxAmountNegative
    else if k == 6 then FilterCompanyIdNotPositive
    else FilterProductIdNotPositive
  }

  predicate FilterChecksBefore(f: SummaryFilter, k: nat)
    requires k <= FilterCheckCount
  {
    forall i :: 0 <= i < k ==> FilterCheck(f, i)
  }

  /** The filter constraints stated directly, independent of check order. */
  predicate FilterValid(f: SummaryFilter)
  {
    && f.page >= 1
    && 1 <= f.pageSize <= 100
    && (f.startDate.Some? && f.endDate.Some? ==> f.startDate.value <= f.endDate.value)
    && (f.minAmount.Some? && f.maxAmount.Some? ==> f.minAmount.value < f.maxAmount.value)
    && (f.minAmount.Some? ==> f.minAmount.value >= 0.0)
    && (f.maxAmount.Some? ==> f.maxAmount.value >= 0.0)
    && (f.companyId.Some? ==> f.companyId.value > 0)
    && (f.productId.Some? ==> f.productId.value > 0)
  }

  /** `TransactionSummaryFilter.Validate`. */
  function ValidateFilter(f: SummaryFilter): (r: Option<Error>)
    ensures r.None? <==> FilterValid(f)
  {
    if f.page < 1 then Some(InvalidPage)
    else if f.pageSize < 1 || f.pageSize > 100 then Some(InvalidPageSize)
    else if f.startDate.Some? && f.endDate.Some? && f.startDate.value > f.endDate.value then Some(InvalidDateRange)
    else if f.minAmount.Some? && f.maxAmount.Some? && f.minAmount.value >= f.maxAmount.value then Some(InvalidAmountRange)
    else if f.minAmount.Some? && f.minAmount.value < 0.0 then Some(MinAmountNegative)
    else if f.maxAmount.Some? && f.maxAmount.value < 0.0 then Some(MaxAmountNegative)
    else if f.companyId.Some? && f.companyId.value <= 0 then Some(FilterCompanyIdNotPositive)
    else if f.productId.Some? && f.productId.value <= 0 then Some(FilterProductIdNotPositive)
    else None
  }

  /** ValidateFilter reports the k-th error exactly when the k-th check is
      the first one to fail. */
  lemma ValidateFilterReportsFirstFailure(f: SummaryFilter, k: nat)
    requires k < FilterCheckCount
    ensures ValidateFilter(f) == Some(FilterError(k))
            <==> FilterChecksBefore(f, k) && !FilterCheck(f, k)
  {
    var c0, c1, c2, c3 := FilterCheck(f, 0), FilterCheck(f, 1), FilterCheck(f, 2), FilterCheck(f, 3);
    var c4, c5, c6 := FilterCheck(f, 4), FilterCheck(f, 5), FilterCheck(f, 6);
  }

  /** A bad page is reported whatever the page size; the page size alone
      is accepted exactly on [1, 100]. */
  lemma FilterPagingChecks(f: SummaryFilter)
    ensures f.page < 1 ==> ValidateFilter(f) == Some(InvalidPage)
    ensures f.page >= 1 ==> (ValidateFilter(f) == Some(InvalidPageSize) <==> !(1 <= f.pageSize <= 100))
  {
    if f.page >= 1 {
      assert FilterChecksBefore(f, 1) by { assert FilterCheck(f, 0); }
    }
  }

  /** Dates are compared only when both are present, and equal dates pass. */
  lemma FilterDateRange(f: SummaryFilter)
    requires FilterChecksBefore(f, 2)
    ensures ValidateFilter(f) == Some(InvalidDateRange)
            <==> f.startDate.Some? && f.endDate.Some? && f.startDate.value > f.endDate.value
  {
    ValidateFilterReportsFirstFailure(f, 2);
  }

  /** The amount-range check precedes the sign checks: min = max = -1
      reports the range error, not a negative amount. */
  lemma FilterEqualNegativeAmounts(f: SummaryFilter)
    requires FilterChecksBefore(f, 3)
    requires f.minAmount == Some(-1.0) && f.maxAmount == Some(-1.0)
    ensures ValidateFilter(f) == Some(InvalidAmountRange)
  {
    ValidateFilterReportsFirstFailure(f, 3);
  }

  /** Absent optional filters are never rejected; present ids must be positive. */
  lemma FilterOptionalFields(f: SummaryFilter)
    requires 1 <= f.page && 1 <= f.pageSize <= 100
    ensures (f.companyId.None? && f.productId.None? && f.startDate.None? && f.endDate.None?
             && f.minAmount.None? && f.maxAmount.None?) ==> ValidateFilter(f).None?
    ensures f.companyId.Some? && f.companyId.value <= 0 ==> ValidateFilter(f).Some?
    ensures f.productId.Some? && f.productId.value <= 0 ==> ValidateFilter(f).Some?
  {
    if f.companyId.None? && f.productId.None? && f.startDate.None? && f.endDate.None?
       && f.minAmount.None? && f.maxAmount.None? {
      assert FilterChecksBefore(f, FilterCheckCount) by {
        forall i | 0 <= i < FilterCheckCount ensures FilterCheck(f, i) { }
      }
    }
  }
}
