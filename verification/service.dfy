/** The transaction service (internal/app/transaction/service.go): the
    business rules `Create` applies before inserting a transaction, the
    lookups, and the pagination arithmetic of the two reports. The
    customer, product and transaction tables are one immutable `Store`;
    `time.Now()` is the parameter `now`. */
module TxService {
  import opened Wrappers
  import opened TxModel
  import opened TxRepository

  /** The tables `Create` consults: the ids of existing customers and
      products, and the transaction rows in insertion order. */
  datatype Store = Store(customers: set<int>, products: set<int>, rows: seq<Row>)

  const Day: int := 86400
  /** `AddDate(0, 0, 30)`: thirty days of 86400 seconds. */
  const RefundWindow: int := 30 * Day

  const MinPurchase: real := 1.0
  const MaxPurchase: real := 1000000.0

  /** A zero timestamp is replaced by the current time; nothing else changes. */
  function Stamp(t: Transaction, now: int): (t': Transaction)
    ensures t.datetime == ZeroTime ==> t'.datetime == now
    ensures t.datetime != ZeroTime ==> t' == t
    ensures t'.(datetime := t.datetime) == t
  {
    if t.datetime == ZeroTime then t.(datetime := now) else t
  }

  /** Stamping twice is stamping once, and a stamped transaction passes
      validation exactly when the original does: the zero time is exempt
      from the future check and `now` is not after itself. */
  lemma StampIdempotent(t: Transaction, now: int)
    ensures Stamp(Stamp(t, now), now) == Stamp(t, now)
    ensures Validate(Stamp(t, now), now) == Validate(t, now)
  {
    if t.datetime == ZeroTime {
      assert Stamp(t, now).datetime <= now;
    }
  }

  // ---------------------------------------------------------------------
  // Refund rule

  /** Sum of the amounts of the transactions of one type. */
  function Total(h: seq<Transaction>, kind: string): real
  {
    if |h| == 0 then 0.0
    else Total(h[..|h| - 1], kind) + (if h[|h| - 1].transactionType == kind then h[|h| - 1].amount else 0.0)
  }

  /** The purchase the refund loop keeps a pointer to: the first purchase
      with the greatest timestamp, since only a strictly later one replaces it. */
  function LatestPurchase(h: seq<Transaction>): (r: Option<nat>)
    ensures r.None? <==> forall i :: 0 <= i < |h| ==> h[i].transactionType != Purchase
    ensures r.Some? ==> r.value < |h| && h[r.value].transactionType == Purchase
    ensures r.Some? ==> forall i :: (0 <= i < |h| && h[i].transactionType == Purchase)
                                      ==> h[i].datetime <= h[r.value].datetime
    ensures r.Some? ==> forall i :: (0 <= i < r.value && h[i].transactionType == Purchase)
                                      ==> h[i].datetime < h[r.value].datetime
  {
    if |h| == 0 then None
    else
      var n := |h| - 1;
      var p := LatestPurchase(h[..n]);
      assert forall i :: 0 <= i < n ==> h[..n][i] == h[i];
      if h[n].transactionType == Purchase && (p.None? || h[n].datetime > h[p.value].datetime)
      then Some(n)
      else p
  }

  /** The refund branch of `Create`, in the source's order of checks. */
  function RefundRule(t: Transaction, h: seq<Transaction>): (r: Option<Error>)
    ensures r.None? <==>
              && |h| > 0
              && t.amount <= Total(h, Purchase) - Total(h, Refund)
              && t.amount > 0.0
              && exists i :: 0 <= i < |h| && h[i].transactionType == Purchase
                               && t.datetime <= h[i].datetime + RefundWindow
    ensures r.Some? ==> r.value in {InsufficientPurchaseHistory, RefundExceedsOriginal,
                                    RefundNotPositive, NoPurchaseFound, RefundPeriodExpired}
    ensures |h| == 0 ==> r == Some(InsufficientPurchaseHistory)
    ensures |h| > 0 && t.amount > Total(h, Purchase) - Total(h, Refund) ==> r == Some(RefundExceedsOriginal)
    ensures |h| > 0 && t.amount <= Total(h, Purchase) - Total(h, Refund) && t.amount <= 0.0
            ==> r == Some(RefundNotPositive)
    ensures && |h| > 0 && 0.0 < t.amount <= Total(h, Purchase) - Total(h, Refund)
            && (forall i :: 0 <= i < |h| ==> h[i].transactionType != Purchase)
            ==> r == Some(NoPurchaseFound)
    ensures && |h| > 0 && 0.0 < t.amount <= Total(h, Purchase) - Total(h, Refund)
            && (exists i :: 0 <= i < |h| && h[i].transactionType == Purchase)
            && (forall i :: (0 <= i < |h| && h[i].transactionType == Purchase)
                              ==> t.datetime > h[i].datetime + RefundWindow)
            ==> r == Some(RefundPeriodExpired)
  {
    if |h| == 0 then Some(InsufficientPurchaseHistory)
    else if t.amount > Total(h, Purchase) - Total(h, Refund) then Some(RefundExceedsOriginal)
    else if t.amount <= 0.0 then Some(RefundNotPositive)
    else
      match LatestPurchase(h)
      case None => Some(NoPurchaseFound)
      case Some(i) =>
        if t.datetime > h[i].datetime + RefundWindow then Some(RefundPeriodExpired) else None
  }

  /** The refund branch as the source runs it: one pass over the history
      accumulating both totals and the latest purchase, then the checks. */
  method CheckRefund(t: Transaction, h: seq<Transaction>) returns (r: Option<Error>)
    ensures r == RefundRule(t, h)
  {
    if |h| == 0 {
      return Some(InsufficientPurchaseHistory);
    }
    var purchased, refunded := 0.0, 0.0;
    var latest: Option<nat> := None;
    var k := 0;
    while k < |h|
      invariant 0 <= k <= |h|
      invariant purchased == Total(h[..k], Purchase)
      invariant refunded == Total(h[..k], Refund)
      invariant latest == LatestPurchase(h[..k])
    {
      assert h[..k + 1][..k] == h[..k];
      var tx := h[k];
      if tx.transactionType == Purchase {
        purchased := purchased + tx.amount;
        if latest.None? || tx.datetime > h[latest.value].datetime {
          latest := Some(k);
        }
      } else if tx.transactionType == Refund {
        refunded := refunded + tx.amount;
      }
      k := k + 1;
    }
    assert h[..k] == h;
    if t.amount > purchased - refunded {
      return Some(RefundExceedsOriginal);
    }
    if t.amount <= 0.0 {
      return Some(RefundNotPositive);
    }
    if latest.None? {
      return Some(NoPurchaseFound);
    }
    if t.datetime > h[latest.value].datetime + RefundWindow {
      return Some(RefundPeriodExpired);
    }
    return None;
  }

  // ---------------------------------------------------------------------
  // Purchase and payment rules

  /** The highest tax share, in percent, a purchase of this tax type may carry. */
  function RateCap(taxType: string): (cap: real)
    ensures 0.0 < cap <= 50.0
  {
    if taxType == "VAT" then 25.0
    else if taxType == "GST" then 15.0
    else if taxType == "SALES_TAX" then 12.0
    else 50.0
  }

  /** Comparing the percentage `(tax / amount) * 100` with a bound is
      comparing `tax * 100` with the bound times the amount. */
  lemma PercentAbove(tax: real, amount: real, bound: real)
    requires amount > 0.0
    ensures (tax / amount) * 100.0 > bound <==> tax * 100.0 > bound * amount
  {
    var q := tax / amount;
    assert q * amount == tax;
    assert (q * 100.0) * amount == tax * 100.0;
    if q * 100.0 > bound {
      assert (q * 100.0) * amount > bound * amount;
    } else {
      assert (q * 100.0) * amount <= bound * amount;
    }
  }

  /** The purchase branch of `Create`. */
  function PurchaseRule(t: Transaction): (r: Option<Error>)
    ensures r.None? <==>
              && MinPurchase <= t.amount <= MaxPurchase
              && (t.taxAmount > 0.0 ==> t.taxAmount * 100.0 <= RateCap(t.taxType) * t.amount)
    ensures r.Some? ==> r.value in {PurchaseBelowMinimum, PurchaseAboveMaximum, TaxUnreasonablyHigh,
                                    VatRateTooHigh, GstRateTooHigh, SalesTaxRateTooHigh}
    ensures t.amount < MinPurchase ==> r == Some(PurchaseBelowMinimum)
    ensures MinPurchase <= t.amount && t.amount > MaxPurchase ==> r == Some(PurchaseAboveMaximum)
    ensures MinPurchase <= t.amount <= MaxPurchase && t.taxAmount * 100.0 > 50.0 * t.amount
            ==> r == Some(TaxUnreasonablyHigh)
    ensures && MinPurchase <= t.amount <= MaxPurchase && t.taxAmount * 100.0 <= 50.0 * t.amount
            && t.taxType == "VAT" && t.taxAmount * 100.0 > 25.0 * t.amount
            ==> r == Some(VatRateTooHigh)
    ensures && MinPurchase <= t.amount <= MaxPurchase && t.taxAmount * 100.0 <= 50.0 * t.amount
            && t.taxType == "GST" && t.taxAmount * 100.0 > 15.0 * t.amount
            ==> r == Some(GstRateTooHigh)
    ensures && MinPurchase <= t.amount <= MaxPurchase && t.taxAmount * 100.0 <= 50.0 * t.amount
            && t.taxType == "SALES_TAX" && t.taxAmount * 100.0 > 12.0 * t.amount
            ==> r == Some(SalesTaxRateTooHigh)
  {
    if t.amount < MinPurchase then Some(PurchaseBelowMinimum)
    else if t.amount > MaxPurchase then Some(PurchaseAboveMaximum)
    else if t.taxAmount > 0.0 then
      var pct := (t.taxAmount / t.amount) * 100.0;
      PercentAbove(t.taxAmount, t.amount, 50.0);
      PercentAbove(t.taxAmount, t.amount, RateCap(t.taxType));
      if pct > 50.0 then Some(TaxUnreasonablyHigh)
      else if t.taxType == "VAT" && pct > 25.0 then Some(VatRateTooHigh)
      else if t.taxType == "GST" && pct > 15.0 then Some(GstRateTooHigh)
      else if t.taxType == "SALES_TAX" && pct > 12.0 then Some(SalesTaxRateTooHigh)
      else None
    else None
  }

  /** The over-50% check comes first, so a VAT purchase taxed above half its
      amount is reported as unreasonably high, not as a VAT excess. */
  lemma GeneralCapPrecedesTypeCap(t: Transaction)
    requires MinPurchase <= t.amount <= MaxPurchase
    requires t.taxAmount * 100.0 > 50.0 * t.amount
    ensures PurchaseRule(t) == Some(TaxUnreasonablyHigh)
  {
    PercentAbove(t.taxAmount, t.amount, 50.0);
  }

  /** The payment branch of `Create`. */
  function PaymentRule(t: Transaction): (r: Option<Error>)
    ensures r.None? <==> t.amount > 0.0
    ensures r.Some? ==> r.value == PaymentNotPositive
  {
    if t.amount <= 0.0 then Some(PaymentNotPositive) else None
  }

  /** What the type-specific rules accept, stated per type; types other than
      the three known ones have no rule. */
  predicate TypeAccepts(t: Transaction, h: seq<Transaction>)
  {
    if t.transactionType == Refund then
      && |h| > 0
      && 0.0 < t.amount <= Total(h, Purchase) - Total(h, Refund)
      && exists i :: 0 <= i < |h| && h[i].transactionType == Purchase
                       && t.datetime <= h[i].datetime + RefundWindow
    else if t.transactionType == Purchase then
      && MinPurchase <= t.amount <= MaxPurchase
      && (t.taxAmount > 0.0 ==> t.taxAmount * 100.0 <= RateCap(t.taxType) * t.amount)
    else if t.transactionType == Payment then
      t.amount > 0.0
    else true
  }

  /** The `switch t.TransactionType` of `Create`. */
  function TypeRule(t: Transaction, h: seq<Transaction>): (r: Option<Error>)
    ensures r.None? <==> TypeAccepts(t, h)
    ensures r.Some? ==> r.value !in FieldErrors
  {
    if t.transactionType == Refund then RefundRule(t, h)
    else if t.transactionType == Purchase then PurchaseRule(t)
    else if t.transactionType == Payment then PaymentRule(t)
    else None
  }

  // ---------------------------------------------------------------------
  // Create

  datatype Outcome = Outcome(err: Option<Error>, store: Store)

  /** Everything `Create` demands of a transaction, stated directly. */
  predicate Accepted(s: Store, t: Transaction, now: int)
  {
    && FieldsValid(t, now)
    && t.customerId in s.customers
    && t.productId in s.products
    && (forall i :: 0 <= i < |s.rows| ==> s.rows[i].id != t.id)
    && TypeAccepts(Stamp(t, now), History(s.rows, t.customerId, t.productId))
  }

  /** `TransactionService.Create`. */
  function Create(s: Store, t: Transaction, now: int): (o: Outcome)
    ensures o.err.None? <==> Accepted(s, t, now)
    ensures o.err.Some? ==> o.store == s
    ensures o.err.Some? && Validate(t, now).None? ==> o.err.value !in FieldErrors
    ensures o.err.None? ==> o.store.customers == s.customers && o.store.products == s.products
    ensures o.err.None? ==> o.store.rows == s.rows + [ToRow(Stamp(t, now))]
    ensures Validate(t, now).Some? ==> o.err == Validate(t, now)
    ensures Validate(t, now).None? && t.customerId !in s.customers ==> o.err == Some(CustomerNotFound)
    ensures && Validate(t, now).None? && t.customerId in s.customers && t.productId !in s.products
            ==> o.err == Some(ProductNotFound)
    ensures && Validate(t, now).None? && t.customerId in s.customers && t.productId in s.products
            && (exists i :: 0 <= i < |s.rows| && s.rows[i].id == t.id)
            ==> o.err == Some(DuplicateTransactionID)
    ensures && Validate(t, now).None? && t.customerId in s.customers && t.productId in s.products
            && (forall i :: 0 <= i < |s.rows| ==> s.rows[i].id != t.id)
            ==> o.err == TypeRule(Stamp(t, now), History(s.rows, t.customerId, t.productId))
  {
    match Validate(t, now)
    case Some(e) => Outcome(Some(e), s)
    case None =>
      var t' := Stamp(t, now);
      if t'.customerId !in s.customers then Outcome(Some(CustomerNotFound), s)
      else if t'.productId !in s.products then Outcome(Some(ProductNotFound), s)
      else if FindById(s.rows, t'.id).Some? then Outcome(Some(DuplicateTransactionID), s)
      else
        match TypeRule(t', History(s.rows, t'.customerId, t'.productId))
        case Some(e) => Outcome(Some(e), s)
        case None => Outcome(None, s.(rows := s.rows + [ToRow(t')]))
  }

  /** What every store built by `Create` satisfies. */
  predicate Invariant(s: Store)
  {
    && (forall i, j :: 0 <= i < j < |s.rows| ==> s.rows[i].id != s.rows[j].id)
    && (forall i :: 0 <= i < |s.rows| ==> s.rows[i].customerId in s.customers)
    && (forall i :: 0 <= i < |s.rows| ==> s.rows[i].productId in s.products)
    && (forall i :: 0 <= i < |s.rows| ==> s.rows[i].amount > 0.0)
    && (forall i :: 0 <= i < |s.rows| ==> s.rows[i].datetime != ZeroTime)
  }

  /** Create keeps ids unique, references resolvable, amounts positive and
      timestamps set (the clock never reads the zero time). */
  lemma CreatePreservesInvariant(s: Store, t: Transaction, now: int)
    requires Invariant(s)
    requires now != ZeroTime
    ensures Invariant(Create(s, t, now).store)
  {
    var o := Create(s, t, now);
    if o.err.None? {
      var r := ToRow(Stamp(t, now));
      assert o.store.rows[|s.rows|] == r;
      assert forall i :: 0 <= i < |s.rows| ==> o.store.rows[i] == s.rows[i];
    }
  }

  /** `TransactionService.GetByID`; a missing id yields the plain error
      "transaction not found". */
  function GetById(s: Store, id: int): (r: Result<Transaction, Error>)
    ensures r.Failure? <==> forall i :: 0 <= i < |s.rows| ==> s.rows[i].id != id
    ensures r.Failure? ==> r.error == TransactionNotFound
    ensures r.Success? ==> exists i :: 0 <= i < |s.rows| && s.rows[i].id == id && r.value == FromRow(s.rows[i])
  {
    match FindById(s.rows, id)
    case None => Failure(TransactionNotFound)
    case Some(t) => Success(t)
  }

  /** A transaction that `Create` accepts is returned by `GetByID`
      unchanged apart from the timestamp stamping. */
  lemma CreateThenGetById(s: Store, t: Transaction, now: int)
    requires Create(s, t, now).err.None?
    ensures GetById(Create(s, t, now).store, t.id) == Success(Stamp(t, now))
  {
    var o := Create(s, t, now);
    assert Accepted(s, t, now);
    assert o.store == s.(rows := s.rows + [ToRow(Stamp(t, now))]);
    GetByIdAfterInsert(s, Stamp(t, now));
  }

  /** A row whose id is new is the one `GetByID` finds after the insert. */
  lemma GetByIdAfterInsert(s: Store, u: Transaction)
    requires forall i :: 0 <= i < |s.rows| ==> s.rows[i].id != u.id
    ensures GetById(s.(rows := s.rows + [ToRow(u)]), u.id) == Success(u)
  {
    var rows := s.rows + [ToRow(u)];
    RowRoundTrip(u);
    assert rows[|s.rows|].id == u.id;
  }

  /** A rejected transaction leaves nothing behind for `GetByID` to find. */
  lemma RejectedNotStored(s: Store, t: Transaction, now: int)
    requires Create(s, t, now).err.Some?
    ensures GetById(Create(s, t, now).store, t.id) == GetById(s, t.id)
  {
  }

  /** `TransactionService.GetAll`: every row, in table order. */
  function All(s: Store): (ts: seq<Transaction>)
    ensures |ts| == |s.rows|
    ensures forall i :: 0 <= i < |ts| ==> ts[i] == FromRow(s.rows[i])
  {
    seq(|s.rows|, i requires 0 <= i < |s.rows| => FromRow(s.rows[i]))
  }

  /** Whatever `GetByID` finds is among the transactions `GetAll` lists. */
  lemma GetByIdAgreesWithAll(s: Store, id: int)
    requires GetById(s, id).Success?
    ensures GetById(s, id).value in All(s)
  {
    var i :| 0 <= i < |s.rows| && s.rows[i].id == id && GetById(s, id).value == FromRow(s.rows[i]);
    assert All(s)[i] == GetById(s, id).value;
  }

  /** An id already in the table is refused before any type rule runs. */
  lemma DuplicateRejected(s: Store, t: Transaction, now: int)
    requires Validate(t, now).None?
    requires t.customerId in s.customers && t.productId in s.products
    requires exists i :: 0 <= i < |s.rows| && s.rows[i].id == t.id
    ensures Create(s, t, now).err == Some(DuplicateTransactionID)
  {
  }

  // ---------------------------------------------------------------------
  // Consequences of the rules for stored histories

  predicate AllPositive(h: seq<Transaction>)
  {
    forall i :: 0 <= i < |h| ==> h[i].amount > 0.0
  }

  lemma {:induction false} TotalNonNegative(h: seq<Transaction>, kind: string)
    requires AllPositive(h)
    ensures Total(h, kind) >= 0.0
  {
    if |h| > 0 {
      TotalNonNegative(h[..|h| - 1], kind);
    }
  }

  lemma {:induction false} TotalWithoutKind(h: seq<Transaction>, kind: string)
    requires forall i :: 0 <= i < |h| ==> h[i].transactionType != kind
    ensures Total(h, kind) == 0.0
  {
    if |h| > 0 {
      TotalWithoutKind(h[..|h| - 1], kind);
    }
  }

  /** The histories of a store that keeps the invariant hold positive amounts. */
  lemma HistoryPositive(s: Store, c: int, p: int)
    requires Invariant(s)
    ensures AllPositive(History(s.rows, c, p))
  {
    var h := History(s.rows, c, p);
    forall k | 0 <= k < |h| ensures h[k].amount > 0.0 {
      var i :| 0 <= i < |s.rows| && h[k] == FromRow(s.rows[i]);
    }
  }

  /** With positive amounts, a refund against a history without purchases
      is refused as exceeding the original, never as "no purchase found". */
  lemma NoPurchaseMeansExceeds(t: Transaction, h: seq<Transaction>)
    requires |h| > 0 && t.amount > 0.0
    requires AllPositive(h)
    requires forall i :: 0 <= i < |h| ==> h[i].transactionType != Purchase
    ensures RefundRule(t, h) == Some(RefundExceedsOriginal)
  {
    TotalWithoutKind(h, Purchase);
    TotalNonNegative(h, Refund);
  }

  /** Where an error of `Create` comes from: validation, one of the three
      lookups, or the type rule run on the stamped transaction, whose
      amount validation has already found positive. */
  lemma CreateErrorOrigin(s: Store, t: Transaction, now: int)
    requires Create(s, t, now).err.Some?
    ensures var e := Create(s, t, now).err.value;
            || e in FieldErrors
            || e in {CustomerNotFound, ProductNotFound, DuplicateTransactionID}
            || (Validate(t, now).None? && Stamp(t, now).amount > 0.0
                && TypeRule(Stamp(t, now), History(s.rows, t.customerId, t.productId)) == Some(e))
  {
  }

  /** The type rules' positivity errors need a non-positive amount. */
  lemma PositiveAmountPassesPositivity(t: Transaction, h: seq<Transaction>)
    requires t.amount > 0.0
    ensures TypeRule(t, h) != Some(RefundNotPositive)
    ensures TypeRule(t, h) != Some(PaymentNotPositive)
  {
  }

  /** Validation has already required a positive amount, so the refund
      and payment rules' own positivity errors never reach the caller. */
  lemma PositivityErrorsUnreachable(s: Store, t: Transaction, now: int)
    ensures Create(s, t, now).err != Some(RefundNotPositive)
    ensures Create(s, t, now).err != Some(PaymentNotPositive)
  {
    if Create(s, t, now).err.Some? {
      CreateErrorOrigin(s, t, now);
      if Stamp(t, now).amount > 0.0 {
        PositiveAmountPassesPositivity(Stamp(t, now), History(s.rows, t.customerId, t.productId));
      }
    }
  }

  /** On a store that keeps the invariant, a refund against a history
      without purchases fails the amount check first, so "no purchase
      found" never reaches the caller either. */
  lemma NoPurchaseFoundUnreachable(s: Store, t: Transaction, now: int)
    requires Invariant(s)
    ensures Create(s, t, now).err != Some(NoPurchaseFound)
  {
    if Create(s, t, now).err.Some? {
      CreateErrorOrigin(s, t, now);
      HistoryPositive(s, t.customerId, t.productId);
      if Stamp(t, now).amount > 0.0 {
        RefundNeverNoPurchase(Stamp(t, now), History(s.rows, t.customerId, t.productId));
      }
    }
  }

  /** Over a history of positive amounts the refund rule never reports
      "no purchase found" for a positive refund. */
  lemma RefundNeverNoPurchase(t: Transaction, h: seq<Transaction>)
    requires t.amount > 0.0
    requires AllPositive(h)
    ensures RefundRule(t, h) != Some(NoPurchaseFound)
    ensures TypeRule(t, h) != Some(NoPurchaseFound)
  {
    if |h| > 0 && LatestPurchase(h).None? {
      NoPurchaseMeansExceeds(t, h);
    }
  }

  /** Payments in the history neither add to nor subtract from the
      refundable amount, nor count as purchases. */
  lemma PaymentsIgnored(t: Transaction, h: seq<Transaction>, p: Transaction)
    requires |h| > 0
    requires p.transactionType == Payment
    ensures RefundRule(t, h + [p]) == RefundRule(t, h)
  {
    assert (h + [p])[..|h|] == h;
    var L := LatestPurchase(h + [p]);
    assert L == LatestPurchase(h);
    if L.Some? {
      assert (h + [p])[L.value] == h[L.value];
    }
  }

  /** The deadline is inclusive: a full refund exactly thirty days after
      the only purchase passes, one second later it has expired. */
  lemma RefundDeadlineInclusive(t: Transaction, p: Transaction)
    requires p.transactionType == Purchase && p.amount > 0.0
    requires t.amount == p.amount
    ensures t.datetime == p.datetime + RefundWindow ==> RefundRule(t, [p]).None?
    ensures t.datetime == p.datetime + RefundWindow + 1 ==> RefundRule(t, [p]) == Some(RefundPeriodExpired)
  {
    assert [p][..0] == [];
    assert Total([p], Purchase) == p.amount;
    assert Total([p], Refund) == 0.0;
  }

  // ---------------------------------------------------------------------
  // Report responses

  /** `total / pageSize`, plus one when there is a remainder. */
  function TotalPages(total: int, pageSize: int): (n: int)
    requires total >= 0 && pageSize >= 1
    ensures n >= 0
    ensures (n - 1) * pageSize < total <= n * pageSize
  {
    var q, rem := total / pageSize, total % pageSize;
    CeilingBounds(total, pageSize, q, rem);
    if rem > 0 then q + 1 else q
  }

  lemma CeilingBounds(total: int, pageSize: int, q: int, rem: int)
    requires total >= 0 && pageSize >= 1
    requires q == total / pageSize && rem == total % pageSize
    ensures q >= 0
    ensures rem > 0 ==> q * pageSize < total <= (q + 1) * pageSize
    ensures rem == 0 ==> (q - 1) * pageSize < total <= q * pageSize
  {
    assert total == q * pageSize + rem && 0 <= rem < pageSize;
    assert (q + 1) * pageSize == q * pageSize + pageSize;
    assert (q - 1) * pageSize == q * pageSize - pageSize;
  }

  /** The page count is the only count whose pages cover the total without
      an empty trailing page. */
  lemma TotalPagesUnique(total: int, pageSize: int, m: int)
    requires total >= 0 && pageSize >= 1
    requires (m - 1) * pageSize < total <= m * pageSize
    ensures m == TotalPages(total, pageSize)
  {
    var n := TotalPages(total, pageSize);
    if m < n {
      MonotoneProduct(m, n - 1, pageSize);
    } else if m > n {
      MonotoneProduct(n, m - 1, pageSize);
    }
  }

  lemma MonotoneProduct(a: int, b: int, c: int)
    requires a <= b && c >= 0
    ensures a * c <= b * c
  {
  }

  lemma TotalPagesExample()
    ensures TotalPages(23, 10) == 3
    ensures TotalPages(20, 10) == 2
    ensures TotalPages(0, 10) == 0
  {
    TotalPagesUnique(23, 10, 3);
    TotalPagesUnique(20, 10, 2);
    TotalPagesUnique(0, 10, 0);
  }

  /** Reading pages 1 to `TotalPages` returns every row, and stopping one
      page earlier misses some. */
  lemma TotalPagesCoverRows<T>(rows: seq<T>, pageSize: int)
    requires pageSize >= 1
    ensures Pages(rows, pageSize, TotalPages(|rows|, pageSize)) == rows
    ensures TotalPages(|rows|, pageSize) > 0 ==>
              |Pages(rows, pageSize, TotalPages(|rows|, pageSize) - 1)| < |rows|
  {
    var n := TotalPages(|rows|, pageSize);
    PagesArePrefix(rows, pageSize, n);
    if n > 0 {
      PagesArePrefix(rows, pageSize, n - 1);
    }
  }

  datatype Pagination = Pagination(page: int, pageSize: int, totalItems: int, totalPages: int)
  datatype Response<T> = Response(data: seq<T>, pagination: Pagination)

  /** `GetTransactionSummaryWithFilter`, given the page of rows and the
      total count the repository returns for the validated filter. */
  function SummaryWithFilter<T>(f: SummaryFilter, data: seq<T>, total: nat): (r: Result<Response<T>, Error>)
    ensures r.Failure? <==> !FilterValid(f)
    ensures r.Failure? ==> r.error == ValidateFilter(f).value
    ensures r.Success? ==> r.value.data == data
    ensures r.Success? ==> r.value.pagination.totalItems == total
    ensures r.Success? ==> r.value.pagination.page == f.page && r.value.pagination.pageSize == f.pageSize
    ensures r.Success? ==> var n := r.value.pagination.totalPages;
              (n - 1) * f.pageSize < total <= n * f.pageSize
  {
    match ValidateFilter(f)
    case Some(e) => Failure(e)
    case None => Success(Response(data, Pagination(f.page, f.pageSize, total, TotalPages(total, f.pageSize))))
  }

  /** The paging checks of `GetCustomerActivity`, run before the filter is built. */
  function ActivityRequest(companyId: Option<int>, minTrxCount: Option<int>, page: int, pageSize: int)
    : (r: Result<ActivityFilter, Error>)
    ensures r.Failure? <==> page < 1 || pageSize < 1 || pageSize > 100
    ensures r.Failure? ==> r.error == (if page < 1 then InvalidPage else InvalidPageSize)
    ensures r.Success? ==> r.value == ActivityFilter(companyId, minTrxCount, page, pageSize)
  {
    if page < 1 then Failure(InvalidPage)
    else if pageSize < 1 || pageSize > 100 then Failure(InvalidPageSize)
    else Success(ActivityFilter(companyId, minTrxCount, page, pageSize))
  }

  /** `GetCustomerActivity`, given the repository's page and total. */
  function CustomerActivity<T>(companyId: Option<int>, minTrxCount: Option<int>, page: int, pageSize: int,
                               data: seq<T>, total: nat): (r: Result<Response<T>, Error>)
    ensures r.Failure? <==> ActivityRequest(companyId, minTrxCount, page, pageSize).Failure?
    ensures r.Failure? ==> r.error == ActivityRequest(companyId, minTrxCount, page, pageSize).error
    ensures r.Success? ==> r.value.data == data && r.value.pagination.totalItems == total
    ensures r.Success? ==> r.value.pagination.page == page && r.value.pagination.pageSize == pageSize
    ensures r.Success? ==> var n := r.value.pagination.totalPages;
              (n - 1) * pageSize < total <= n * pageSize
  {
    match ActivityRequest(companyId, minTrxCount, page, pageSize)
    case Failure(e) => Failure(e)
    case Success(f) => Success(Response(data, Pagination(page, pageSize, total, TotalPages(total, pageSize))))
  }
}
