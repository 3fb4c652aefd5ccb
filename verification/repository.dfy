/** The transaction repository (internal/app/transaction/repository.go):
    the row mapping of the nullable tax_type column, lookups over the
    transaction table, the SQL the filtered reports are built from, and the
    meaning of the grouped summary and the ranked activity report over a
    sequence of rows. No database is modelled. */
module TxRepository {
  import opened Wrappers
  import opened TxModel
  import opened Text

  // ---------------------------------------------------------------------
  // Rows of the transaction table

  /** A row of the `transaction` table; `tax_type` is a nullable column. */
  datatype Row = Row(
    id: int,
    customerId: int,
    transactionType: string,
    amount: real,
    datetime: int,
    taxAmount: real,
    taxType: Option<string>,
    paymentStatus: string,
    productId: int)

  /** The value bound to the tax_type parameter on insert: NULL for "". */
  function TaxTypeColumn(taxType: string): (col: Option<string>)
    ensures col.None? <==> taxType == ""
    ensures col.Some? ==> col.value == taxType
  {
    if taxType != "" then Some(taxType) else None
  }

  /** The field a scanned tax_type column yields: "" for NULL. */
  function TaxTypeField(col: Option<string>): (taxType: string)
    ensures col.None? ==> taxType == ""
    ensures col.Some? ==> taxType == col.value
  {
    if col.Some? then col.value else ""
  }

  /** Writing then reading the column gives back every tax type, the empty
      one included; reading then writing gives back every column except a
      stored empty string, which comes back as NULL. */
  lemma TaxTypeRoundTrip(taxType: string, col: Option<string>)
    ensures TaxTypeField(TaxTypeColumn(taxType)) == taxType
    ensures col != Some("") ==> TaxTypeColumn(TaxTypeField(col)) == col
  {
  }

  /** The row `Create` inserts for a transaction. */
  function ToRow(t: Transaction): (r: Row)
    ensures r.id == t.id && r.customerId == t.customerId && r.productId == t.productId
    ensures r.taxType == TaxTypeColumn(t.taxType)
  {
    Row(t.id, t.customerId, t.transactionType, t.amount, t.datetime,
        t.taxAmount, TaxTypeColumn(t.taxType), t.paymentStatus, t.productId)
  }

  /** The transaction a scanned row yields. */
  function FromRow(r: Row): (t: Transaction)
    ensures t.id == r.id && t.customerId == r.customerId && t.productId == r.productId
    ensures t.taxType == TaxTypeField(r.taxType)
  {
    Transaction(r.id, r.customerId, r.transactionType, r.amount, r.datetime,
                r.taxAmount, TaxTypeField(r.taxType), r.paymentStatus, r.productId)
  }

  /** Every field survives an insert followed by a scan. */
  lemma RowRoundTrip(t: Transaction)
    ensures FromRow(ToRow(t)) == t
  {
    TaxTypeRoundTrip(t.taxType, None);
  }

  /** `GetByID`: the row with that id, or (nil, nil) when there is none. */
  function FindById(rows: seq<Row>, id: int): (r: Option<Transaction>)
    ensures r.None? <==> forall i :: 0 <= i < |rows| ==> rows[i].id != id
    ensures r.Some? ==> exists i :: 0 <= i < |rows| && rows[i].id == id && r.value == FromRow(rows[i])
  {
    if |rows| == 0 then None
    else if rows[0].id == id then Some(FromRow(rows[0]))
    else
      var r := FindById(rows[1..], id);
      assert forall i :: 1 <= i < |rows| ==> rows[i] == rows[1..][i - 1];
      r
  }

  /** `GetTransactionsByCustomerAndProduct`: the (customer, product)
      history, in table order. */
  function History(rows: seq<Row>, customerId: int, productId: int): (h: seq<Transaction>)
    ensures |h| <= |rows|
    ensures forall k :: 0 <= k < |h| ==> h[k].customerId == customerId && h[k].productId == productId
    ensures forall i :: (0 <= i < |rows| && rows[i].customerId == customerId && rows[i].productId == productId)
                          ==> FromRow(rows[i]) in h
    ensures forall k :: 0 <= k < |h| ==> exists i :: 0 <= i < |rows| && h[k] == FromRow(rows[i])
  {
    if |rows| == 0 then []
    else
      var last := rows[|rows| - 1];
      var prefix := History(rows[..|rows| - 1], customerId, productId);
      assert forall i :: 0 <= i < |rows| - 1 ==> rows[i] == rows[..|rows| - 1][i];
      if last.customerId == customerId && last.productId == productId
      then prefix + [FromRow(last)]
      else prefix
  }

  /** The history read front to back: the first row contributes first, so
      with `History([], c, p) == []` this fixes the result exactly, in table
      order and with every matching row counted once per occurrence. */
  lemma {:induction false} HistoryCons(r: Row, rows: seq<Row>, customerId: int, productId: int)
    ensures History([r] + rows, customerId, productId)
            == (if r.customerId == customerId && r.productId == productId then [FromRow(r)] else [])
               + History(rows, customerId, productId)
    decreases |rows|
  {
    if |rows| == 0 {
      assert [r] + rows == [r];
      assert [r][..0] == [];
    } else {
      var init, last := rows[..|rows| - 1], rows[|rows| - 1];
      assert [r] + rows == ([r] + init) + [last];
      assert rows == init + [last];
      HistorySnoc([r] + init, last, customerId, productId);
      HistorySnoc(init, last, customerId, productId);
      HistoryCons(r, init, customerId, productId);
    }
  }

  /** One step of the history's own recursion: a row appended to the table
      is appended to the history when it matches. */
  lemma HistorySnoc(rows: seq<Row>, last: Row, customerId: int, productId: int)
    ensures History(rows + [last], customerId, productId)
            == History(rows, customerId, productId)
               + (if last.customerId == customerId && last.productId == productId then [FromRow(last)] else [])
  {
    assert (rows + [last])[..|rows|] == rows;
  }

  // ---------------------------------------------------------------------
  // Query construction

  /** A bound argument of a parameterised statement. */
  datatype Arg = IntArg(i: int) | TimeArg(t: int) | RealArg(r: real)

  /** The column comparison an optional filter contributes. */
  datatype Predicate =
    | CompanyIs        // c.id = $n
    | ProductIs        // p.id = $n
    | StartsFrom       // t.transaction_datetime >= $n
    | EndsBy           // t.transaction_datetime <= $n
    | AmountAtLeast    // t.amount >= $n
    | AmountAtMost     // t.amount <= $n
    | MinTrxCount      // COUNT(t.id) >= $n

  /** The text before the placeholder. */
  function PredicateText(p: Predicate): string
  {
    match p
    case CompanyIs => "c.id ="
    case ProductIs => "p.id ="
    case StartsFrom => "t.transaction_datetime >="
    case EndsBy => "t.transaction_datetime <="
    case AmountAtLeast => "t.amount >="
    case AmountAtMost => "t.amount <="
    case MinTrxCount => "COUNT(t.id) >="
  }

  /** An optional filter that is present: its predicate and the value bound
      to its placeholder. */
  datatype Term = Term(cond: Predicate, arg: Arg)

  /** The builder state of the source: query text, arguments so far and
      the next placeholder number (`argPos`). */
  datatype Query = Query(sql: string, args: seq<Arg>, argPos: nat)

  /** The text one present filter appends: `" AND <predicate> $<n>"`. */
  function Clause(t: Term, n: nat): string
  {
    " AND " + PredicateText(t.cond) + " $" + NatToString(n)
  }

  /** One `baseQuery += fmt.Sprintf(" AND <predicate> $%d", argPos)` step
      with its `append` and `argPos++`. */
  function AddTerm(q: Query, t: Term): (q': Query)
    ensures q'.args == q.args + [t.arg] && q'.argPos == q.argPos + 1
  {
    Query(q.sql + Clause(t, q.argPos), q.args + [t.arg], q.argPos + 1)
  }

  /** The chain of `if filter.X != nil { ... }` blocks over the present terms. */
  function ApplyTerms(q: Query, terms: seq<Term>): Query
    decreases |terms|
  {
    if |terms| == 0 then q else ApplyTerms(AddTerm(q, terms[0]), terms[1..])
  }

  /** The predicates rendered with placeholders `$from, $from+1, ...`. */
  function Clauses(terms: seq<Term>, from: nat): string
    decreases |terms|
  {
    if |terms| == 0 then ""
    else Clause(terms[0], from) + Clauses(terms[1..], from + 1)
  }

  function ArgsOf(terms: seq<Term>): (args: seq<Arg>)
    ensures |args| == |terms|
    ensures forall i :: 0 <= i < |terms| ==> args[i] == terms[i].arg
    decreases |terms|
  {
    if |terms| == 0 then [] else [terms[0].arg] + ArgsOf(terms[1..])
  }

  /** Appending the terms one at a time numbers their placeholders
      consecutively from the starting position, with no gap... */
  lemma {:induction false} ApplyTermsNumbersConsecutively(q: Query, terms: seq<Term>)
    ensures ApplyTerms(q, terms).sql == q.sql + Clauses(terms, q.argPos)
    ensures ApplyTerms(q, terms).argPos == q.argPos + |terms|
    decreases |terms|
  {
    if |terms| > 0 {
      var q1 := AddTerm(q, terms[0]);
      ApplyTermsNumbersConsecutively(q1, terms[1..]);
      var head, tail := Clause(terms[0], q.argPos), Clauses(terms[1..], q.argPos + 1);
      assert ApplyTerms(q, terms) == ApplyTerms(q1, terms[1..]);
      assert q1.sql == q.sql + head;
      assert Clauses(terms, q.argPos) == head + tail;
      ConcatAssoc(q.sql, head, tail);
    }
  }

  lemma ConcatAssoc(a: string, b: string, c: string)
    ensures (a + b) + c == a + (b + c)
  {
  }

  /** ... and binds their arguments in the same order. */
  lemma {:induction false} ApplyTermsBindsInOrder(q: Query, terms: seq<Term>)
    ensures ApplyTerms(q, terms).args == q.args + ArgsOf(terms)
    decreases |terms|
  {
    if |terms| > 0 {
      var q1 := AddTerm(q, terms[0]);
      ApplyTermsBindsInOrder(q1, terms[1..]);
      calc {
        ApplyTerms(q, terms).args;
        ApplyTerms(q1, terms[1..]).args;
        (q.args + [terms[0].arg]) + ArgsOf(terms[1..]);
        q.args + ([terms[0].arg] + ArgsOf(terms[1..]));
        q.args + ArgsOf(terms);
      }
    }
  }

  /** Position of a summary predicate in the source's order of filters. */
  function SummaryRank(p: Predicate): nat
  {
    match p
    case CompanyIs => 0
    case ProductIs => 1
    case StartsFrom => 2
    case EndsBy => 3
    case AmountAtLeast => 4
    case AmountAtMost => 5
    case MinTrxCount => 6
  }

  /** Number of optional filters present. */
  function PresentCount(f: SummaryFilter): nat
  {
    (if f.companyId.Some? then 1 else 0) + (if f.productId.Some? then 1 else 0)
    + (if f.startDate.Some? then 1 else 0) + (if f.endDate.Some? then 1 else 0)
    + (if f.minAmount.Some? then 1 else 0) + (if f.maxAmount.Some? then 1 else 0)
  }

  function IntArgOf(o: Option<int>): Option<Arg> { if o.Some? then Some(IntArg(o.value)) else None }
  function TimeArgOf(o: Option<int>): Option<Arg> { if o.Some? then Some(TimeArg(o.value)) else None }
  function RealArgOf(o: Option<real>): Option<Arg> { if o.Some? then Some(RealArg(o.value)) else None }

  /** The `if filter.X != nil` block: one term when the filter is present. */
  function TermIf(cond: Predicate, arg: Option<Arg>): seq<Term>
  {
    if arg.Some? then [Term(cond, arg.value)] else []
  }

  /** `terms` binds `arg` to `cond` when the filter is present and never
      mentions `cond` when it is absent. */
  predicate Carries(terms: seq<Term>, cond: Predicate, arg: Option<Arg>)
  {
    if arg.Some? then Term(cond, arg.value) in terms
    else forall t :: t in terms ==> t.cond != cond
  }

  /** The j-th optional filter of the summary report, in source order. */
  function SlotPredicate(j: nat): (p: Predicate)
    requires j < 6
    ensures SummaryRank(p) == j
  {
    if j == 0 then CompanyIs
    else if j == 1 then ProductIs
    else if j == 2 then StartsFrom
    else if j == 3 then EndsBy
    else if j == 4 then AmountAtLeast
    else AmountAtMost
  }

  /** The value of the j-th optional filter, if present. */
  function SlotArg(f: SummaryFilter, j: nat): Option<Arg>
    requires j < 6
  {
    if j == 0 then IntArgOf(f.companyId)
    else if j == 1 then IntArgOf(f.productId)
    else if j == 2 then TimeArgOf(f.startDate)
    else if j == 3 then TimeArgOf(f.endDate)
    else if j == 4 then RealArgOf(f.minAmount)
    else RealArgOf(f.maxAmount)
  }

  function PresentFrom(f: SummaryFilter, j: nat): nat
    requires j <= 6
    decreases 6 - j
  {
    if j == 6 then 0 else (if SlotArg(f, j).Some? then 1 else 0) + PresentFrom(f, j + 1)
  }

  predicate StrictlyRanked(terms: seq<Term>)
  {
    forall i, k :: 0 <= i < k < |terms| ==> SummaryRank(terms[i].cond) < SummaryRank(terms[k].cond)
  }

  /** The `if` blocks for the filters from the j-th on. Each present filter
      contributes exactly one term; absent ones contribute nothing. */
  function TermsFrom(f: SummaryFilter, j: nat): (terms: seq<Term>)
    requires j <= 6
    ensures |terms| == PresentFrom(f, j)
    ensures forall t :: t in terms ==> j <= SummaryRank(t.cond) < 6
    ensures StrictlyRanked(terms)
    ensures forall k :: j <= k < 6 ==> Carries(terms, SlotPredicate(k), SlotArg(f, k))
    decreases 6 - j
  {
    if j == 6 then []
    else
      var p, a := SlotPredicate(j), SlotArg(f, j);
      var rest := TermsFrom(f, j + 1);
      PrependTerm(p, a, rest);
      assert forall k :: j < k < 6 ==> Carries(TermIf(p, a) + rest, SlotPredicate(k), SlotArg(f, k)) by {
        forall k | j < k < 6 {
          PrependKeepsCarry(p, a, rest, SlotPredicate(k), SlotArg(f, k));
        }
      }
      TermIf(p, a) + rest
  }

  lemma PrependTerm(p: Predicate, a: Option<Arg>, rest: seq<Term>)
    requires forall t :: t in rest ==> SummaryRank(t.cond) > SummaryRank(p)
    requires StrictlyRanked(rest)
    ensures StrictlyRanked(TermIf(p, a) + rest)
    ensures Carries(TermIf(p, a) + rest, p, a)
    ensures forall t :: t in TermIf(p, a) + rest ==> t in rest || t.cond == p
  {
    var all := TermIf(p, a) + rest;
    if a.Some? {
      assert all[0].cond == p;
      assert forall i :: 1 <= i < |all| ==> all[i] == rest[i - 1];
      assert forall i :: 1 <= i < |all| ==> all[i] in rest;
    }
  }

  lemma PrependKeepsCarry(p: Predicate, a: Option<Arg>, rest: seq<Term>, q: Predicate, b: Option<Arg>)
    requires q != p
    requires Carries(rest, q, b)
    ensures Carries(TermIf(p, a) + rest, q, b)
  {
  }

  /** The present filters of the summary report, in the order the source
      appends them: company, product, start, end, min, max. */
  function SummaryTerms(f: SummaryFilter): (terms: seq<Term>)
    ensures |terms| == PresentCount(f)
    ensures StrictlyRanked(terms)
    ensures forall k :: 0 <= k < 6 ==> Carries(terms, SlotPredicate(k), SlotArg(f, k))
  {
    assert PresentFrom(f, 0) == PresentCount(f) by {
      assert PresentFrom(f, 5) == (if f.maxAmount.Some? then 1 else 0);
      assert PresentFrom(f, 3) == (if f.endDate.Some? then 1 else 0) + PresentFrom(f, 4);
    }
    TermsFrom(f, 0)
  }

  // ---------------------------------------------------------------------
  // Statements of the filtered reports

  /** The fixed parts of the two report queries (whitespace normalised):
      each query is a head ending in `WHERE 1=1`, the appended filter
      clauses, and a tail. */
  datatype FixedSql = SummarySelect | SummaryGroupOrder | ActivitySelect | ActivityRank

  function FixedText(x: FixedSql): string
  {
    match x
    case SummarySelect =>
      "SELECT c.id, c.name AS company_name, p.id AS product_id, p.product_name, "
      + "SUM(t.amount) AS amount, COUNT(t.id) AS count, SUM(t.tax_amount) AS tax_value, "
      + "p.service_fee_percentage, p.service_fee, MAX(t.transaction_datetime) AS last_trx_on, "
      + "(SELECT t2.id FROM transaction t2 INNER JOIN customer cu2 ON t2.customer_id = cu2.id "
      + "WHERE cu2.company = c.id AND t2.product_id = p.id "
      + "ORDER BY t2.transaction_datetime DESC, t2.id DESC LIMIT 1) AS id_last_trx, "
      + "MIN(t.transaction_datetime) AS first_trx_on, "
      + "(SELECT t3.id FROM transaction t3 INNER JOIN customer cu3 ON t3.customer_id = cu3.id "
      + "WHERE cu3.company = c.id AND t3.product_id = p.id "
      + "ORDER BY t3.transaction_datetime ASC, t3.id ASC LIMIT 1) AS id_first_trx "
      + "FROM company c INNER JOIN customer cu ON c.id = cu.company "
      + "INNER JOIN transaction t ON cu.id = t.customer_id "
      + "INNER JOIN product p ON t.product_id = p.id WHERE 1=1"
    case SummaryGroupOrder =>
      " GROUP BY c.id, c.name, p.id, p.product_name, p.service_fee_percentage, p.service_fee ORDER BY c.id, p.id"
    case ActivitySelect =>
      "WITH ranked AS (SELECT c.id AS company_id, c.name AS company_name, cu.id AS customer_id, "
      + "CONCAT(cu.first_name, ' ', cu.last_name) AS full_name, COUNT(t.id) AS count_trx "
      + "FROM company c INNER JOIN customer cu ON c.id = cu.company "
      + "INNER JOIN transaction t ON cu.id = t.customer_id WHERE 1=1"
    case ActivityRank =>
      " GROUP BY c.id, c.name, cu.id, cu.first_name, cu.last_name) "
      + "SELECT ROW_NUMBER() OVER (ORDER BY company_id, count_trx DESC, customer_id) AS row_number, "
      + "company_id, company_name, customer_id, full_name, count_trx FROM ranked"
  }

  /** A report query before pagination: fixed head, the clauses the
      builder appended, fixed tail. */
  datatype BaseSql = BaseSql(head: FixedSql, clauses: string, tail: FixedSql)

  function Render(b: BaseSql): string
  {
    FixedText(b.head) + b.clauses + FixedText(b.tail)
  }

  /** What a report runs: the base query, the filter arguments of the count
      statement, the placeholder number of LIMIT (OFFSET takes the next
      one), and the arguments of the paginated statement. */
  datatype Statements = Statements(base: BaseSql, countArgs: seq<Arg>, limitPos: nat, pageArgs: seq<Arg>)

  /** `SELECT COUNT(*) FROM (<base>) AS total`. */
  function CountSql(st: Statements): string
  {
    "SELECT COUNT(*) FROM (" + Render(st.base) + ") AS total"
  }

  function LimitOffset(argPos: nat): string
  {
    " LIMIT $" + NatToString(argPos) + " OFFSET $" + NatToString(argPos + 1)
  }

  /** The paginated statement: the same base with LIMIT and OFFSET. */
  function PageSql(st: Statements): string
  {
    Render(st.base) + LimitOffset(st.limitPos)
  }

  /** The statements a filtered report builds. The source starts the
      builder at the head text and appends one clause per present term;
      the head is kept apart here, so the builder starts from the empty
      text. The count statement runs the base query with the filter
      arguments; the paginated statement's placeholders are $1..$k for the
      k present terms, then LIMIT $(k+1) and OFFSET $(k+2), and its
      argument list has exactly k+2 entries, the last two being page size
      and offset. */
  function FilteredStatements(head: FixedSql, terms: seq<Term>, tail: FixedSql, page: int, pageSize: int)
    : (st: Statements)
    ensures st.base == BaseSql(head, Clauses(terms, 1), tail)
    ensures st.countArgs == ArgsOf(terms)
    ensures st.limitPos == |terms| + 1
    ensures |st.pageArgs| == |st.countArgs| + 2
    ensures st.pageArgs[..|st.countArgs|] == st.countArgs
    ensures st.pageArgs[|st.countArgs|] == IntArg(pageSize)
    ensures st.pageArgs[|st.countArgs| + 1] == IntArg(GoOffset(page, pageSize))
  {
    var q := ApplyTerms(Query("", [], 1), terms);
    ApplyTermsNumbersConsecutively(Query("", [], 1), terms);
    ApplyTermsBindsInOrder(Query("", [], 1), terms);
    assert [] + ArgsOf(terms) == ArgsOf(terms);
    assert "" + Clauses(terms, 1) == Clauses(terms, 1);
    Statements(BaseSql(head, q.sql, tail), q.args, q.argPos,
               q.args + [IntArg(pageSize), IntArg(GoOffset(page, pageSize))])
  }

  /** The statements `GetTransactionSummaryWithFilter` builds: one clause
      and one argument per present filter, in filter order, numbered from
      $1, then page size and offset. */
  function SummaryStatements(f: SummaryFilter): (st: Statements)
    ensures st.base == BaseSql(SummarySelect, Clauses(SummaryTerms(f), 1), SummaryGroupOrder)
    ensures |st.countArgs| == PresentCount(f)
    ensures st.countArgs == ArgsOf(SummaryTerms(f))
    ensures st.limitPos == |st.countArgs| + 1
    ensures |st.pageArgs| == |st.countArgs| + 2
    ensures st.pageArgs[..|st.countArgs|] == st.countArgs
    ensures st.pageArgs[|st.countArgs|] == IntArg(f.pageSize)
    ensures st.pageArgs[|st.countArgs| + 1] == IntArg(GoOffset(f.page, f.pageSize))
  {
    FilteredStatements(SummarySelect, SummaryTerms(f), SummaryGroupOrder, f.page, f.pageSize)
  }

  /** The present filters of the activity report: company, then the
      minimum count (which the source places in the WHERE clause). */
  function ActivityTerms(f: ActivityFilter): (terms: seq<Term>)
    ensures |terms| == (if f.companyId.Some? then 1 else 0) + (if f.minTrxCount.Some? then 1 else 0)
    ensures f.companyId.Some? ==> terms[0] == Term(CompanyIs, IntArg(f.companyId.value))
    ensures f.minTrxCount.Some? ==> terms[|terms| - 1] == Term(MinTrxCount, IntArg(f.minTrxCount.value))
  {
    TermIf(CompanyIs, IntArgOf(f.companyId)) + TermIf(MinTrxCount, IntArgOf(f.minTrxCount))
  }

  /** The statements `GetCustomerActivity` builds, with the same numbering
      and argument layout as the summary report. */
  function ActivityStatements(f: ActivityFilter): (st: Statements)
    ensures st.base == BaseSql(ActivitySelect, Clauses(ActivityTerms(f), 1), ActivityRank)
    ensures st.countArgs == ArgsOf(ActivityTerms(f))
    ensures st.limitPos == |st.countArgs| + 1
    ensures |st.pageArgs| == |st.countArgs| + 2
    ensures st.pageArgs[..|st.countArgs|] == st.countArgs
    ensures st.pageArgs[|st.countArgs|] == IntArg(f.pageSize)
    ensures st.pageArgs[|st.countArgs| + 1] == IntArg(GoOffset(f.page, f.pageSize))
  {
    FilteredStatements(ActivitySelect, ActivityTerms(f), ActivityRank, f.page, f.pageSize)
  }

  // ---------------------------------------------------------------------
  // Offsets and pages

  const TwoTo63: int := 0x8000_0000_0000_0000
  const TwoTo64: int := 0x1_0000_0000_0000_0000

  /** Two's-complement wrap-around of a Go int64 result. */
  function WrapInt64(x: int): (r: int)
    ensures -TwoTo63 <= r < TwoTo63
    ensures (x - r) % TwoTo64 == 0
    ensures -TwoTo63 <= x < TwoTo63 ==> r == x
  {
    (x + TwoTo63) % TwoTo64 - TwoTo63
  }

  /** `offset := (filter.Page - 1) * filter.PageSize` as Go evaluates it:
      int64 multiplication, which wraps. */
  function GoOffset(page: int, pageSize: int): (o: int)
    ensures -TwoTo63 <= o < TwoTo63
    ensures 0 <= (page - 1) * pageSize < TwoTo63 ==> o == (page - 1) * pageSize
  {
    WrapInt64((page - 1) * pageSize)
  }

  /** A page number the handlers accept (any int64 >= 1) whose offset wraps
      to a negative number. */
  lemma GoOffsetWrapsNegative()
    ensures GoOffset(0x200_0000_0000_0001, 100) < 0
  {
    assert (0x200_0000_0000_0001 - 1) * 100 == 14411518807585587200;
  }

  /** The offset pagination intends: the number of rows on earlier pages. */
  function Offset(page: int, pageSize: int): (o: nat)
    requires page >= 1 && pageSize >= 1
    ensures page == 1 ==> o == 0
    ensures o + pageSize == (page * pageSize)
  {
    (page - 1) * pageSize
  }

  /** Within int64 range the offset Go computes is the intended one. */
  lemma GoOffsetAgreesWithOffset(page: int, pageSize: int)
    requires page >= 1 && pageSize >= 1
    requires page * pageSize < TwoTo63
    ensures GoOffset(page, pageSize) == Offset(page, pageSize)
  {
  }

  function Min(a: int, b: int): int
  {
    if a <= b then a else b
  }

  /** The rows `LIMIT limit OFFSET offset` keeps. */
  function Window<T>(rows: seq<T>, offset: nat, limit: nat): (w: seq<T>)
    ensures |w| == if offset >= |rows| then 0 else Min(limit, |rows| - offset)
    ensures forall j :: 0 <= j < |w| ==> w[j] == rows[offset + j]
  {
    if offset >= |rows| then [] else rows[offset .. offset + Min(limit, |rows| - offset)]
  }

  /** The rows of one page of a result. */
  function PageOf<T>(rows: seq<T>, page: int, pageSize: int): seq<T>
    requires page >= 1 && pageSize >= 1
  {
    Window(rows, Offset(page, pageSize), pageSize)
  }

  /** Page 1 starts at the first row. */
  lemma FirstPageStartsAtZero<T>(rows: seq<T>, pageSize: int)
    requires pageSize >= 1
    ensures PageOf(rows, 1, pageSize) == rows[..Min(pageSize, |rows|)]
  {
  }

  /** Consecutive pages are adjacent, disjoint windows: page p+1 starts
      where page p's window ends, and together they are the window of twice
      the size at page p's offset. */
  lemma ConsecutivePagesAdjacent<T>(rows: seq<T>, page: int, pageSize: int)
    requires page >= 1 && pageSize >= 1
    ensures Offset(page + 1, pageSize) == Offset(page, pageSize) + pageSize
    ensures PageOf(rows, page, pageSize) + PageOf(rows, page + 1, pageSize)
            == Window(rows, Offset(page, pageSize), 2 * pageSize)
  {
    var a, b := PageOf(rows, page, pageSize), PageOf(rows, page + 1, pageSize);
    var w := Window(rows, Offset(page, pageSize), 2 * pageSize);
    assert |a + b| == |w|;
    forall j | 0 <= j < |w| ensures (a + b)[j] == w[j] {
      if j >= |a| {
        assert b[j - |a|] == rows[Offset(page + 1, pageSize) + j - |a|];
      }
    }
  }

  /** Pages 1..n concatenated. */
  function Pages<T>(rows: seq<T>, pageSize: int, n: nat): seq<T>
    requires pageSize >= 1
  {
    if n == 0 then [] else Pages(rows, pageSize, n - 1) + PageOf(rows, n, pageSize)
  }

  /** Reading pages 1..n in turn yields exactly the first n * pageSize rows:
      nothing is skipped and nothing repeated. */
  lemma {:induction false} PagesArePrefix<T>(rows: seq<T>, pageSize: int, n: nat)
    requires pageSize >= 1
    ensures Pages(rows, pageSize, n) == rows[..Min(n * pageSize, |rows|)]
  {
    if n > 0 {
      PagesArePrefix(rows, pageSize, n - 1);
      var lo := Min((n - 1) * pageSize, |rows|);
      var hi := Min(n * pageSize, |rows|);
      assert n * pageSize == (n - 1) * pageSize + pageSize;
      assert Offset(n, pageSize) == (n - 1) * pageSize;
      assert PageOf(rows, n, pageSize) == rows[lo..hi];
      assert rows[..lo] + rows[lo..hi] == rows[..hi];
    }
  }
}
