/** What the two report queries of internal/app/transaction/repository.go
    compute, stated over a sequence of joined rows rather than a database:
    the per (company, product) summary with its first/last transaction ids,
    and the ranked customer-activity rows with their row numbers. */
module TxReports {
  import opened Wrappers
  import opened TxModel
  import opened TxRepository

  /** One transaction joined with its customer's company and its product. */
  datatype JoinedRow = JoinedRow(
    companyId: int,
    productId: int,
    txId: int,
    datetime: int,
    amount: real,
    taxAmount: real)

  /** The (transaction_datetime, id) order of the id subqueries. */
  predicate KeyLe(a: JoinedRow, b: JoinedRow)
  {
    a.datetime < b.datetime || (a.datetime == b.datetime && a.txId <= b.txId)
  }

  predicate UniqueIds(rows: seq<JoinedRow>)
  {
    forall i, j :: 0 <= i < j < |rows| ==> rows[i].txId != rows[j].txId
  }

  /** `ORDER BY datetime DESC, id DESC LIMIT 1`: the greatest row. */
  function LastOf(rows: seq<JoinedRow>): (r: JoinedRow)
    requires |rows| > 0
    ensures r in rows
    ensures forall x :: x in rows ==> KeyLe(x, r)
  {
    if |rows| == 1 then rows[0]
    else
      var m := LastOf(rows[1..]);
      assert forall x :: x in rows ==> x == rows[0] || x in rows[1..];
      if KeyLe(m, rows[0]) then rows[0] else m
  }

  /** `ORDER BY datetime ASC, id ASC LIMIT 1`: the least row. */
  function FirstOf(rows: seq<JoinedRow>): (r: JoinedRow)
    requires |rows| > 0
    ensures r in rows
    ensures forall x :: x in rows ==> KeyLe(r, x)
  {
    if |rows| == 1 then rows[0]
    else
      var m := FirstOf(rows[1..]);
      assert forall x :: x in rows ==> x == rows[0] || x in rows[1..];
      if KeyLe(rows[0], m) then rows[0] else m
  }

  /** With unique transaction ids the tie-break on id makes the order
      total, so the last row is the only row that is greatest. */
  lemma {:induction false} LastOfIsUnique(rows: seq<JoinedRow>, y: JoinedRow)
    requires UniqueIds(rows)
    requires y in rows
    requires forall x :: x in rows ==> KeyLe(x, y)
    ensures LastOf(rows) == y
  {
    var m := LastOf(rows);
    assert KeyLe(m, y) && KeyLe(y, m);
    var i :| 0 <= i < |rows| && rows[i] == m;
    var j :| 0 <= j < |rows| && rows[j] == y;
    assert m.txId == y.txId;
    if i != j {
      assert i < j ==> rows[i].txId != rows[j].txId;
      assert j < i ==> rows[j].txId != rows[i].txId;
    }
  }

  /** The rows of one (company, product) group. */
  function GroupOf(rows: seq<JoinedRow>, companyId: int, productId: int): (g: seq<JoinedRow>)
    ensures forall x :: x in g <==> x in rows && x.companyId == companyId && x.productId == productId
  {
    if |rows| == 0 then []
    else
      var rest := GroupOf(rows[1..], companyId, productId);
      assert forall x :: x in rows <==> x == rows[0] || x in rows[1..];
      if rows[0].companyId == companyId && rows[0].productId == productId
      then [rows[0]] + rest
      else rest
  }

  /** The group keeps every row of its company and product as often as the
      table holds it, and no other row. */
  lemma {:induction false} GroupOfCounts(rows: seq<JoinedRow>, companyId: int, productId: int)
    ensures forall x :: multiset(GroupOf(rows, companyId, productId))[x] ==
              if x.companyId == companyId && x.productId == productId then multiset(rows)[x] else 0
  {
    if |rows| > 0 {
      GroupOfCounts(rows[1..], companyId, productId);
      assert rows == [rows[0]] + rows[1..];
      assert multiset(rows) == multiset([rows[0]]) + multiset(rows[1..]);
    }
  }

  /** The WHERE clause of the filtered summary applied to one row. */
  predicate Selected(f: SummaryFilter, r: JoinedRow)
  {
    && (f.companyId.Some? ==> r.companyId == f.companyId.value)
    && (f.productId.Some? ==> r.productId == f.productId.value)
    && (f.startDate.Some? ==> r.datetime >= f.startDate.value)
    && (f.endDate.Some? ==> r.datetime <= f.endDate.value)
    && (f.minAmount.Some? ==> r.amount >= f.minAmount.value)
    && (f.maxAmount.Some? ==> r.amount <= f.maxAmount.value)
  }

  function Where(rows: seq<JoinedRow>, f: SummaryFilter): (w: seq<JoinedRow>)
    ensures forall x :: x in w <==> x in rows && Selected(f, x)
    ensures |w| <= |rows|
  {
    if |rows| == 0 then []
    else
      var rest := Where(rows[1..], f);
      assert forall x :: x in rows <==> x == rows[0] || x in rows[1..];
      if Selected(f, rows[0]) then [rows[0]] + rest else rest
  }

  /** The WHERE clause keeps every selected row as often as the table holds
      it, and no other row. */
  lemma {:induction false} WhereCounts(rows: seq<JoinedRow>, f: SummaryFilter)
    ensures forall x :: multiset(Where(rows, f))[x] == if Selected(f, x) then multiset(rows)[x] else 0
  {
    if |rows| > 0 {
      WhereCounts(rows[1..], f);
      assert rows == [rows[0]] + rows[1..];
      assert multiset(rows) == multiset([rows[0]]) + multiset(rows[1..]);
    }
  }

  /** `GetTransactionSummary` is the filtered query with every filter absent:
      that filter selects every row. */
  lemma {:induction false} UnfilteredSelectsAll(rows: seq<JoinedRow>, page: int, pageSize: int)
    ensures Where(rows, SummaryFilter(None, None, None, None, None, None, page, pageSize)) == rows
  {
    if |rows| > 0 {
      UnfilteredSelectsAll(rows[1..], page, pageSize);
    }
  }

  function SumAmount(rows: seq<JoinedRow>): real
  {
    if |rows| == 0 then 0.0 else rows[0].amount + SumAmount(rows[1..])
  }

  function SumTax(rows: seq<JoinedRow>): real
  {
    if |rows| == 0 then 0.0 else rows[0].taxAmount + SumTax(rows[1..])
  }

  /** `SUM` is additive over a split of the rows. */
  lemma {:induction false} SumAppend(a: seq<JoinedRow>, b: seq<JoinedRow>)
    ensures SumAmount(a + b) == SumAmount(a) + SumAmount(b)
    ensures SumTax(a + b) == SumTax(a) + SumTax(b)
  {
    if |a| == 0 {
      assert a + b == b;
    } else {
      assert (a + b)[1..] == a[1..] + b;
      SumAppend(a[1..], b);
    }
  }

  /** `SUM` sees a multiset: rows in any order give the same totals. */
  lemma {:induction false} SumPermutation(a: seq<JoinedRow>, b: seq<JoinedRow>)
    requires multiset(a) == multiset(b)
    ensures SumAmount(a) == SumAmount(b)
    ensures SumTax(a) == SumTax(b)
    decreases |a|
  {
    if |a| > 0 {
      assert a[0] in multiset(b);
      var j :| 0 <= j < |b| && b[j] == a[0];
      RemoveOne(a, b, j);
      SumPermutation(a[1..], b[..j] + b[j + 1..]);
      SumRemove(b, j);
    }
  }

  /** Taking the same row out of two equal multisets leaves equal multisets. */
  lemma RemoveOne(a: seq<JoinedRow>, b: seq<JoinedRow>, j: nat)
    requires multiset(a) == multiset(b) && |a| > 0 && j < |b| && b[j] == a[0]
    ensures multiset(a[1..]) == multiset(b[..j] + b[j + 1..])
  {
    var rest := b[..j] + b[j + 1..];
    assert b == b[..j] + [b[j]] + b[j + 1..];
    assert a == [a[0]] + a[1..];
    forall x ensures multiset(a[1..])[x] == multiset(rest)[x] {
      assert multiset(a)[x] == multiset([a[0]])[x] + multiset(a[1..])[x];
      assert multiset(b)[x] == multiset(b[..j])[x] + multiset([b[j]])[x] + multiset(b[j + 1..])[x];
      assert multiset(rest)[x] == multiset(b[..j])[x] + multiset(b[j + 1..])[x];
    }
  }

  /** The sums over the rows are row j's share plus the sums over the others. */
  lemma SumRemove(b: seq<JoinedRow>, j: nat)
    requires j < |b|
    ensures SumAmount(b) == b[j].amount + SumAmount(b[..j] + b[j + 1..])
    ensures SumTax(b) == b[j].taxAmount + SumTax(b[..j] + b[j + 1..])
  {
    assert b == b[..j] + b[j..];
    assert b[j..][1..] == b[j + 1..];
    SumAppend(b[..j], b[j..]);
    SumAppend(b[..j], b[j + 1..]);
  }

  /** `MAX(t.transaction_datetime)`. */
  function MaxTime(rows: seq<JoinedRow>): (m: int)
    requires |rows| > 0
    ensures exists x :: x in rows && x.datetime == m
    ensures forall x :: x in rows ==> x.datetime <= m
  {
    if |rows| == 1 then rows[0].datetime
    else
      var rest := MaxTime(rows[1..]);
      assert forall x :: x in rows ==> x == rows[0] || x in rows[1..];
      if rows[0].datetime >= rest then rows[0].datetime else rest
  }

  /** `MIN(t.transaction_datetime)`. */
  function MinTime(rows: seq<JoinedRow>): (m: int)
    requires |rows| > 0
    ensures exists x :: x in rows && x.datetime == m
    ensures forall x :: x in rows ==> m <= x.datetime
  {
    if |rows| == 1 then rows[0].datetime
    else
      var rest := MinTime(rows[1..]);
      assert forall x :: x in rows ==> x == rows[0] || x in rows[1..];
      if rows[0].datetime <= rest then rows[0].datetime else rest
  }

  /** One row of the summary report (company/product names and the
      product's fee columns are carried through from the joins and are
      left out). */
  datatype SummaryRow = SummaryRow(
    companyId: int,
    productId: int,
    amount: real,
    count: nat,
    taxValue: real,
    lastTrxOn: int,
    idLastTrx: int,
    firstTrxOn: int,
    idFirstTrx: int)

  /** The summary row of group (c, p) under filter `f`: the aggregates range
      over the filtered rows of the group, while the two id subqueries only
      restrict company and product and so range over the whole group. */
  function SummarizeGroup(rows: seq<JoinedRow>, f: SummaryFilter, c: int, p: int): (s: SummaryRow)
    requires |GroupOf(Where(rows, f), c, p)| > 0
    ensures s.count == |GroupOf(Where(rows, f), c, p)|
    ensures s.amount == SumAmount(GroupOf(Where(rows, f), c, p))
    ensures s.taxValue == SumTax(GroupOf(Where(rows, f), c, p))
    ensures s.lastTrxOn == MaxTime(GroupOf(Where(rows, f), c, p))
    ensures s.firstTrxOn == MinTime(GroupOf(Where(rows, f), c, p))
    ensures forall x :: x in GroupOf(Where(rows, f), c, p) ==> s.firstTrxOn <= x.datetime <= s.lastTrxOn
    ensures |GroupOf(rows, c, p)| > 0
    ensures s.idLastTrx == LastOf(GroupOf(rows, c, p)).txId
    ensures s.idFirstTrx == FirstOf(GroupOf(rows, c, p)).txId
    ensures forall x :: x in GroupOf(rows, c, p) ==> KeyLe(x, LastOf(GroupOf(rows, c, p)))
  {
    var selected := GroupOf(Where(rows, f), c, p);
    var whole := GroupOf(rows, c, p);
    assert selected[0] in whole;
    SummaryRow(c, p, SumAmount(selected), |selected|, SumTax(selected),
               MaxTime(selected), LastOf(whole).txId, MinTime(selected), FirstOf(whole).txId)
  }

  /** The aggregate columns depend only on which rows the table holds, not
      on the order the database scans them in. */
  lemma {:induction false} SummaryOrderIndependent(rows: seq<JoinedRow>, other: seq<JoinedRow>, f: SummaryFilter, c: int, p: int)
    requires multiset(rows) == multiset(other)
    requires |GroupOf(Where(rows, f), c, p)| > 0
    ensures |GroupOf(Where(other, f), c, p)| > 0
    ensures SummarizeGroup(rows, f, c, p).amount == SummarizeGroup(other, f, c, p).amount
    ensures SummarizeGroup(rows, f, c, p).count == SummarizeGroup(other, f, c, p).count
    ensures SummarizeGroup(rows, f, c, p).taxValue == SummarizeGroup(other, f, c, p).taxValue
    ensures SummarizeGroup(rows, f, c, p).lastTrxOn == SummarizeGroup(other, f, c, p).lastTrxOn
    ensures SummarizeGroup(rows, f, c, p).firstTrxOn == SummarizeGroup(other, f, c, p).firstTrxOn
  {
    var g, h := GroupOf(Where(rows, f), c, p), GroupOf(Where(other, f), c, p);
    SelectionOrderIndependent(rows, other, f, c, p);
    assert |g| == |multiset(g)| == |multiset(h)| == |h|;
    SumPermutation(g, h);
    ExtremesOfSameRows(g, h);
  }

  /** Equal tables give equal selections, counted with multiplicity. */
  lemma {:induction false} SelectionOrderIndependent(rows: seq<JoinedRow>, other: seq<JoinedRow>, f: SummaryFilter, c: int, p: int)
    requires multiset(rows) == multiset(other)
    ensures multiset(GroupOf(Where(rows, f), c, p)) == multiset(GroupOf(Where(other, f), c, p))
  {
    var w, v := Where(rows, f), Where(other, f);
    WhereCounts(rows, f);
    WhereCounts(other, f);
    GroupOfCounts(w, c, p);
    GroupOfCounts(v, c, p);
    forall x ensures multiset(w)[x] == multiset(v)[x] {
    }
    assert multiset(w) == multiset(v);
    var g, h := GroupOf(w, c, p), GroupOf(v, c, p);
    forall x ensures multiset(g)[x] == multiset(h)[x] {
    }
  }

  /** `MAX` and `MIN` see only which rows are present. */
  lemma {:induction false} ExtremesOfSameRows(g: seq<JoinedRow>, h: seq<JoinedRow>)
    requires |g| > 0 && multiset(g) == multiset(h)
    ensures |h| > 0
    ensures MaxTime(g) == MaxTime(h) && MinTime(g) == MinTime(h)
  {
    assert g[0] in multiset(h);
    assert forall x :: x in g <==> x in multiset(g);
    assert forall x :: x in h <==> x in multiset(h);
    var hi, hi2 := MaxTime(g), MaxTime(h);
    var lo, lo2 := MinTime(g), MinTime(h);
    assert hi <= hi2 && hi2 <= hi;
    assert lo <= lo2 && lo2 <= lo;
  }

  /** Because the id subqueries ignore the date filter, `id_last_trx` can
      name a transaction later than `last_trx_on`, outside the report. */
  lemma IdLastIgnoresDateFilter()
    ensures
      var rows := [JoinedRow(1, 7, 10, 100, 5.0, 0.0), JoinedRow(1, 7, 11, 200, 5.0, 0.0)];
      var f := SummaryFilter(None, None, None, Some(150), None, None, 1, 10);
      && |GroupOf(Where(rows, f), 1, 7)| > 0
      && SummarizeGroup(rows, f, 1, 7).lastTrxOn == 100
      && SummarizeGroup(rows, f, 1, 7).idLastTrx == 11
  {
    var rows := [JoinedRow(1, 7, 10, 100, 5.0, 0.0), JoinedRow(1, 7, 11, 200, 5.0, 0.0)];
    var f := SummaryFilter(None, None, None, Some(150), None, None, 1, 10);
    assert Where(rows, f) == [rows[0]];
    assert GroupOf([rows[0]], 1, 7) == [rows[0]];
    assert GroupOf(rows, 1, 7) == rows;
    assert LastOf(rows) == rows[1];
  }

  // ---------------------------------------------------------------------
  // Customer activity

  /** A row of the `ranked` CTE. */
  datatype ActivityRow = ActivityRow(companyId: int, customerId: int, countTrx: int)

  /** `ORDER BY company_id, count_trx DESC, customer_id`. */
  predicate RanksBefore(a: ActivityRow, b: ActivityRow)
  {
    || a.companyId < b.companyId
    || (a.companyId == b.companyId && a.countTrx > b.countTrx)
    || (a.companyId == b.companyId && a.countTrx == b.countTrx && a.customerId < b.customerId)
  }

  predicate Ranked(rows: seq<ActivityRow>)
  {
    forall i, j :: 0 <= i < j < |rows| ==> RanksBefore(rows[i], rows[j])
  }

  /** `GROUP BY c.id, ..., cu.id, ...` leaves one row per (company, customer). */
  predicate DistinctKeys(rows: seq<ActivityRow>)
  {
    forall i, j :: 0 <= i < j < |rows| ==>
      rows[i].companyId != rows[j].companyId || rows[i].customerId != rows[j].customerId
  }

  lemma RanksBeforeTransitive(a: ActivityRow, b: ActivityRow, c: ActivityRow)
    requires RanksBefore(a, b) && RanksBefore(b, c)
    ensures RanksBefore(a, c)
  {
  }

  /** The positions of the rows that the window ordering puts before row i. */
  function RowsBefore(rows: seq<ActivityRow>, i: nat): set<nat>
    requires i < |rows|
  {
    set k: nat | k < |rows| && RanksBefore(rows[k], rows[i])
  }

  /** The positions 0 .. n-1. */
  function Positions(n: nat): (p: set<nat>)
    ensures forall k: nat :: k in p <==> k < n
    ensures |p| == n
  {
    if n == 0 then {}
    else
      var before := Positions(n - 1);
      assert n - 1 !in before;
      before + {n - 1}
  }

  lemma {:induction false} SubsetSize(a: set<nat>, b: set<nat>)
    requires a <= b
    ensures |a| <= |b|
    decreases a
  {
    if a != {} {
      var x :| x in a;
      SubsetSize(a - {x}, b - {x});
    }
  }

  datatype NumberedRow = NumberedRow(rowNumber: int, row: ActivityRow)

  /** `ROW_NUMBER() OVER (ORDER BY company_id, count_trx DESC, customer_id)`
      of row i: one more than the count of rows the window ordering puts
      before it, wherever the row stands in the input. */
  function RowNumber(rows: seq<ActivityRow>, i: nat): int
    requires i < |rows|
  {
    1 + |RowsBefore(rows, i)|
  }

  /** The rows in the order they arrive, each with its row number. */
  function NumberRows(rows: seq<ActivityRow>): (n: seq<NumberedRow>)
    ensures |n| == |rows|
    ensures forall i :: 0 <= i < |n| ==> n[i].row == rows[i]
    ensures forall i :: 0 <= i < |n| ==> 1 <= n[i].rowNumber <= |n|
    ensures DistinctKeys(rows) ==> forall i, j :: 0 <= i < |n| && 0 <= j < |n| ==>
              (n[i].rowNumber < n[j].rowNumber <==> RanksBefore(n[i].row, n[j].row))
    ensures DistinctKeys(rows) ==> forall i, j :: 0 <= i < |n| && 0 <= j < |n| && i != j ==>
              n[i].rowNumber != n[j].rowNumber
  {
    RowNumbersRank(rows);
    seq(|rows|, i requires 0 <= i < |rows| => NumberedRow(RowNumber(rows, i), rows[i]))
  }

  /** Row numbers lie in 1..|rows|; with distinct keys they order the rows as
      the window does, so no two rows share a number. */
  lemma RowNumbersRank(rows: seq<ActivityRow>)
    ensures forall i :: 0 <= i < |rows| ==> 1 <= RowNumber(rows, i) <= |rows|
    ensures DistinctKeys(rows) ==> forall i, j :: 0 <= i < |rows| && 0 <= j < |rows| ==>
              (RowNumber(rows, i) < RowNumber(rows, j) <==> RanksBefore(rows[i], rows[j]))
    ensures DistinctKeys(rows) ==> forall i, j :: 0 <= i < |rows| && 0 <= j < |rows| && i != j ==>
              RowNumber(rows, i) != RowNumber(rows, j)
  {
    forall i | 0 <= i < |rows| ensures RowNumber(rows, i) <= |rows| {
      RowsBeforeBound(rows, i);
    }
    if DistinctKeys(rows) {
      forall i, j | 0 <= i < |rows| && 0 <= j < |rows|
        ensures RowNumber(rows, i) < RowNumber(rows, j) <==> RanksBefore(rows[i], rows[j])
      {
        RankOrder(rows, i, j);
      }
      forall i, j | 0 <= i < |rows| && 0 <= j < |rows| && i != j
        ensures RowNumber(rows, i) != RowNumber(rows, j)
      {
        RanksTotal(rows, i, j);
        RankOrder(rows, i, j);
        RankOrder(rows, j, i);
      }
    }
  }

  /** Row i is never before itself, so at most |rows| - 1 rows precede it. */
  lemma RowsBeforeBound(rows: seq<ActivityRow>, i: nat)
    requires i < |rows|
    ensures |RowsBefore(rows, i)| < |rows|
  {
    assert RowsBefore(rows, i) <= Positions(|rows|) - {i};
    SubsetSize(RowsBefore(rows, i), Positions(|rows|) - {i});
  }

  /** Two different rows with distinct keys are ordered one way or the other. */
  lemma RanksTotal(rows: seq<ActivityRow>, i: nat, j: nat)
    requires DistinctKeys(rows) && i < |rows| && j < |rows| && i != j
    ensures RanksBefore(rows[i], rows[j]) || RanksBefore(rows[j], rows[i])
  {
    if i > j {
      assert rows[j].companyId != rows[i].companyId || rows[j].customerId != rows[i].customerId;
    }
  }

  /** A row ranked before another has strictly fewer rows before it; with
      distinct keys the converse holds as well. */
  lemma RankOrder(rows: seq<ActivityRow>, i: nat, j: nat)
    requires i < |rows| && j < |rows|
    ensures RanksBefore(rows[i], rows[j]) ==> |RowsBefore(rows, i)| < |RowsBefore(rows, j)|
    ensures DistinctKeys(rows) ==>
              (|RowsBefore(rows, i)| < |RowsBefore(rows, j)| <==> RanksBefore(rows[i], rows[j]))
  {
    if RanksBefore(rows[i], rows[j]) {
      FewerBefore(rows, i, j);
    } else if DistinctKeys(rows) && i != j {
      RanksTotal(rows, i, j);
      FewerBefore(rows, j, i);
    }
  }

  lemma FewerBefore(rows: seq<ActivityRow>, i: nat, j: nat)
    requires i < |rows| && j < |rows| && RanksBefore(rows[i], rows[j])
    ensures |RowsBefore(rows, i)| < |RowsBefore(rows, j)|
  {
    var bi, bj := RowsBefore(rows, i), RowsBefore(rows, j);
    forall k | k in bi ensures k in bj {
      RanksBeforeTransitive(rows[k], rows[i], rows[j]);
    }
    assert i !in bi;
    assert bi + {i} <= bj;
    SubsetSize(bi + {i}, bj);
  }

  /** When the rows arrive already in the window order, each row's number
      is its position plus one. */
  lemma NumbersFollowPositionWhenRanked(rows: seq<ActivityRow>)
    requires Ranked(rows)
    ensures forall i :: 0 <= i < |rows| ==> NumberRows(rows)[i].rowNumber == i + 1
  {
    forall i | 0 <= i < |rows| ensures NumberRows(rows)[i].rowNumber == i + 1 {
      forall k: nat | k < |rows| ensures k in RowsBefore(rows, i) <==> k < i {
        if k > i {
          assert RanksBefore(rows[i], rows[k]);
        }
      }
      assert RowsBefore(rows, i) == Positions(i);
    }
  }

  /** Rows arriving out of window order keep their arrival order but are
      numbered by rank: company 2 comes second in the window, company 1 first. */
  lemma NumbersIgnoreArrivalOrder()
    ensures var n := NumberRows([ActivityRow(2, 5, 1), ActivityRow(1, 7, 1)]);
            n[0].rowNumber == 2 && n[1].rowNumber == 1
  {
    var rows := [ActivityRow(2, 5, 1), ActivityRow(1, 7, 1)];
    assert RowsBefore(rows, 0) == {1};
    assert RowsBefore(rows, 1) == {};
  }

  /** Row numbers are assigned before LIMIT/OFFSET, so the j-th row of any
      page carries the number it has in the unpaginated result. The outer
      query has no ORDER BY: only when the rows arrive in the window order
      is that number the row's overall position. */
  lemma RowNumbersStableAcrossPages(rows: seq<ActivityRow>, page: int, pageSize: int, j: int)
    requires page >= 1 && pageSize >= 1
    requires 0 <= j < |PageOf(NumberRows(rows), page, pageSize)|
    ensures PageOf(NumberRows(rows), page, pageSize)[j] == NumberRows(rows)[Offset(page, pageSize) + j]
    ensures Ranked(rows) ==> PageOf(NumberRows(rows), page, pageSize)[j].rowNumber == (page - 1) * pageSize + j + 1
  {
    if Ranked(rows) {
      NumbersFollowPositionWhenRanked(rows);
    }
  }
}
