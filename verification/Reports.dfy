/** The leakage report (backend/apps/reports/selectors.py) and stock conservation through to it. */
module Reports {
  import opened Prelude
  import opened Ledger
  import opened Accounting
  import opened Deduction
  import opened Recipes
  import opened Model
  import opened Services
  import opened System
  import opened Effects
  import opened Documents
  import opened SalesLifecycle
  import opened Invariant
  import opened Moves
  import opened Drift

  /** Movement types that count as theoretical and as actual consumption. */
  predicate Theoretical(kind: MovementType) { kind.SaleDeduction? }

  predicate Actual(kind: MovementType) { kind.SaleDeduction? || kind.Wastage? || kind.StocktakeAdj? }

  predicate Internal(kind: MovementType) {
    kind.IssueOut? || kind.IssueIn? || kind.TransferOut? || kind.TransferIn?
  }

  datatype Column = TheoreticalColumn | ActualColumn | ReceiptColumn | InternalColumn

  predicate InColumn(column: Column, kind: MovementType) {
    match column
    case TheoreticalColumn => Theoretical(kind)
    case ActualColumn => Actual(kind)
    case ReceiptColumn => kind.GrnReceipt?
    case InternalColumn => Internal(kind)
  }

  /** Sum of a product's rows, over all locations, whose type is in the column. */
  function ColumnSum(rows: seq<Movement>, column: Column, p: ProductId): int {
    if rows == [] then 0
    else
      var last := rows[|rows| - 1];
      ColumnSum(rows[..|rows| - 1], column, p) + if last.key.product == p && InColumn(column, last.kind) then last.qty else 0
  }

  /** One line of the report; consumption is reported as a positive quantity. */
  datatype LeakageRow = LeakageRow(product: ProductId, theoretical: int, actual: int, gap: int)

  function LeakageOf(rows: seq<Movement>, p: ProductId): LeakageRow {
    var theoretical, actual := -ColumnSum(rows, TheoreticalColumn, p), -ColumnSum(rows, ActualColumn, p);
    LeakageRow(p, theoretical, actual, actual - theoretical)
  }

  /** The products with a row in the column. */
  function ColumnProducts(rows: seq<Movement>, column: Column): set<ProductId> {
    set i | 0 <= i < |rows| && InColumn(column, rows[i].kind) :: rows[i].key.product
  }

  /** A ledger row with the day it was posted. */
  datatype DatedRow = DatedRow(movement: Movement, day: Date)

  /** The rows of a window of days, both ends included. */
  function InWindow(dated: seq<DatedRow>, first: Date, last: Date): seq<Movement> {
    if dated == [] then []
    else
      var row := dated[|dated| - 1];
      InWindow(dated[..|dated| - 1], first, last) + if first <= row.day <= last then [row.movement] else []
  }

  /** `_sum_movements`: one negated sum per product that has a row in the column and the window. */
  method SumMovements(dated: seq<DatedRow>, column: Column, first: Date, last: Date) returns (sums: map<ProductId, int>)
    ensures Aggregated(InWindow(dated, first, last), column, sums)
  {
    sums := map[];
    for n := 0 to |dated|
      invariant Aggregated(InWindow(dated[..n], first, last), column, sums)
    {
      var row := dated[n].movement;
      OneMoreDated(dated, first, last, n);
      if InColumn(column, row.kind) && first <= dated[n].day <= last {
        Aggregate(InWindow(dated[..n], first, last), column, row, sums);
        var soFar := if row.key.product in sums then sums[row.key.product] else 0;
        sums := sums[row.key.product := soFar - row.qty];
      } else if first <= dated[n].day <= last {
        AggregateStep(InWindow(dated[..n], first, last), column, row);
      }
    }
    assert dated[..|dated|] == dated;
  }

  lemma OneMoreDated(dated: seq<DatedRow>, first: Date, last: Date, n: nat)
    requires n < |dated|
    ensures InWindow(dated[..n + 1], first, last) ==
      if first <= dated[n].day <= last then InWindow(dated[..n], first, last) + [dated[n].movement]
      else InWindow(dated[..n], first, last)
  {
    assert dated[..n + 1][..n] == dated[..n];
  }

  lemma Aggregate(rows: seq<Movement>, column: Column, row: Movement, sums: map<ProductId, int>)
    requires Aggregated(rows, column, sums) && InColumn(column, row.kind)
    ensures var soFar := if row.key.product in sums then sums[row.key.product] else 0;
      Aggregated(rows + [row], column, sums[row.key.product := soFar - row.qty])
  {
    AggregateStep(rows, column, row);
  }

  lemma AggregateStep(rows: seq<Movement>, column: Column, row: Movement)
    ensures ColumnProducts(rows + [row], column) ==
      ColumnProducts(rows, column) + if InColumn(column, row.kind) then {row.key.product} else {}
    ensures forall p ::
      ColumnSum(rows + [row], column, p) ==
        ColumnSum(rows, column, p) + if row.key.product == p && InColumn(column, row.kind) then row.qty else 0
  {
    var longer := rows + [row];
    assert longer[..|rows|] == rows && longer[|rows|] == row;
    assert forall i :: 0 <= i < |rows| ==> longer[i] == rows[i];
  }

  function ReportProducts(report: seq<LeakageRow>): set<ProductId> {
    set i | 0 <= i < |report| :: report[i].product
  }

  /** One correct row for each of the products. */
  ghost predicate Joined(rows: seq<Movement>, report: seq<LeakageRow>, products: set<ProductId>) {
    && ReportProducts(report) == products
    && |report| == |products|
    && forall i :: 0 <= i < |report| ==> report[i] == LeakageOf(rows, report[i].product)
  }

  lemma JoinedAppend(rows: seq<Movement>, report: seq<LeakageRow>, products: set<ProductId>, p: ProductId)
    requires Joined(rows, report, products) && p !in products
    ensures Joined(rows, report + [LeakageOf(rows, p)], products + {p})
  {
    var longer := report + [LeakageOf(rows, p)];
    assert forall i :: 0 <= i < |report| ==> longer[i] == report[i];
    assert longer[|report|].product == p;
  }

  /** Both aggregates are right about a product. */
  predicate Ready(rows: seq<Movement>, theoretical: map<ProductId, int>, actual: map<ProductId, int>, p: ProductId) {
    && p in actual
    && actual[p] == -ColumnSum(rows, ActualColumn, p)
    && (if p in theoretical then theoretical[p] else 0) == -ColumnSum(rows, TheoreticalColumn, p)
  }

  /** One joined row: a product missing from one aggregate falls back as the report does. */
  method JoinRow(ghost rows: seq<Movement>, theoretical: map<ProductId, int>, actual: map<ProductId, int>, p: ProductId)
    returns (row: LeakageRow)
    requires Ready(rows, theoretical, actual, p)
    ensures row == LeakageOf(rows, p)
  {
    var t := if p in theoretical then theoretical[p] else 0;
    var a := if p in actual then actual[p] else t;
    row := LeakageRow(p, t, a, a - t);
  }

  /** The aggregates as `_sum_movements` returns them. */
  ghost predicate Aggregated(rows: seq<Movement>, column: Column, sums: map<ProductId, int>) {
    && sums.Keys == ColumnProducts(rows, column)
    && forall p :: (if p in sums then sums[p] else 0) == -ColumnSum(rows, column, p)
  }

  method JoinAll(ghost rows: seq<Movement>, theoretical: map<ProductId, int>, actual: map<ProductId, int>, products: set<ProductId>)
    returns (report: seq<LeakageRow>)
    requires forall p :: p in products ==> Ready(rows, theoretical, actual, p)
    ensures Joined(rows, report, products)
  {
    var todo := products;
    report := [];
    while todo != {}
      invariant todo <= products
      invariant Joined(rows, report, products - todo)
      decreases |todo|
    {
      var p :| p in todo;
      assert Ready(rows, theoretical, actual, p);
      var row := JoinRow(rows, theoretical, actual, p);
      JoinedAppend(rows, report, products - todo, p);
      report := report + [row];
      assert products - todo + {p} == products - (todo - {p});
      todo := todo - {p};
    }
    assert products - todo == products;
  }

  /** Largest gap first. */
  predicate Descending(report: seq<LeakageRow>) {
    forall i, j :: 0 <= i < j < |report| ==> report[i].gap >= report[j].gap
  }

  function InsertByGap(row: LeakageRow, sorted: seq<LeakageRow>): seq<LeakageRow> {
    if sorted == [] || row.gap >= sorted[0].gap then [row] + sorted
    else [sorted[0]] + InsertByGap(row, sorted[1..])
  }

  lemma InsertedBelow(top: LeakageRow, row: LeakageRow, below: seq<LeakageRow>, rest: seq<LeakageRow>)
    requires multiset(rest) == multiset(below) + multiset{row}
    requires row.gap < top.gap && forall i :: 0 <= i < |below| ==> below[i].gap <= top.gap
    ensures forall i :: 0 <= i < |rest| ==> rest[i].gap <= top.gap
  {
    forall i | 0 <= i < |rest|
      ensures rest[i].gap <= top.gap
    {
      assert rest[i] in multiset(rest);
      assert rest[i] == row || rest[i] in below;
    }
  }

  lemma {:induction false} Inserted(row: LeakageRow, sorted: seq<LeakageRow>)
    requires Descending(sorted)
    ensures Descending(InsertByGap(row, sorted))
    ensures multiset(InsertByGap(row, sorted)) == multiset(sorted) + multiset{row}
  {
    if sorted != [] && row.gap < sorted[0].gap {
      assert sorted == [sorted[0]] + sorted[1..];
      Inserted(row, sorted[1..]);
      InsertedBelow(sorted[0], row, sorted[1..], InsertByGap(row, sorted[1..]));
    }
  }

  /** The rows sorted by gap, as the report's final `sort` leaves them. */
  function SortedByGap(report: seq<LeakageRow>): seq<LeakageRow> {
    if report == [] then []
    else InsertByGap(report[|report| - 1], SortedByGap(report[..|report| - 1]))
  }

  lemma {:induction false} SortedIsPermutation(report: seq<LeakageRow>)
    ensures Descending(SortedByGap(report)) && multiset(SortedByGap(report)) == multiset(report)
  {
    if report != [] {
      var n := |report| - 1;
      assert report == report[..n] + [report[n]];
      SortedIsPermutation(report[..n]);
      Inserted(report[n], SortedByGap(report[..n]));
    }
  }

  lemma SortKeepsRows(rows: seq<Movement>, report: seq<LeakageRow>, sorted: seq<LeakageRow>, products: set<ProductId>)
    requires Joined(rows, report, products) && multiset(sorted) == multiset(report)
    ensures Joined(rows, sorted, products)
  {
    assert |sorted| == |multiset(sorted)| == |report|;
    forall row: LeakageRow
      ensures row in sorted <==> row in report
    {
      assert row in sorted <==> row in multiset(sorted);
      assert row in report <==> row in multiset(report);
    }
    forall p
      ensures p in ReportProducts(sorted) <==> p in ReportProducts(report)
    {
      if p in ReportProducts(sorted) {
        var i :| 0 <= i < |sorted| && sorted[i].product == p;
        assert sorted[i] in report;
      }
      if p in ReportProducts(report) {
        var i :| 0 <= i < |report| && report[i].product == p;
        assert report[i] in sorted;
      }
    }
    forall i | 0 <= i < |sorted|
      ensures sorted[i] == LeakageOf(rows, sorted[i].product)
    {
      assert sorted[i] in report;
    }
  }

  /** The report over a window of days (by default the last thirty): exactly one row for each
      product with a sale, wastage or stock-take row in it, largest gap first. */
  method Leakage(dated: seq<DatedRow>, dateFrom: Option<Date>, dateTo: Option<Date>, today: Date)
    returns (report: seq<LeakageRow>)
    ensures var rows := InWindow(dated, if dateFrom.Some? then dateFrom.value else today - 30,
                                 if dateTo.Some? then dateTo.value else today);
      && (forall i :: 0 <= i < |report| ==> report[i] == LeakageOf(rows, report[i].product))
      && ReportProducts(report) == ColumnProducts(rows, ActualColumn)
      && |report| == |ColumnProducts(rows, ActualColumn)|
    ensures Descending(report)
  {
    var first := if dateFrom.Some? then dateFrom.value else today - 30;
    var last := if dateTo.Some? then dateTo.value else today;
    ghost var rows := InWindow(dated, first, last);
    var theoretical := SumMovements(dated, TheoreticalColumn, first, last);
    var actual := SumMovements(dated, ActualColumn, first, last);
    TheoreticalIsActual(rows);
    assert theoretical.Keys + actual.Keys == actual.Keys;
    var joined := JoinAll(rows, theoretical, actual, theoretical.Keys + actual.Keys);
    report := SortedByGap(joined);
    SortedIsPermutation(joined);
    SortKeepsRows(rows, joined, report, actual.Keys);
  }

  lemma TheoreticalIsActual(rows: seq<Movement>)
    ensures ColumnProducts(rows, TheoreticalColumn) <= ColumnProducts(rows, ActualColumn)
  {
  }

  // ----- conservation -----

  lemma {:induction false} ColumnSumConcat(a: seq<Movement>, b: seq<Movement>, column: Column, p: ProductId)
    ensures ColumnSum(a + b, column, p) == ColumnSum(a, column, p) + ColumnSum(b, column, p)
  {
    if b == [] {
      assert a + b == a;
    } else {
      var n := |b| - 1;
      assert (a + b)[..|a + b| - 1] == a + b[..n];
      ColumnSumConcat(a, b[..n], column, p);
    }
  }

  /** Ledger sum of a product over the three locations. */
  function ProductSum(ledger: seq<Movement>, p: ProductId): int {
    LedgerSum(ledger, Key(p, Stores)) + LedgerSum(ledger, Key(p, Kitchen)) + LedgerSum(ledger, Key(p, Unit))
  }

  /** Every type a service posts is in exactly one of the three columns. */
  predicate Classified(rows: seq<Movement>) {
    forall i :: 0 <= i < |rows| ==> !rows[i].kind.ExtraUsage? && !rows[i].kind.OverrideAdj?
  }

  lemma {:induction false} ColumnsPartition(rows: seq<Movement>, p: ProductId)
    requires Classified(rows)
    ensures ProductSum(rows, p) ==
      ColumnSum(rows, ReceiptColumn, p) + ColumnSum(rows, ActualColumn, p) + ColumnSum(rows, InternalColumn, p)
  {
    if rows != [] {
      var n := |rows| - 1;
      assert forall i :: 0 <= i < n ==> rows[..n][i] == rows[i];
      ColumnsPartition(rows[..n], p);
      var k := rows[n].key;
      assert k.location == Stores || k.location == Kitchen || k.location == Unit;
    }
  }

  /** The rows of a document whose internal movements cancel. */
  predicate Conserving(rows: seq<Movement>, p: ProductId) {
    Classified(rows) && ColumnSum(rows, InternalColumn, p) == 0
  }

  lemma {:induction false} NoInternalRows(rows: seq<Movement>, p: ProductId)
    requires forall i :: 0 <= i < |rows| ==> !Internal(rows[i].kind)
    ensures ColumnSum(rows, InternalColumn, p) == 0
  {
    if rows != [] {
      assert forall i :: 0 <= i < |rows| - 1 ==> rows[..|rows| - 1][i] == rows[i];
      NoInternalRows(rows[..|rows| - 1], p);
    }
  }

  lemma {:induction false} PairRowsCancel(document: Document, m: Move, items: seq<ItemQty>, sides: Sides, p: ProductId)
    requires Internal(sides.outKind) && Internal(sides.inKind)
    ensures Conserving(Rows(Posting(document, PairLines(m.source, m.destination, items, sides))), p)
  {
    var lines := PairLines(m.source, m.destination, items, sides);
    var rows := Rows(Posting(document, lines));
    if items != [] {
      var n := |items| - 1;
      PairRowsCancel(document, m, items[..n], sides, p);
      var earlier := Rows(Posting(document, PairLines(m.source, m.destination, items[..n], sides)));
      var outRow := Row(document, MoveLine(items[n], m.source, -1, sides.outKind));
      var inRow := Row(document, MoveLine(items[n], m.destination, 1, sides.inKind));
      assert rows == earlier + [outRow, inRow];
      ColumnSumConcat(earlier, [outRow, inRow], InternalColumn, p);
      assert [outRow, inRow][..1] == [outRow] && [outRow][..0] == [];
      assert ColumnSum([outRow], InternalColumn, p) == if outRow.key.product == p then outRow.qty else 0;
    }
  }

  predicate External(kind: MovementType) { Actual(kind) || kind.GrnReceipt? }

  /** Issues and transfers cancel; every other posting is a receipt, sale, wastage or adjustment. */
  lemma BackedConserves(s: State, posting: Posting, p: ProductId)
    requires Backed(s, posting)
    ensures Conserving(Rows(posting), p)
  {
    var id := posting.document.id;
    match posting.document.kind
    case IssueDoc => PairRowsCancel(posting.document, s.issues[id], s.issues[id].lines, Sides(IssueOut, IssueIn), p);
    case TransferDoc => PairRowsCancel(posting.document, s.transfers[id], s.transfers[id].lines, Sides(TransferOut, TransferIn), p);
    case _ =>
      assert forall i :: 0 <= i < |posting.lines| ==> External(posting.lines[i].kind);
      NoInternalRows(Rows(posting), p);
  }

  lemma {:induction false} AllConserve(s: State, ps: seq<Posting>, p: ProductId)
    requires forall i :: 0 <= i < |ps| ==> Backed(s, ps[i])
    ensures Conserving(AllRows(ps), p)
  {
    if ps != [] {
      var n := |ps| - 1;
      assert forall i :: 0 <= i < n ==> ps[..n][i] == ps[i];
      AllConserve(s, ps[..n], p);
      BackedConserves(s, ps[n], p);
      ColumnSumConcat(AllRows(ps[..n]), Rows(ps[n]), InternalColumn, p);
    }
  }

  /** The drift of a product's cached balances from its ledger, over the three locations. */
  ghost function ProductGap(b: Books, p: ProductId): int {
    Gap(b, Key(p, Stores)) + Gap(b, Key(p, Kitchen)) + Gap(b, Key(p, Unit))
  }

  /** In every reachable state a product's stock over all locations is what was received less
      the all-time actual consumption of the leakage report: exactly in the ledger, and in the
      cache but for the half-thousandth gap. */
  lemma StockIsReceiptsLessLeakage(factors: Factors, ops: seq<Op>, p: ProductId)
    requires FactorsPositive(factors)
    ensures var b := After(factors, ops).books;
      && ProductSum(b.ledger, p) == ColumnSum(b.ledger, ReceiptColumn, p) - LeakageOf(b.ledger, p).actual
      && TotalOnHand(b.balances, p) ==
           ColumnSum(b.ledger, ReceiptColumn, p) - LeakageOf(b.ledger, p).actual + ProductGap(b, p)
  {
    var s := After(factors, ops);
    Reachable(factors, ops);
    var ps := Payloads(s.books.outbox);
    assert forall i :: 0 <= i < |ps| ==> ps[i] == s.books.outbox[i].posting;
    AllConserve(s, ps, p);
    ColumnsPartition(s.books.ledger, p);
    CacheIsLedgerPlusGap(s.books, Key(p, Stores));
    CacheIsLedgerPlusGap(s.books, Key(p, Kitchen));
    CacheIsLedgerPlusGap(s.books, Key(p, Unit));
  }

  /** In every reachable state, storing a key's exact quantities with any rounding to the nearest
      thousandth leaves the cache and the sum of the rows at most one thousandth apart for each
      quantity halfway between two thousandths; and PostgreSQL's rounding is the one that gives
      the balance and the ledger rows of this state. */
  lemma {:induction false} DriftIsBounded(factors: Factors, ops: seq<Op>, k: Key, round: int -> int)
    requires FactorsPositive(factors) && Nearest(round)
    ensures BoundedDrift(After(factors, ops).books, k, round)
  {
    Reachable(factors, ops);
    BooksDrift(After(factors, ops).books, k, round);
  }

  predicate BoundedDrift(b: Books, k: Key, round: int -> int) {
    var qs := Quantities(Journal(Payloads(b.outbox)), k);
    && Abs(Cached(round, qs) - Recorded(round, qs)) <= TieCount(qs)
    && OnHand(b.balances, k) == Cached(Round, qs)
    && LedgerSum(b.ledger, k) == Recorded(Round, qs)
    && Abs(OnHand(b.balances, k) - LedgerSum(b.ledger, k)) <= TieCount(qs)
  }

  lemma BooksDrift(b: Books, k: Key, round: int -> int)
    requires BooksInv(b) && Nearest(round)
    ensures BoundedDrift(b, k, round)
  {
    var ps := Payloads(b.outbox);
    var qs := Quantities(Journal(ps), k);
    CacheFolds(Journal(ps), k);
    LedgerRecords(ps, k);
    RoundingDrift(round, qs);
    CacheIsLedgerPlusGap(b, k);
  }

  // ----- exactly when the cache is the ledger sum -----

  /** Line `i` of the journal deducts an odd number of half-thousandths and leaves stock behind. */
  predicate HalfSaleLeavingStock(journal: seq<Line>, i: nat, k: Key)
    requires i < |journal|
  {
    journal[i].key == k && Tie(journal[i].qty) && Exact(Settle(map[], journal[..i]), journal[i]) > 0
  }

  /** Off-grid quantities are only ever deducted. */
  predicate OffGridIsDeducted(line: Line) { OnGrid(line.qty) || line.qty < 0 }

  lemma {:induction false} GapSign(journal: seq<Line>, k: Key)
    requires forall i :: 0 <= i < |journal| ==> OffGridIsDeducted(journal[i])
    ensures Carries(map[], journal, k) >= 0
    ensures Carries(map[], journal, k) == 0 <==> forall i :: 0 <= i < |journal| ==> !HalfSaleLeavingStock(journal, i, k)
  {
    if journal != [] {
      var n := |journal| - 1;
      var earlier := journal[..n];
      assert forall i :: 0 <= i < n ==> earlier[i] == journal[i] && earlier[..i] == journal[..i];
      GapSign(earlier, k);
      assert forall i :: 0 <= i < n ==> HalfSaleLeavingStock(earlier, i, k) == HalfSaleLeavingStock(journal, i, k);
      assert OffGridIsDeducted(journal[n]);
      var last := if journal[n].key == k then Carry(OnHand(Settle(map[], earlier), k), journal[n].qty) else 0;
      assert Carries(map[], journal, k) == Carries(map[], earlier, k) + last;
      assert last == if HalfSaleLeavingStock(journal, n, k) then 1 else 0;
      if forall i :: 0 <= i < n ==> !HalfSaleLeavingStock(earlier, i, k) {
        assert forall i :: 0 <= i < n ==> !HalfSaleLeavingStock(journal, i, k);
      } else {
        var i :| 0 <= i < n && HalfSaleLeavingStock(earlier, i, k);
        assert HalfSaleLeavingStock(journal, i, k);
      }
    }
  }

  lemma BackedDeducts(s: State, posting: Posting)
    requires Inv(s) && Backed(s, posting)
    ensures forall i :: 0 <= i < |posting.lines| ==> OffGridIsDeducted(posting.lines[i])
  {
    var id := posting.document.id;
    match posting.document.kind
    case IssueDoc =>
      var m := s.issues[id];
      PairNet(m, m.lines, Sides(IssueOut, IssueIn), Key(0, Stores));
    case TransferDoc =>
      var m := s.transfers[id];
      PairNet(m, m.lines, Sides(TransferOut, TransferIn), Key(0, Stores));
    case OrderDoc =>
      var items := s.sales[id].items;
      assert SaleExact(s, id);
      RecipesUsable(s.menu, s.factors, items);
      DeductionRefinesNeed(s.menu, s.factors, items);
    case _ =>
  }

  lemma {:induction false} JournalDeducts(s: State, ps: seq<Posting>)
    requires Inv(s) && forall i :: 0 <= i < |ps| ==> Backed(s, ps[i])
    ensures forall i :: 0 <= i < |Journal(ps)| ==> OffGridIsDeducted(Journal(ps)[i])
  {
    if ps != [] {
      var n := |ps| - 1;
      assert forall i :: 0 <= i < n ==> ps[..n][i] == ps[i];
      JournalDeducts(s, ps[..n]);
      BackedDeducts(s, ps[n]);
    }
  }

  /** In every reachable state the cached on-hand is at least the sum of the ledger rows, and
      equal to it exactly when no half-thousandth deduction for that key ever left stock behind. */
  lemma {:induction false} CacheIsLedgerIff(factors: Factors, ops: seq<Op>, k: Key)
    requires FactorsPositive(factors)
    ensures var b := After(factors, ops).books;
      var journal := Journal(Payloads(b.outbox));
      && OnHand(b.balances, k) >= LedgerSum(b.ledger, k)
      && (OnHand(b.balances, k) == LedgerSum(b.ledger, k) <==>
            forall i :: 0 <= i < |journal| ==> !HalfSaleLeavingStock(journal, i, k))
  {
    var s := After(factors, ops);
    Reachable(factors, ops);
    var ps := Payloads(s.books.outbox);
    assert forall i :: 0 <= i < |ps| ==> ps[i] == s.books.outbox[i].posting;
    JournalDeducts(s, ps);
    GapSign(Journal(ps), k);
    CacheIsLedgerPlusGap(s.books, k);
  }

  /** Some location has had a half-thousandth deduction of the product that left stock behind. */
  ghost predicate ProductDrifts(journal: seq<Line>, p: ProductId) {
    exists i, location :: 0 <= i < |journal| && HalfSaleLeavingStock(journal, i, Key(p, location))
  }

  /** The cached stock of a product is never below its receipts less the all-time actual quantity of
      the leakage report, and is exactly that unless, at some location, a half-thousandth
      deduction left stock behind. */
  lemma {:induction false} CachedStockIsReceiptsLessLeakageIff(factors: Factors, ops: seq<Op>, p: ProductId)
    requires FactorsPositive(factors)
    ensures var b := After(factors, ops).books;
      var expected := ColumnSum(b.ledger, ReceiptColumn, p) - LeakageOf(b.ledger, p).actual;
      && TotalOnHand(b.balances, p) >= expected
      && (TotalOnHand(b.balances, p) == expected <==> !ProductDrifts(Journal(Payloads(b.outbox)), p))
  {
    var b := After(factors, ops).books;
    StockIsReceiptsLessLeakage(factors, ops, p);
    CacheIsLedgerIff(factors, ops, Key(p, Stores));
    CacheIsLedgerIff(factors, ops, Key(p, Kitchen));
    CacheIsLedgerIff(factors, ops, Key(p, Unit));
    NoDriftAnywhere(Journal(Payloads(b.outbox)), p);
  }

  lemma NoDriftAnywhere(journal: seq<Line>, p: ProductId)
    ensures !ProductDrifts(journal, p) <==>
      && (forall i :: 0 <= i < |journal| ==> !HalfSaleLeavingStock(journal, i, Key(p, Stores)))
      && (forall i :: 0 <= i < |journal| ==> !HalfSaleLeavingStock(journal, i, Key(p, Kitchen)))
      && (forall i :: 0 <= i < |journal| ==> !HalfSaleLeavingStock(journal, i, Key(p, Unit)))
  {
    if i, location :| 0 <= i < |journal| && HalfSaleLeavingStock(journal, i, Key(p, location)) {
      assert location == Stores || location == Kitchen || location == Unit;
    }
  }
}
