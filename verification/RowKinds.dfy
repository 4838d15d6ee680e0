/** What each kind of document writes into the ledger, row by row, and the leakage report by document
    (backend/apps/inventory/services.py, backend/apps/procurement/services.py,
    backend/apps/wastage/services.py, backend/apps/pos_ingest/services.py). */
module RowKinds {
  import opened Prelude
  import opened Ledger
  import opened Accounting
  import opened Deduction
  import opened Model
  import opened Services
  import opened System
  import opened Effects
  import opened Documents
  import opened SalesLifecycle
  import opened Invariant
  import opened Moves
  import opened Purchasing
  import opened WastageLifecycle
  import opened Reports

  /** The type a row must have for its document: issues and transfers take out what is negative and
      bring in what is positive, and only receipts carry a cost. */
  predicate RightKind(row: Movement) {
    && (row.unitCost.Some? <==> row.document.kind.GrnDoc?)
    && match row.document.kind
       case GrnDoc => row.kind.GrnReceipt? && row.qty > 0 && row.key.location == Stores
       case IssueDoc => if row.qty < 0 then row.kind.IssueOut? else row.kind.IssueIn?
       case TransferDoc => if row.qty < 0 then row.kind.TransferOut? else row.kind.TransferIn?
       case TakeDoc => row.kind.StocktakeAdj?
       case WastageDoc => row.kind.Wastage? && row.qty < 0
       case OrderDoc => row.kind.SaleDeduction? && row.qty < 0 && row.key.location == Stores
  }

  predicate RightKinds(rows: seq<Movement>) {
    forall i :: 0 <= i < |rows| ==> RightKind(rows[i])
  }

  lemma {:induction false} PairKinds(document: Document, m: Move, items: seq<ItemQty>, sides: Sides)
    requires forall i :: 0 <= i < |items| ==> items[i].qty > 0
    requires (document.kind.IssueDoc? && sides == Sides(IssueOut, IssueIn))
          || (document.kind.TransferDoc? && sides == Sides(TransferOut, TransferIn))
    ensures RightKinds(Rows(Posting(document, PairLines(m.source, m.destination, items, sides))))
  {
    if items != [] {
      var n := |items| - 1;
      assert forall i :: 0 <= i < n ==> items[..n][i] == items[i];
      PairKinds(document, m, items[..n], sides);
      var earlier := Rows(Posting(document, PairLines(m.source, m.destination, items[..n], sides)));
      var outRow := Row(document, MoveLine(items[n], m.source, -1, sides.outKind));
      var inRow := Row(document, MoveLine(items[n], m.destination, 1, sides.inKind));
      assert Round(-1 * items[n].qty * FINE) == -items[n].qty && Round(1 * items[n].qty * FINE) == items[n].qty;
      assert Rows(Posting(document, PairLines(m.source, m.destination, items, sides))) == earlier + [outRow, inRow];
    }
  }

  lemma {:induction false} SaleKinds(s: State, posting: Posting)
    requires Inv(s) && posting.document.kind.OrderDoc? && Backed(s, posting) && SoundLines(posting.lines)
    ensures RightKinds(Rows(posting))
  {
    var items := s.sales[posting.document.id].items;
    assert SaleExact(s, posting.document.id);
    RecipesUsable(s.menu, s.factors, items);
    DeductionRefinesNeed(s.menu, s.factors, items);
    forall i | 0 <= i < |posting.lines|
      ensures RightKind(Rows(posting)[i])
    {
      assert posting.lines[i] == DeductionLine(Requirements(s.menu, s.factors, items), posting.lines[i].key.product);
      assert posting.lines[i].qty < 0 && Round(posting.lines[i].qty) != 0;
    }
  }

  lemma {:induction false} ReceiptKinds(s: State, posting: Posting)
    requires Inv(s) && posting.document.kind.GrnDoc? && Backed(s, posting)
    ensures RightKinds(Rows(posting))
  {
    var g := posting.document.id;
    assert GrnSound(s, g);
    var lines := s.grns[g].lines;
    forall i | 0 <= i < |lines|
      ensures RightKind(Rows(posting)[i])
    {
      assert posting.lines[i] == ReceiptLine(s.orders[s.grns[g].po], lines[i]);
      assert Round(lines[i].qty * FINE) == lines[i].qty;
    }
  }

  lemma {:induction false} BackedKinds(s: State, posting: Posting)
    requires Inv(s) && Backed(s, posting) && SoundLines(posting.lines)
    ensures RightKinds(Rows(posting))
  {
    var id := posting.document.id;
    match posting.document.kind
    case GrnDoc => ReceiptKinds(s, posting);
    case IssueDoc => PairKinds(posting.document, s.issues[id], s.issues[id].lines, Sides(IssueOut, IssueIn));
    case TransferDoc =>
      assert TransferSafe(s, id);
      PairKinds(posting.document, s.transfers[id], s.transfers[id].lines, Sides(TransferOut, TransferIn));
    case TakeDoc => AdjustmentKinds(s, posting);
    case WastageDoc => WastageKinds(s, posting);
    case OrderDoc => SaleKinds(s, posting);
  }

  lemma {:induction false} AdjustmentKinds(s: State, posting: Posting)
    requires posting.document.kind.TakeDoc? && Backed(s, posting)
    ensures RightKinds(Rows(posting))
  {
  }

  lemma {:induction false} WastageKinds(s: State, posting: Posting)
    requires Inv(s) && posting.document.kind.WastageDoc? && Backed(s, posting)
    ensures RightKinds(Rows(posting))
  {
    var entry := s.wastage[posting.document.id];
    assert WastageExact(s, posting.document.id);
    WastageRow(entry, posting.document);
  }

  lemma {:induction false} AllKinds(s: State, ps: seq<Posting>)
    requires Inv(s) && forall i :: 0 <= i < |ps| ==> Backed(s, ps[i]) && SoundLines(ps[i].lines)
    ensures RightKinds(AllRows(ps))
  {
    if ps != [] {
      var n := |ps| - 1;
      assert forall i :: 0 <= i < n ==> ps[..n][i] == ps[i];
      AllKinds(s, ps[..n]);
      BackedKinds(s, ps[n]);
    }
  }

  /** In every reachable state each ledger row has the type, the sign and the place its document
      gives it, and carries a cost iff it is a receipt. */
  lemma {:induction false} RowsHaveRightKinds(factors: Factors, ops: seq<Op>)
    requires FactorsPositive(factors)
    ensures RightKinds(After(factors, ops).books.ledger)
  {
    Reachable(factors, ops);
    InvRightKinds(After(factors, ops));
  }

  lemma {:induction false} InvRightKinds(s: State)
    requires Inv(s)
    ensures RightKinds(s.books.ledger)
  {
    var ps := Payloads(s.books.outbox);
    assert forall i :: 0 <= i < |ps| ==> ps[i] == s.books.outbox[i].posting;
    AllKinds(s, ps);
  }

  // ----- the leakage report by document -----

  /** A product's quantity over the rows of some kinds of document. */
  function DocumentSum(rows: seq<Movement>, kinds: set<DocKind>, p: ProductId): int {
    if rows == [] then 0
    else
      var last := rows[|rows| - 1];
      DocumentSum(rows[..|rows| - 1], kinds, p)
      + if last.key.product == p && last.document.kind in kinds then last.qty else 0
  }

  lemma {:induction false} ColumnsByDocument(rows: seq<Movement>, p: ProductId)
    requires RightKinds(rows)
    ensures ColumnSum(rows, TheoreticalColumn, p) == DocumentSum(rows, {OrderDoc}, p)
    ensures ColumnSum(rows, ActualColumn, p) == DocumentSum(rows, {OrderDoc}, p) + DocumentSum(rows, {WastageDoc, TakeDoc}, p)
    ensures ColumnSum(rows, ReceiptColumn, p) == DocumentSum(rows, {GrnDoc}, p)
  {
    if rows != [] {
      var n := |rows| - 1;
      assert forall i :: 0 <= i < n ==> rows[..n][i] == rows[i];
      ColumnsByDocument(rows[..n], p);
      assert RightKind(rows[n]);
    }
  }

  /** In every reachable state the all-time report's theoretical quantity is what the orders deducted,
      and its gap is what wastage entries and stock-takes took away. */
  lemma {:induction false} LeakageByDocument(factors: Factors, ops: seq<Op>, p: ProductId)
    requires FactorsPositive(factors)
    ensures var ledger := After(factors, ops).books.ledger;
      && LeakageOf(ledger, p).theoretical == -DocumentSum(ledger, {OrderDoc}, p)
      && LeakageOf(ledger, p).gap == -DocumentSum(ledger, {WastageDoc, TakeDoc}, p)
  {
    RowsHaveRightKinds(factors, ops);
    ColumnsByDocument(After(factors, ops).books.ledger, p);
  }
}
