/** What a unit cost is, and what is compared with a threshold, in terms of the receipts
    (backend/apps/inventory/services.py, `_latest_unit_cost` and `lines_value`). */
module Valuation {
  import opened Prelude
  import opened Ledger
  import opened Accounting
  import opened Deduction
  import opened Model
  import opened Services
  import opened System
  import opened Effects
  import opened Documents
  import opened WastageLifecycle
  import opened SalesLifecycle
  import opened Purchasing
  import opened Invariant
  import opened Recounts
  import opened RowKinds

  // ----- the newest receipt row -----

  /** A receipt row of the product that carries a cost. */
  predicate CostRow(row: Movement, p: ProductId) {
    row.key.product == p && row.kind.GrnReceipt? && row.unitCost.Some?
  }

  predicate NoCostRow(rows: seq<Movement>, p: ProductId) {
    forall i :: 0 <= i < |rows| ==> !CostRow(rows[i], p)
  }

  /** Row `i` is the newest receipt row of the product with a cost. */
  predicate NewestCostRow(ledger: seq<Movement>, p: ProductId, i: nat) {
    i < |ledger| && CostRow(ledger[i], p) && forall j :: i < j < |ledger| ==> !CostRow(ledger[j], p)
  }

  /** A product costs what its newest receipt row says. */
  lemma {:induction false} UnitCostIsNewest(ledger: seq<Movement>, p: ProductId, i: nat)
    requires NewestCostRow(ledger, p, i)
    ensures LatestUnitCost(ledger, p) == ledger[i].unitCost.value
  {
    var n := |ledger| - 1;
    if i < n {
      assert forall j :: 0 <= j < n ==> ledger[..n][j] == ledger[j];
      UnitCostIsNewest(ledger[..n], p, i);
    }
  }

  /** A product without a receipt row costs nothing. */
  lemma {:induction false} UnitCostDefault(ledger: seq<Movement>, p: ProductId)
    requires NoCostRow(ledger, p)
    ensures LatestUnitCost(ledger, p) == 0
  {
    if ledger != [] {
      var n := |ledger| - 1;
      assert forall j :: 0 <= j < n ==> ledger[..n][j] == ledger[j];
      UnitCostDefault(ledger[..n], p);
    }
  }

  /** Rows without a cost change no price. */
  lemma {:induction false} UncostedRows(a: seq<Movement>, b: seq<Movement>, p: ProductId)
    requires NoCostRow(b, p)
    ensures LatestUnitCost(a + b, p) == LatestUnitCost(a, p)
  {
    if b == [] {
      assert a + b == a;
    } else {
      var n := |b| - 1;
      assert (a + b)[..|a + b| - 1] == a + b[..n];
      assert forall j :: 0 <= j < n ==> b[..n][j] == b[j];
      UncostedRows(a, b[..n], p);
    }
  }

  // ----- values -----

  /** The value of lines is the sum of the values of their parts. */
  lemma {:induction false} ValueAdds(ledger: seq<Movement>, a: seq<ItemQty>, b: seq<ItemQty>)
    ensures LinesValue(ledger, a + b) == LinesValue(ledger, a) + LinesValue(ledger, b)
  {
    if b == [] {
      assert a + b == a;
    } else {
      var n := |b| - 1;
      assert (a + b)[..|a + b| - 1] == a + b[..n];
      ValueAdds(ledger, a, b[..n]);
    }
  }

  /** One line is worth its quantity at the cost on the newest receipt row. */
  lemma {:induction false} OneLineValue(ledger: seq<Movement>, item: ItemQty, i: nat)
    requires NewestCostRow(ledger, item.product, i)
    ensures LinesValue(ledger, [item]) == ledger[i].unitCost.value * item.qty
  {
    UnitCostIsNewest(ledger, item.product, i);
    assert [item][..0] == [] && LinesValue(ledger, [item][..0]) == 0;
  }

  // ----- costs by receipt, over runs -----

  /** Line `i` of GRN `g` received the product. */
  predicate Receives(s: State, g: nat, i: nat, p: ProductId) {
    && g < |s.grns|
    && i < |s.grns[g].lines|
    && s.grns[g].po < |s.orders|
    && s.grns[g].lines[i].poLine < |s.orders[s.grns[g].po].lines|
    && s.orders[s.grns[g].po].lines[s.grns[g].lines[i].poLine].product == p
  }

  /** Line `i` of GRN `g` received the product, and no later GRN did. */
  predicate NewestReceipt(s: State, g: nat, i: nat, p: ProductId) {
    Receives(s, g, i, p) && forall h, j :: g < h < |s.grns| && 0 <= j < |s.grns[h].lines| ==> !Receives(s, h, j, p)
  }

  predicate NeverReceived(s: State, p: ProductId) {
    forall g, i :: 0 <= g < |s.grns| && 0 <= i < |s.grns[g].lines| ==> !Receives(s, g, i, p)
  }

  /** The product is valued at the cost on the newest GRN line that received it, at zero without one. */
  ghost predicate Priced(s: State, p: ProductId) {
    && (forall g: nat, i: nat :: NewestReceipt(s, g, i, p) ==> LatestUnitCost(s.books.ledger, p) == s.grns[g].lines[i].unitCost)
    && (NeverReceived(s, p) ==> LatestUnitCost(s.books.ledger, p) == 0)
  }

  /** Order lines keep their products, so what an old GRN received does not change. */
  lemma {:induction false} SameReceipts(s: State, s': State, g: nat, i: nat, p: ProductId)
    requires PurchasingInv(s) && Grows(s, s') && g < |s.grns|
    ensures Receives(s', g, i, p) == Receives(s, g, i, p)
  {
    assert GrnSound(s, g) && s'.grns[g] == s.grns[g];
    assert SamePo(s.orders[s.grns[g].po], s'.orders[s.grns[g].po]);
  }

  /** Nothing a call other than a receipt writes carries a cost. */
  lemma {:induction false} OtherStepKeepsCost(s: State, op: Op, s': State, p: ProductId)
    requires SaleInv(s) && RightKinds(s'.books.ledger) && Step(s, op) == Ok(s') && !op.OpPostGrn?
    ensures LatestUnitCost(s'.books.ledger, p) == LatestUnitCost(s.books.ledger, p)
  {
    RefsOfSales(s);
    StepEffect(s, op, s');
    if Writes(s, op).Some? {
      OtherDocumentKeepsCost(s, s', Writes(s, op).value, MayOverride(s, op), p);
    }
  }

  lemma {:induction false} OtherDocumentKeepsCost(s: State, s': State, document: Document, override: bool, p: ProductId)
    requires PostsOnly(s, s', document, override) && !document.kind.GrnDoc? && RightKinds(s'.books.ledger)
    ensures LatestUnitCost(s'.books.ledger, p) == LatestUnitCost(s.books.ledger, p)
  {
    if s'.books.ledger != s.books.ledger {
      var lines :| PostedAs(s, s', Posting(document, lines), override);
      UncostedPosting(s, s', Posting(document, lines), p);
    }
  }

  lemma {:induction false} UncostedPosting(s: State, s': State, posting: Posting, p: ProductId)
    requires s'.books.ledger == s.books.ledger + Rows(posting) && RightKinds(s'.books.ledger)
    requires !posting.document.kind.GrnDoc?
    ensures LatestUnitCost(s'.books.ledger, p) == LatestUnitCost(s.books.ledger, p)
  {
    var rows := Rows(posting);
    forall i | 0 <= i < |rows|
      ensures !CostRow(rows[i], p)
    {
      assert RightKind(s'.books.ledger[|s.books.ledger| + i]);
    }
    UncostedRows(s.books.ledger, rows, p);
  }

  lemma {:induction false} OtherStepKeepsPrice(s: State, op: Op, s': State, p: ProductId)
    requires Inv(s) && Inv(s') && Step(s, op) == Ok(s') && !op.OpPostGrn? && Priced(s, p)
    ensures Priced(s', p)
  {
    InvRightKinds(s');
    OtherStepKeepsCost(s, op, s', p);
    RefsOfSales(s);
    StepEffect(s, op, s');
    OtherStepKeepsGrns(s, op, s');
    forall g: nat, i: nat | g < |s.grns|
      ensures Receives(s', g, i, p) == Receives(s, g, i, p)
    {
      SameReceipts(s, s', g, i, p);
    }
  }

  lemma {:induction false} OtherStepKeepsGrns(s: State, op: Op, s': State)
    requires Step(s, op) == Ok(s') && !op.OpPostGrn?
    ensures s'.grns == s.grns
  {
    StepTablesKept(s, op, s');
  }

  /** The rows of one GRN: each product on at most one of them, at that line's cost. */
  lemma {:induction false} ReceiptCosts(ledger: seq<Movement>, po: PurchaseOrder, posting: Posting, lines: seq<GrnLine>, p: ProductId)
    requires PoSound(po) && LinesOfPo(po, lines) && Distinct(SubmittedLines(lines))
    requires posting.lines == ReceiptLines(po, lines)
    ensures forall i :: 0 <= i < |lines| && po.lines[lines[i].poLine].product == p ==>
      LatestUnitCost(ledger + Rows(posting), p) == lines[i].unitCost
    ensures (forall i :: 0 <= i < |lines| ==> po.lines[lines[i].poLine].product != p) ==>
      LatestUnitCost(ledger + Rows(posting), p) == LatestUnitCost(ledger, p)
  {
    var rows, all := Rows(posting), ledger + Rows(posting);
    forall i | 0 <= i < |rows|
      ensures rows[i].key.product == po.lines[lines[i].poLine].product
      ensures rows[i].kind.GrnReceipt? && rows[i].unitCost == Some(lines[i].unitCost)
    {
      assert posting.lines[i] == ReceiptLine(po, lines[i]);
    }
    forall i | 0 <= i < |lines| && po.lines[lines[i].poLine].product == p
      ensures LatestUnitCost(all, p) == lines[i].unitCost
    {
      ReceiptKeysDistinct(po, lines);
      var at := |ledger| + i;
      assert all[at] == rows[i];
      forall j | at < j < |all|
        ensures !CostRow(all[j], p)
      {
        var later := j - |ledger|;
        assert all[j] == rows[later];
        assert posting.lines[i] == ReceiptLine(po, lines[i]) && posting.lines[later] == ReceiptLine(po, lines[later]);
        assert posting.lines[i].key != posting.lines[later].key;
      }
      UnitCostIsNewest(all, p, at);
    }
    if forall i :: 0 <= i < |lines| ==> po.lines[lines[i].poLine].product != p {
      UncostedRows(ledger, rows, p);
    }
  }

  lemma {:induction false} GrnLedger(s: State, po: nat, lines: seq<GrnLine>, s': State)
    requires BooksInv(s.books) && BackedInv(s) && PostGrn(s, po, lines) == Ok(s')
    ensures Distinct(SubmittedLines(lines)) && LinesOfPo(s.orders[po], lines)
    ensures s'.books.ledger == s.books.ledger + Rows(Posting(GrnDocument(|s.grns|), ReceiptLines(s.orders[po], lines)))
  {
    FreshNotPosted(s);
  }

  lemma {:induction false} ReceiptSetsPrice(s: State, po: nat, lines: seq<GrnLine>, s': State, p: ProductId)
    requires BooksInv(s.books) && BackedInv(s) && PurchasingInv(s) && PostGrn(s, po, lines) == Ok(s') && Priced(s, p)
    ensures Priced(s', p)
  {
    GrnLedger(s, po, lines, s');
    PostGrnOutcome(s, po, lines, s');
    GrnGrows(s, po, lines, s');
    ReceiptCosts(s.books.ledger, s.orders[po], Posting(GrnDocument(|s.grns|), ReceiptLines(s.orders[po], lines)), lines, p);
    forall g: nat, i: nat | g < |s.grns|
      ensures Receives(s', g, i, p) == Receives(s, g, i, p)
    {
      SameReceipts(s, s', g, i, p);
    }
    NewReceipt(s, po, lines, s', p);
  }

  lemma {:induction false} GrnGrows(s: State, po: nat, lines: seq<GrnLine>, s': State)
    requires PostGrn(s, po, lines) == Ok(s')
    ensures Grows(s, s')
  {
    GrnTables(s, po, lines);
    GrowPurchasing(s, s');
  }

  /** A GRN that received the product becomes its newest receipt, and otherwise changes nothing. */
  lemma {:induction false} NewReceipt(s: State, po: nat, lines: seq<GrnLine>, s': State, p: ProductId)
    requires Receipted(s, po, lines, s') && Priced(s, p)
    requires forall g: nat, i: nat | g < |s.grns| :: Receives(s', g, i, p) == Receives(s, g, i, p)
    requires forall i :: 0 <= i < |lines| && s.orders[po].lines[lines[i].poLine].product == p ==>
      LatestUnitCost(s'.books.ledger, p) == lines[i].unitCost
    requires (forall i :: 0 <= i < |lines| ==> s.orders[po].lines[lines[i].poLine].product != p) ==>
      LatestUnitCost(s'.books.ledger, p) == LatestUnitCost(s.books.ledger, p)
    ensures Priced(s', p)
  {
    var n := |s.grns|;
    assert forall i :: 0 <= i < |lines| ==>
      (Receives(s', n, i, p) <==> s.orders[po].lines[lines[i].poLine].product == p);
    forall g: nat, i: nat | NewestReceipt(s', g, i, p)
      ensures LatestUnitCost(s'.books.ledger, p) == s'.grns[g].lines[i].unitCost
    {
      if g < n {
        assert forall j :: 0 <= j < |s'.grns[n].lines| ==> !Receives(s', n, j, p);
        assert forall h :: g < h < |s.grns| ==> s'.grns[h] == s.grns[h];
        assert NewestReceipt(s, g, i, p);
      }
    }
    if NeverReceived(s', p) {
      assert forall j :: 0 <= j < |s'.grns[n].lines| ==> !Receives(s', n, j, p);
      assert forall h :: 0 <= h < n ==> s'.grns[h] == s.grns[h];
      assert NeverReceived(s, p);
    }
  }

  /** In every reachable state a product is valued at the cost on the last committed GRN line that
      received it, and at zero when none did. */
  lemma {:induction false} CostIsLastReceipt(factors: Factors, ops: seq<Op>, p: ProductId)
    requires FactorsPositive(factors)
    ensures Priced(After(factors, ops), p)
  {
    if ops != [] {
      var n := |ops| - 1;
      CostIsLastReceipt(factors, ops[..n], p);
      Reachable(factors, ops[..n]);
      NextKeepsPrice(After(factors, ops[..n]), ops[n], p);
    } else {
      NothingPriced(factors, p);
    }
  }

  lemma {:induction false} NothingPriced(factors: Factors, p: ProductId)
    ensures Priced(Initial(factors), p)
  {
  }

  lemma {:induction false} NextKeepsPrice(s: State, op: Op, p: ProductId)
    requires Inv(s) && Priced(s, p)
    ensures Priced(Next(s, op), p)
  {
    if Step(s, op).Ok? {
      NextKeeps(s, op);
      StepKeepsPrice(s, op, Step(s, op).value, p);
    }
  }

  lemma {:induction false} StepKeepsPrice(s: State, op: Op, s': State, p: ProductId)
    requires Inv(s) && Inv(s') && Step(s, op) == Ok(s') && Priced(s, p)
    ensures Priced(s', p)
  {
    if op.OpPostGrn? {
      GrnSetsPrice(s, op, s', p);
    } else {
      OtherStepKeepsPrice(s, op, s', p);
    }
  }

  lemma {:induction false} GrnSetsPrice(s: State, op: Op, s': State, p: ProductId)
    requires op.OpPostGrn? && Step(s, op) == Ok(s')
    requires BooksInv(s.books) && BackedInv(s) && PurchasingInv(s) && Priced(s, p)
    ensures Priced(s', p)
  {
    ReceiptSetsPrice(s, op.po, op.received, s', p);
  }

  // ----- what is compared with a threshold -----

  /** The cost on the newest GRN line that received the product, zero without one. */
  ghost function ReceiptCost(s: State, p: ProductId): int {
    if g: nat, i: nat :| NewestReceipt(s, g, i, p) then s.grns[g].lines[i].unitCost else 0
  }

  /** Quantities at the cost of their product's newest receipt. */
  ghost function Worth(s: State, lines: seq<ItemQty>): int {
    if lines == [] then 0
    else Worth(s, lines[..|lines| - 1]) + ReceiptCost(s, lines[|lines| - 1].product) * lines[|lines| - 1].qty
  }

  /** Every difference between a sheet's count and the quantity it froze, at that cost. */
  ghost function SheetWorth(s: State, lines: seq<CountLine>): int {
    if lines == [] then 0
    else
      var last := lines[|lines| - 1];
      SheetWorth(s, lines[..|lines| - 1]) + ReceiptCost(s, last.product) * Abs(Shown(last) - last.systemQty)
  }

  /** A product that was ever received has a newest receipt. */
  lemma {:induction false} SomeNewest(s: State, p: ProductId, n: nat) returns (g: nat, i: nat)
    requires n <= |s.grns| && !NeverReceived(s, p)
    requires forall h, j :: n <= h < |s.grns| && 0 <= j < |s.grns[h].lines| ==> !Receives(s, h, j, p)
    ensures NewestReceipt(s, g, i, p)
    decreases n
  {
    var last: nat := n - 1;
    if j :| 0 <= j < |s.grns[last].lines| && Receives(s, last, j, p) {
      g, i := last, j;
    } else {
      g, i := SomeNewest(s, p, last);
    }
  }

  lemma {:induction false} CostIsReceiptCost(s: State, p: ProductId)
    requires Priced(s, p)
    ensures LatestUnitCost(s.books.ledger, p) == ReceiptCost(s, p)
  {
    if !NeverReceived(s, p) {
      var g, i := SomeNewest(s, p, |s.grns|);
    } else {
      assert forall g: nat, i: nat :: !NewestReceipt(s, g, i, p);
    }
  }

  lemma {:induction false} ValueIsWorth(s: State, lines: seq<ItemQty>)
    requires forall p :: Priced(s, p)
    ensures LinesValue(s.books.ledger, lines) == Worth(s, lines)
  {
    if lines != [] {
      ValueIsWorth(s, lines[..|lines| - 1]);
      CostIsReceiptCost(s, lines[|lines| - 1].product);
    }
  }

  lemma {:induction false} SheetValueIsWorth(s: State, lines: seq<CountLine>)
    requires forall p :: Priced(s, p)
    ensures LinesValue(s.books.ledger, Unsigned(Variant(lines))) == SheetWorth(s, lines)
  {
    if lines != [] {
      SheetValueIsWorth(s, lines[..|lines| - 1]);
      CostIsReceiptCost(s, lines[|lines| - 1].product);
      OneMoreCounted(s.books.ledger, lines);
    }
  }

  /** One more line of a sheet adds the cost of its difference. */
  lemma {:induction false} OneMoreCounted(ledger: seq<Movement>, lines: seq<CountLine>)
    requires lines != []
    ensures var last := lines[|lines| - 1];
      LinesValue(ledger, Unsigned(Variant(lines))) ==
        LinesValue(ledger, Unsigned(Variant(lines[..|lines| - 1])))
        + LatestUnitCost(ledger, last.product) * Abs(Shown(last) - last.systemQty)
  {
    var earlier, last := Variant(lines[..|lines| - 1]), lines[|lines| - 1];
    if last.counted.Some? && Variance(last) != 0 {
      assert Unsigned(Variant(lines))[..|earlier|] == Unsigned(earlier);
    } else {
      assert Variant(lines) == earlier;
    }
  }

  lemma {:induction false} AllPriced(factors: Factors, ops: seq<Op>)
    requires FactorsPositive(factors)
    ensures forall p :: Priced(After(factors, ops), p)
  {
    forall p: ProductId
      ensures Priced(After(factors, ops), p)
    {
      CostIsLastReceipt(factors, ops, p);
    }
  }

  predicate Above(s: State, scope: Scope, worth: int) {
    scope in s.thresholds && s.thresholds[scope] * 1000 < worth
  }

  /** The call queued the document: it waits for the Manager, under the scope's threshold. */
  predicate Queued(s: State, s': State, subject: Subject, scope: Scope) {
    && scope in s.thresholds
    && s'.approvals == s.approvals + [Approval(subject, Some(scope), Some(s.thresholds[scope]), Undecided)]
    && s'.books == s.books
  }

  /** In every reachable state posting an open transfer with lines queues it iff its quantities, at
      the cost of the newest receipt of each product, are worth more than the transfer threshold. */
  lemma {:induction false} TransferRoutedByReceipts(factors: Factors, ops: seq<Op>, id: nat)
    requires FactorsPositive(factors) && id < |After(factors, ops).transfers|
    requires !After(factors, ops).transfers[id].status.PostedDoc? && After(factors, ops).transfers[id].lines != []
    ensures var s := After(factors, ops);
      var s' := Next(s, OpPostTransfer(id));
      Queued(s, s', OnTransfer(id), TransferScope) && s'.transfers[id].status.PendingApproval? <==>
        Above(s, TransferScope, Worth(s, s.transfers[id].lines))
  {
    AllPriced(factors, ops);
    ValueIsWorth(After(factors, ops), After(factors, ops).transfers[id].lines);
    TransferQueuedIff(After(factors, ops), id);
  }

  lemma {:induction false} TransferQueuedIff(s: State, id: nat)
    requires id < |s.transfers| && !s.transfers[id].status.PostedDoc? && s.transfers[id].lines != []
    ensures var s' := Next(s, OpPostTransfer(id));
      Queued(s, s', OnTransfer(id), TransferScope) && s'.transfers[id].status.PendingApproval? <==>
        Above(s, TransferScope, TransferValue(s, id))
  {
  }

  /** In every reachable state posting an open stock-take queues it iff the differences between its
      counts and the quantities it froze, at the cost of the newest receipt of each product, are
      worth more than the adjustment threshold. */
  lemma {:induction false} TakeRoutedByReceipts(factors: Factors, ops: seq<Op>, id: nat)
    requires FactorsPositive(factors) && id < |After(factors, ops).takes|
    requires !After(factors, ops).takes[id].status.PostedDoc?
    ensures var s := After(factors, ops);
      var s' := Next(s, OpPostTake(id));
      Queued(s, s', OnTake(id), AdjustmentScope) && s'.takes[id].status.PendingApproval? <==>
        Above(s, AdjustmentScope, SheetWorth(s, s.takes[id].lines))
  {
    AllPriced(factors, ops);
    SheetValueIsWorth(After(factors, ops), After(factors, ops).takes[id].lines);
    TakeQueuedIff(After(factors, ops), id);
  }

  lemma {:induction false} TakeQueuedIff(s: State, id: nat)
    requires id < |s.takes| && !s.takes[id].status.PostedDoc?
    ensures var s' := Next(s, OpPostTake(id));
      Queued(s, s', OnTake(id), AdjustmentScope) && s'.takes[id].status.PendingApproval? <==>
        Above(s, AdjustmentScope, TakeValue(s, id))
  {
    if Variant(s.takes[id].lines) == [] {
      assert Unsigned(Variant(s.takes[id].lines)) == [];
    }
  }

  /** In every reachable state a wastage call that commits records its quantity at the cost of the
      product's newest receipt, and queues the entry iff that is above the threshold: the extra-usage
      threshold for extra usage, the wastage threshold for breakage and spoilage. */
  lemma {:induction false} WastageRoutedByReceipts(factors: Factors, ops: seq<Op>, op: Op, s': State)
    requires FactorsPositive(factors) && op.OpCreateWastage? && Step(After(factors, ops), op) == Ok(s')
    ensures var s, id := After(factors, ops), |After(factors, ops).wastage|;
      var scope := if op.entryType.Breakage? || op.entryType.Spoilage? then WastageScope else ExtraUsageScope;
      && |s'.wastage| == id + 1
      && s'.wastage[id].value == ReceiptCost(s, op.product) * op.qty
      && (Queued(s, s', OnWastage(id), scope) && s'.wastage[id].status.PendingApproval? <==>
            Above(s, scope, ReceiptCost(s, op.product) * op.qty))
  {
    CostIsLastReceipt(factors, ops, op.product);
    CostIsReceiptCost(After(factors, ops), op.product);
    WastageQueuedIff(After(factors, ops), op, s');
  }

  lemma {:induction false} WastageQueuedIff(s: State, op: Op, s': State)
    requires op.OpCreateWastage? && Step(s, op) == Ok(s')
    ensures var scope := if op.entryType.Breakage? || op.entryType.Spoilage? then WastageScope else ExtraUsageScope;
      var value, id := LatestUnitCost(s.books.ledger, op.product) * op.qty, |s.wastage|;
      && |s'.wastage| == id + 1
      && s'.wastage[id].value == value
      && (Queued(s, s', OnWastage(id), scope) && s'.wastage[id].status.PendingApproval? <==> Above(s, scope, value))
  {
    CreateWastageOutcome(s, op, s');
  }
}
