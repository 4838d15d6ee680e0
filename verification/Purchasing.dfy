/** Receipts against purchase orders and the 3-way invoice match (backend/apps/procurement/services.py). */
module Purchasing {
  import opened Prelude
  import opened Ledger
  import opened Accounting
  import opened Model
  import opened Services
  import opened System
  import opened Effects
  import opened Documents

  /** Quantity received on a PO line over all GRNs of its order. */
  function TotalReceived(grns: seq<Grn>, po: nat, poLine: nat): int {
    if grns == [] then 0
    else
      var last := grns[|grns| - 1];
      TotalReceived(grns[..|grns| - 1], po, poLine) + if last.po == po then ReceivedQty(last.lines, poLine) else 0
  }

  /** Stored receipt rows of a key over all GRNs of an order. */
  function ReceiptRows(ledger: seq<Movement>, grns: seq<Grn>, po: nat, k: Key): int {
    if grns == [] then 0
    else
      var n := |grns| - 1;
      ReceiptRows(ledger, grns[..n], po, k)
      + if grns[n].po == po then LedgerSum(DocRows(ledger, GrnDocument(n)), k) else 0
  }

  predicate PoSound(po: PurchaseOrder) {
    && Distinct(PoProducts(po.lines))
    && forall i :: 0 <= i < |po.lines| ==> po.lines[i].qty > 0 && po.lines[i].unitPrice >= 0
  }

  predicate GrnSound(s: State, g: nat)
    requires g < |s.grns|
  {
    && s.grns[g].po < |s.orders|
    && LinesOfPo(s.orders[s.grns[g].po], s.grns[g].lines)
    && ValidGrnLines(s.grns[g].lines)
    && IsPosted(s.books, GrnDocument(g))
  }

  predicate TotalsAgree(grns: seq<Grn>, po: nat, lines: seq<PoLine>) {
    forall i :: 0 <= i < |lines| ==> lines[i].fulfilled == TotalReceived(grns, po, i)
  }

  ghost predicate PurchasingInv(s: State) {
    && (forall po :: 0 <= po < |s.orders| ==> PoSound(s.orders[po]) && TotalsAgree(s.grns, po, s.orders[po].lines))
    && (forall g :: 0 <= g < |s.grns| ==> GrnSound(s, g))
  }

  /** An order that does not exist yet has received nothing. */
  lemma {:induction false} NothingReceived(grns: seq<Grn>, po: nat, poLine: nat)
    requires forall g :: 0 <= g < |grns| ==> grns[g].po != po
    ensures TotalReceived(grns, po, poLine) == 0
  {
    if grns != [] {
      assert forall g :: 0 <= g < |grns| - 1 ==> grns[..|grns| - 1][g] == grns[g];
      NothingReceived(grns[..|grns| - 1], po, poLine);
    }
  }

  lemma CreatePoKeeps(s: State, budget: nat, supplier: nat, lines: seq<PoLine>, s': State)
    requires CreatePo(s, budget, supplier, lines) == Ok(s') && PurchasingInv(s)
    ensures PurchasingInv(s')
  {
    var id := |s.orders|;
    forall po | 0 <= po < |s'.orders|
      ensures PoSound(s'.orders[po]) && TotalsAgree(s'.grns, po, s'.orders[po].lines)
    {
      if po == id {
        forall i | 0 <= i < |lines|
          ensures lines[i].fulfilled == TotalReceived(s.grns, id, i)
        {
          forall g | 0 <= g < |s.grns|
            ensures s.grns[g].po != id
          {
            assert GrnSound(s, g);
          }
          NothingReceived(s.grns, id, i);
        }
      } else {
        assert PoSound(s.orders[po]);
      }
    }
    forall g | 0 <= g < |s'.grns|
      ensures GrnSound(s', g)
    {
      assert GrnSound(s, g);
    }
  }

  /** The order after a receipt. */
  function ReceiptedOrder(order: PurchaseOrder, lines: seq<GrnLine>): PurchaseOrder {
    var fulfilled := Fulfil(order.lines, lines);
    order.(lines := fulfilled, status := if AllFulfilled(fulfilled) then Received else PartiallyReceived)
  }

  /** How posting a GRN leaves the procurement tables. */
  ghost predicate Receipted(s: State, po: nat, lines: seq<GrnLine>, s': State) {
    && po < |s.orders|
    && LinesOfPo(s.orders[po], lines)
    && ValidGrnLines(lines)
    && s'.grns == s.grns + [Grn(po, lines)]
    && s'.orders == s.orders[po := ReceiptedOrder(s.orders[po], lines)]
    && IsPosted(s'.books, GrnDocument(|s.grns|))
    && PostsOnly(s, s', GrnDocument(|s.grns|), false)
  }

  lemma PostGrnOutcome(s: State, po: nat, lines: seq<GrnLine>, s': State)
    requires PostGrn(s, po, lines) == Ok(s')
    ensures Receipted(s, po, lines, s')
  {
    GrnEffect(s, po, lines);
    PostToPosts(s, Posting(GrnDocument(|s.grns|), ReceiptLines(s.orders[po], lines)), false);
  }

  lemma ReceiptKeeps(s: State, po: nat, lines: seq<GrnLine>, s': State)
    requires Receipted(s, po, lines, s') && PurchasingInv(s)
    ensures PurchasingInv(s')
  {
    var g := |s.grns|;
    assert s'.grns[..g] == s.grns;
    forall other | 0 <= other < |s'.orders|
      ensures PoSound(s'.orders[other]) && TotalsAgree(s'.grns, other, s'.orders[other].lines)
    {
      assert PoSound(s.orders[other]) && TotalsAgree(s.grns, other, s.orders[other].lines);
      assert PoProducts(s'.orders[other].lines) == PoProducts(s.orders[other].lines);
    }
    forall i | 0 <= i < |s'.grns|
      ensures GrnSound(s', i)
    {
      if i < g {
        assert s'.grns[i] == s.grns[i] && GrnSound(s, i);
        RowsFrame(s, s', GrnDocument(g), false, GrnDocument(i));
      }
    }
  }

  /** Steps that leave receipts and order lines alone. */
  lemma PurchasingFrame(s: State, s': State)
    requires PurchasingInv(s) && s'.grns == s.grns && |s'.orders| == |s.orders|
    requires forall po :: 0 <= po < |s.orders| ==> s'.orders[po].lines == s.orders[po].lines
    requires forall g :: 0 <= g < |s.grns| ==> IsPosted(s'.books, GrnDocument(g)) == IsPosted(s.books, GrnDocument(g))
    ensures PurchasingInv(s')
  {
    forall po | 0 <= po < |s'.orders|
      ensures PoSound(s'.orders[po]) && TotalsAgree(s'.grns, po, s'.orders[po].lines)
    {
      assert PoSound(s.orders[po]);
    }
    forall g | 0 <= g < |s'.grns|
      ensures GrnSound(s', g)
    {
      assert GrnSound(s, g);
    }
  }

  // ----- what the totals mean -----

  /** The rows of one GRN for a PO line's product are what the GRN received on that line. */
  lemma {:induction false} ReceiptRowsOfLine(po: PurchaseOrder, posting: Posting, lines: seq<GrnLine>, i: nat)
    requires PoSound(po) && LinesOfPo(po, lines) && posting.lines == ReceiptLines(po, lines) && i < |po.lines|
    ensures LedgerSum(Rows(posting), Key(po.lines[i].product, Stores)) == ReceivedQty(lines, i)
    decreases |lines|
  {
    if lines != [] {
      var n := |lines| - 1;
      var shorter := posting.(lines := ReceiptLines(po, lines[..n]));
      ReceiptRowsOfLine(po, shorter, lines[..n], i);
      assert Rows(posting)[..n] == Rows(shorter);
      var j := lines[n].poLine;
      assert PoProducts(po.lines)[j] == PoProducts(po.lines)[i] <==> i == j;
      assert Rows(posting)[n].qty == lines[n].qty;
    }
  }

  /** A PO line's fulfilled quantity is the sum of its quantities over all posted GRNs and of
      the matching receipt rows in the ledger. */
  lemma FulfilledIsReceived(s: State, po: nat, i: nat)
    requires PurchasingInv(s) && BooksInv(s.books) && BackedInv(s)
    requires po < |s.orders| && i < |s.orders[po].lines|
    ensures s.orders[po].lines[i].fulfilled == TotalReceived(s.grns, po, i)
    ensures s.orders[po].lines[i].fulfilled ==
      ReceiptRows(s.books.ledger, s.grns, po, Key(s.orders[po].lines[i].product, Stores))
  {
    assert TotalsAgree(s.grns, po, s.orders[po].lines);
    RowsAreReceipts(s, po, i, |s.grns|);
    assert s.grns[..|s.grns|] == s.grns;
  }

  lemma {:induction false} RowsAreReceipts(s: State, po: nat, i: nat, n: nat)
    requires PurchasingInv(s) && BooksInv(s.books) && BackedInv(s)
    requires po < |s.orders| && i < |s.orders[po].lines| && n <= |s.grns|
    ensures TotalReceived(s.grns[..n], po, i) ==
      ReceiptRows(s.books.ledger, s.grns[..n], po, Key(s.orders[po].lines[i].product, Stores))
  {
    if n > 0 {
      RowsAreReceipts(s, po, i, n - 1);
      assert s.grns[..n][..n - 1] == s.grns[..n - 1];
      var g := n - 1;
      if s.grns[g].po == po {
        assert GrnSound(s, g);
        var posting := PayloadOf(s, GrnDocument(g));
        ReceiptRowsOfLine(s.orders[po], posting, s.grns[g].lines, i);
      }
    }
  }

  /** Right after a GRN the order is RECEIVED iff every line's total covers what was ordered;
      totals never decrease, so a covered order stays RECEIVED at every later GRN. */
  lemma ReceivedIffCovered(s: State, po: nat, lines: seq<GrnLine>, s': State)
    requires PurchasingInv(s) && PostGrn(s, po, lines) == Ok(s')
    ensures s'.orders[po].status.Received? <==>
      forall i :: 0 <= i < |s.orders[po].lines| ==>
        s.orders[po].lines[i].qty <= TotalReceived(s.grns, po, i) + ReceivedQty(lines, i)
    ensures s'.orders[po].status.Received? || s'.orders[po].status.PartiallyReceived?
    ensures AllFulfilled(s.orders[po].lines) ==> s'.orders[po].status.Received?
  {
    assert TotalsAgree(s.grns, po, s.orders[po].lines);
    forall i | 0 <= i < |s.orders[po].lines|
      ensures ReceivedQty(lines, i) >= 0
    {
      ReceivedNonNegative(lines, i);
    }
    PostGrnOutcome(s, po, lines, s');
    var fulfilled := s'.orders[po].lines;
    assert forall i :: 0 <= i < |fulfilled| ==>
      && fulfilled[i].qty == s.orders[po].lines[i].qty
      && fulfilled[i].fulfilled == TotalReceived(s.grns, po, i) + ReceivedQty(lines, i);
  }

  /** The request is well formed, Stores exists, and for each line Stores is not deeper below zero
      than what arrives: receipts are posted with the negative-stock guard on. */
  predicate Receivable(s: State, po: nat, lines: seq<GrnLine>) {
    && po < |s.orders|
    && lines != []
    && Distinct(SubmittedLines(lines))
    && LinesOfPo(s.orders[po], lines)
    && ValidGrnLines(lines)
    && s.storesConfigured
    && forall i :: 0 <= i < |lines| ==>
         0 <= OnHand(s.books.balances, Key(s.orders[po].lines[lines[i].poLine].product, Stores)) + lines[i].qty
  }

  lemma {:induction false} ReceiptKeysDistinct(po: PurchaseOrder, lines: seq<GrnLine>)
    requires PoSound(po) && LinesOfPo(po, lines) && Distinct(SubmittedLines(lines))
    ensures DistinctKeys(ReceiptLines(po, lines))
  {
    var ids, products := SubmittedLines(lines), PoProducts(po.lines);
    forall i, j | 0 <= i < j < |lines|
      ensures ReceiptLines(po, lines)[i].key != ReceiptLines(po, lines)[j].key
    {
      assert ids[i] != ids[j];
      assert products[ids[i]] != products[ids[j]];
    }
  }

  lemma {:induction false} ReceiptLineFault(balances: map<Key, int>, line: Line, qty: int)
    requires qty > 0 && line.qty == qty * FINE
    ensures LineFault(balances, line, false).None? <==> 0 <= OnHand(balances, line.key) + qty
  {
    assert Round(line.qty) == qty;
    assert Exact(balances, line) == (OnHand(balances, line.key) + qty) * FINE;
  }

  /** Exactly when a GRN is accepted: goods that really arrived are refused while Stores is further
      below zero than the delivery. */
  lemma {:induction false} ReceiptAcceptedIff(s: State, po: nat, lines: seq<GrnLine>)
    requires PurchasingInv(s) && BooksInv(s.books) && BackedInv(s)
    ensures PostGrn(s, po, lines).Ok? <==> Receivable(s, po, lines)
  {
    if po < |s.orders| && lines != [] && Distinct(SubmittedLines(lines)) && LinesOfPo(s.orders[po], lines) && ValidGrnLines(lines) {
      var receipt := ReceiptLines(s.orders[po], lines);
      FreshNotPosted(s);
      ReceiptKeysDistinct(s.orders[po], lines);
      DistinctFaultFree(s.books.balances, receipt, false);
      forall i | 0 <= i < |lines|
        ensures LineFault(s.books.balances, receipt[i], false).None? <==>
          0 <= OnHand(s.books.balances, Key(s.orders[po].lines[lines[i].poLine].product, Stores)) + lines[i].qty
      {
        ReceiptLineFault(s.books.balances, receipt[i], lines[i].qty);
      }
    }
  }

  // ----- the 3-way match -----

  /** What has been received so far, at the order's own prices. */
  function FulfilledValue(lines: seq<PoLine>): int {
    if lines == [] then 0
    else FulfilledValue(lines[..|lines| - 1]) + lines[|lines| - 1].fulfilled * lines[|lines| - 1].unitPrice
  }

  /** Every GRN line of the order was received at its PO line's price. */
  ghost predicate AtPoPrice(s: State, po: nat)
    requires po < |s.orders|
  {
    forall g, i :: 0 <= g < |s.grns| && s.grns[g].po == po && 0 <= i < |s.grns[g].lines| ==>
      && s.grns[g].lines[i].poLine < |s.orders[po].lines|
      && s.grns[g].lines[i].unitCost == s.orders[po].lines[s.grns[g].lines[i].poLine].unitPrice
  }

  predicate LinesAtPrice(poLines: seq<PoLine>, lines: seq<GrnLine>) {
    forall i :: 0 <= i < |lines| ==> lines[i].poLine < |poLines| && lines[i].unitCost == poLines[lines[i].poLine].unitPrice
  }

  /** Sum over the first `n` PO lines of price times quantity received by some GRN lines. */
  function PricedReceipts(poLines: seq<PoLine>, lines: seq<GrnLine>, n: nat): int
    requires n <= |poLines|
  {
    if n == 0 then 0
    else PricedReceipts(poLines, lines, n - 1) + ReceivedQty(lines, n - 1) * poLines[n - 1].unitPrice
  }

  /** Sum over the first `n` PO lines of price times total quantity received. */
  function PricedTotals(poLines: seq<PoLine>, grns: seq<Grn>, po: nat, n: nat): int
    requires n <= |poLines|
  {
    if n == 0 then 0
    else PricedTotals(poLines, grns, po, n - 1) + TotalReceived(grns, po, n - 1) * poLines[n - 1].unitPrice
  }

  lemma {:induction false} OneMoreLine(poLines: seq<PoLine>, lines: seq<GrnLine>, n: nat)
    requires n <= |poLines| && lines != []
    ensures var last := lines[|lines| - 1];
      PricedReceipts(poLines, lines, n) == PricedReceipts(poLines, lines[..|lines| - 1], n)
        + if last.poLine < n then last.qty * poLines[last.poLine].unitPrice else 0
  {
    if n > 0 {
      OneMoreLine(poLines, lines, n - 1);
      var price, earlier, last := poLines[n - 1].unitPrice, ReceivedQty(lines[..|lines| - 1], n - 1), lines[|lines| - 1];
      assert (earlier + last.qty) * price == earlier * price + last.qty * price;
    }
  }

  /** Interchange within one GRN: line by line, or PO line by PO line. */
  lemma {:induction false} GrnByPoLine(poLines: seq<PoLine>, lines: seq<GrnLine>)
    requires LinesAtPrice(poLines, lines)
    ensures GrnLinesValue(lines) == PricedReceipts(poLines, lines, |poLines|)
  {
    if lines == [] {
      NoReceipts(poLines, |poLines|);
    } else {
      var n := |lines| - 1;
      assert forall i :: 0 <= i < n ==> lines[..n][i] == lines[i];
      GrnByPoLine(poLines, lines[..n]);
      OneMoreLine(poLines, lines, |poLines|);
    }
  }

  lemma {:induction false} NoReceipts(poLines: seq<PoLine>, n: nat)
    requires n <= |poLines|
    ensures PricedReceipts(poLines, [], n) == 0
    ensures forall po :: PricedTotals(poLines, [], po, n) == 0
  {
    if n > 0 {
      NoReceipts(poLines, n - 1);
    }
  }

  lemma {:induction false} OneMoreGrn(poLines: seq<PoLine>, grns: seq<Grn>, po: nat, n: nat)
    requires n <= |poLines| && grns != []
    ensures var last := grns[|grns| - 1];
      PricedTotals(poLines, grns, po, n) == PricedTotals(poLines, grns[..|grns| - 1], po, n)
        + if last.po == po then PricedReceipts(poLines, last.lines, n) else 0
  {
    if n > 0 {
      OneMoreGrn(poLines, grns, po, n - 1);
      var last, price := grns[|grns| - 1], poLines[n - 1].unitPrice;
      var earlier, more := TotalReceived(grns[..|grns| - 1], po, n - 1), ReceivedQty(last.lines, n - 1);
      assert (earlier + more) * price == earlier * price + more * price;
    }
  }

  /** Interchange over all GRNs: the double sum is the total received per PO line, priced. */
  lemma {:induction false} DoubleSum(poLines: seq<PoLine>, grns: seq<Grn>, po: nat)
    requires forall g :: 0 <= g < |grns| && grns[g].po == po ==> LinesAtPrice(poLines, grns[g].lines)
    ensures GrnValue(grns, po) == PricedTotals(poLines, grns, po, |poLines|)
  {
    if grns == [] {
      NoReceipts(poLines, |poLines|);
    } else {
      var n := |grns| - 1;
      assert forall g :: 0 <= g < n ==> grns[..n][g] == grns[g];
      DoubleSum(poLines, grns[..n], po);
      OneMoreGrn(poLines, grns, po, |poLines|);
      if grns[n].po == po {
        GrnByPoLine(poLines, grns[n].lines);
      }
    }
  }

  lemma {:induction false} PricedTotalsIsFulfilled(poLines: seq<PoLine>, grns: seq<Grn>, po: nat, n: nat)
    requires n <= |poLines| && TotalsAgree(grns, po, poLines)
    ensures PricedTotals(poLines, grns, po, n) == FulfilledValue(poLines[..n])
  {
    if n > 0 {
      PricedTotalsIsFulfilled(poLines, grns, po, n - 1);
      assert poLines[..n][..n - 1] == poLines[..n - 1];
    }
  }

  lemma {:induction false} InFullIsPoValue(lines: seq<PoLine>)
    requires forall i :: 0 <= i < |lines| ==> lines[i].fulfilled == lines[i].qty
    ensures FulfilledValue(lines) == PoValue(lines)
  {
    if lines != [] {
      assert forall i :: 0 <= i < |lines| - 1 ==> lines[..|lines| - 1][i] == lines[i];
      InFullIsPoValue(lines[..|lines| - 1]);
    }
  }

  /** At the order's own prices, however the receipts are split over GRNs, the GRN double sum
      is the priced fulfilled quantity; goods received exactly in full are worth the order. */
  lemma GrnValueIsFulfilledValue(s: State, po: nat)
    requires PurchasingInv(s) && po < |s.orders| && AtPoPrice(s, po)
    ensures GrnValue(s.grns, po) == FulfilledValue(s.orders[po].lines)
    ensures (forall i :: 0 <= i < |s.orders[po].lines| ==> s.orders[po].lines[i].fulfilled == s.orders[po].lines[i].qty) ==>
      GrnValue(s.grns, po) == PoValue(s.orders[po].lines)
  {
    var lines := s.orders[po].lines;
    assert TotalsAgree(s.grns, po, lines);
    DoubleSum(lines, s.grns, po);
    PricedTotalsIsFulfilled(lines, s.grns, po, |lines|);
    assert lines[..|lines|] == lines;
    if forall i :: 0 <= i < |lines| ==> lines[i].fulfilled == lines[i].qty {
      InFullIsPoValue(lines);
    }
  }

  /** Goods received exactly in full at PO prices: an invoice matches iff its amount is the
      order's value, and otherwise both discrepancies are recorded. */
  lemma MatchCollapses(s: State, po: nat, ref: string, amount: int, s': State)
    requires PurchasingInv(s) && MatchInvoice(s, po, ref, amount) == Ok(s')
    requires AtPoPrice(s, po)
    requires forall i :: 0 <= i < |s.orders[po].lines| ==> s.orders[po].lines[i].fulfilled == s.orders[po].lines[i].qty
    ensures var invoice, value := s'.invoices[|s.invoices|], PoValue(s.orders[po].lines);
      && (Matched(invoice) <==> amount * 1000 == value)
      && (!Matched(invoice) ==> invoice.poDiscrepancy == Some(value) && invoice.grnDiscrepancy == Some(value))
  {
    GrnValueIsFulfilledValue(s, po);
  }

  /** In general an invoice matches iff its amount is both the order's value and the value of
      the goods received, and each discrepancy is recorded exactly when its value differs. */
  lemma MatchMeans(s: State, po: nat, ref: string, amount: int, s': State)
    requires PurchasingInv(s) && MatchInvoice(s, po, ref, amount) == Ok(s') && AtPoPrice(s, po)
    ensures var invoice := s'.invoices[|s.invoices|];
      && (Matched(invoice) <==> amount * 1000 == PoValue(s.orders[po].lines) == FulfilledValue(s.orders[po].lines))
      && (invoice.grnDiscrepancy.Some? <==> amount * 1000 != FulfilledValue(s.orders[po].lines))
  {
    GrnValueIsFulfilledValue(s, po);
  }
}
