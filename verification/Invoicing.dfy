/** The 3-way match at whatever cost goods were received (backend/apps/procurement/services.py,
    `match_invoice`). */
module Invoicing {
  import opened Prelude
  import opened Ledger
  import opened Accounting
  import opened Deduction
  import opened Model
  import opened Services
  import opened System
  import opened Effects
  import opened Documents
  import opened SalesLifecycle
  import opened Purchasing
  import opened Invariant
  import opened Runs

  // ----- what is compared -----

  /** What a GRN's lines cost: each quantity at that line's own unit cost. */
  function Cost(received: seq<GrnLine>): int {
    if received == [] then 0 else received[0].qty * received[0].unitCost + Cost(received[1..])
  }

  /** What an order asks to pay: each ordered quantity at its price. */
  function Price(lines: seq<PoLine>): int {
    if lines == [] then 0 else lines[0].qty * lines[0].unitPrice + Price(lines[1..])
  }

  lemma {:induction false} CostAppend(received: seq<GrnLine>, last: GrnLine)
    ensures Cost(received + [last]) == Cost(received) + last.qty * last.unitCost
  {
    if received == [] {
      assert received + [last] == [last] && Cost([last][1..]) == 0;
    } else {
      assert (received + [last])[1..] == received[1..] + [last];
      CostAppend(received[1..], last);
    }
  }

  lemma {:induction false} PriceAppend(lines: seq<PoLine>, last: PoLine)
    ensures Price(lines + [last]) == Price(lines) + last.qty * last.unitPrice
  {
    if lines == [] {
      assert lines + [last] == [last] && Price([last][1..]) == 0;
    } else {
      assert (lines + [last])[1..] == lines[1..] + [last];
      PriceAppend(lines[1..], last);
    }
  }

  lemma {:induction false} GrnLinesCost(received: seq<GrnLine>)
    ensures GrnLinesValue(received) == Cost(received)
  {
    if received != [] {
      var n := |received| - 1;
      assert received[..n] + [received[n]] == received;
      GrnLinesCost(received[..n]);
      CostAppend(received[..n], received[n]);
    }
  }

  lemma {:induction false} PoValueIsPrice(lines: seq<PoLine>)
    ensures PoValue(lines) == Price(lines)
  {
    if lines != [] {
      var n := |lines| - 1;
      assert lines[..n] + [lines[n]] == lines;
      PoValueIsPrice(lines[..n]);
      PriceAppend(lines[..n], lines[n]);
    }
  }

  // ----- the value received, over runs -----

  /** What the committed receipts on an order have cost so far, call by call. */
  function ReceivedCost(factors: Factors, ops: seq<Op>, po: nat): int {
    if ops == [] then 0
    else
      var n := |ops| - 1;
      ReceivedCost(factors, ops[..n], po)
      + if ops[n].OpPostGrn? && ops[n].po == po && Step(After(factors, ops[..n]), ops[n]).Ok? then Cost(ops[n].received) else 0
  }

  lemma {:induction false} GrnStepAdds(s: State, op: Op, s': State, po: nat)
    requires op.OpPostGrn? && Step(s, op) == Ok(s')
    ensures GrnValue(s'.grns, po) == GrnValue(s.grns, po) + if op.po == po then Cost(op.received) else 0
  {
    PostGrnOutcome(s, op.po, op.received, s');
    assert s'.grns[..|s'.grns| - 1] == s.grns;
    GrnLinesCost(op.received);
  }

  lemma {:induction false} OtherStepAddsNothing(s: State, op: Op, s': State)
    requires !op.OpPostGrn? && Step(s, op) == Ok(s')
    ensures s'.grns == s.grns
  {
    StepTablesKept(s, op, s');
  }

  /** A committed GRN adds what its own lines cost to its order's value received and nothing to any
      other; no other call changes it. */
  lemma {:induction false} GrnValueIsReceivedCost(factors: Factors, ops: seq<Op>, po: nat)
    ensures GrnValue(After(factors, ops).grns, po) == ReceivedCost(factors, ops, po)
  {
    if ops != [] {
      var n := |ops| - 1;
      var s, op := After(factors, ops[..n]), ops[n];
      GrnValueIsReceivedCost(factors, ops[..n], po);
      if Step(s, op).Ok? {
        if op.OpPostGrn? {
          GrnStepAdds(s, op, Step(s, op).value, po);
        } else {
          OtherStepAddsNothing(s, op, Step(s, op).value);
        }
      }
    }
  }

  // ----- the match -----

  /** A value is recorded as a discrepancy iff the amount (cents) differs from it. */
  predicate Recorded(discrepancy: Option<int>, amount: int, value: int) {
    if amount * 1000 == value then discrepancy.None? else discrepancy == Some(value)
  }

  /** The invoice of an order for an amount, matched against what was ordered and what was received. */
  predicate InvoiceOf(s: State, po: nat, ref: string, amount: int, received: int, invoice: Invoice)
    requires po < |s.orders|
  {
    && invoice.supplier == s.orders[po].supplier && invoice.ref == ref && invoice.po == po && invoice.amount == amount
    && Recorded(invoice.poDiscrepancy, amount, Price(s.orders[po].lines))
    && Recorded(invoice.grnDiscrepancy, amount, received)
    && (Matched(invoice) <==> amount * 1000 == Price(s.orders[po].lines) == received)
  }

  /** The supplier has not used the reference before. */
  predicate NewRef(s: State, po: nat, ref: string)
    requires po < |s.orders|
  {
    forall i :: 0 <= i < |s.invoices| ==> s.invoices[i].supplier != s.orders[po].supplier || s.invoices[i].ref != ref
  }

  /** In every reachable state an invoice is accepted iff its order exists, its amount is not negative
      and its reference is new for the supplier; it is then added, and nothing else changes. It matches
      iff its amount is both the price of what was ordered and the cost of what was received, and each
      of the two is recorded as a discrepancy iff the amount differs from it. */
  lemma {:induction false} InvoicesAreMatched(factors: Factors, ops: seq<Op>, po: nat, ref: string, amount: int)
    ensures var s := After(factors, ops);
      && (MatchInvoice(s, po, ref, amount).Ok? <==> po < |s.orders| && 0 <= amount && NewRef(s, po, ref))
      && (MatchInvoice(s, po, ref, amount).Ok? ==>
            var s' := MatchInvoice(s, po, ref, amount).value;
            && s' == s.(invoices := s'.invoices)
            && |s'.invoices| == |s.invoices| + 1
            && s'.invoices[..|s.invoices|] == s.invoices
            && InvoiceOf(s, po, ref, amount, ReceivedCost(factors, ops, po), s'.invoices[|s.invoices|]))
  {
    var s := After(factors, ops);
    GrnValueIsReceivedCost(factors, ops, po);
    if po < |s.orders| {
      PoValueIsPrice(s.orders[po].lines);
    }
  }

  // ----- invoices over runs -----

  /** One supplier never has two invoices of one reference, and none is negative. */
  predicate InvoicesSound(invoices: seq<Invoice>) {
    && (forall i :: 0 <= i < |invoices| ==> 0 <= invoices[i].amount)
    && (forall i, j :: 0 <= i < j < |invoices| ==>
          invoices[i].supplier != invoices[j].supplier || invoices[i].ref != invoices[j].ref)
  }

  lemma {:induction false} DecideKeepsInvoices(s: State, op: Op, s': State)
    requires op.OpDecide? && Step(s, op) == Ok(s')
    ensures s'.invoices == s.invoices
  {
    var subject, decided := s.approvals[op.approval].subject, Decided(s, op.approval, op.decision);
    if !subject.OnBudget? {
      CallbackTables(decided, subject, op.decision);
    }
  }

  lemma {:induction false} WritingKeepsInvoices(s: State, op: Op, s': State)
    requires Step(s, op) == Ok(s') && Writes(s, op).Some? && !op.OpDecide?
    ensures s'.invoices == s.invoices
  {
    match op
    case OpPostIssue(id, override) => IssueTables(s, id, override);
    case OpPostTransfer(id) => TransferTables(s, id, false);
    case OpPostTake(id) => TakeTables(s, id, false);
    case OpCreateWastage(_, _, _, _) => CreateWastageTables(s, op, s');
    case OpIngest(_, _, _) => IngestTables(s, op, s');
    case OpReplay(id) => ReplayTables(s, id);
    case OpPostGrn(_, _) =>
  }

  lemma {:induction false} QuietKeepsInvoices(s: State, op: Op, s': State)
    requires Step(s, op) == Ok(s') && Writes(s, op).None? && !op.OpDecide? && !op.OpMatchInvoice?
    ensures s'.invoices == s.invoices
  {
    if MenuStep(op) {
      MenuTables(s, op, s');
    } else if op.OpDrain? || op.OpResend? {
      OutboxTables(s, op, s');
    } else if op.OpRecordCounts? {
      CountsTables(s, op.id, op.counts);
    }
  }

  lemma {:induction false} StepKeepsInvoices(s: State, op: Op, s': State)
    requires Step(s, op) == Ok(s') && InvoicesSound(s.invoices)
    ensures s.invoices <= s'.invoices && InvoicesSound(s'.invoices)
  {
    if op.OpDecide? {
      DecideKeepsInvoices(s, op, s');
    } else if Writes(s, op).Some? {
      WritingKeepsInvoices(s, op, s');
    } else if !op.OpMatchInvoice? {
      QuietKeepsInvoices(s, op, s');
    }
  }

  /** Over any run invoices are only added, one per supplier and reference, none negative. */
  lemma {:induction false} InvoicesAreFinal(factors: Factors, ops: seq<Op>, i: nat)
    requires i <= |ops|
    ensures After(factors, ops[..i]).invoices <= After(factors, ops).invoices
    ensures InvoicesSound(After(factors, ops).invoices)
    decreases |ops|
  {
    var n := |ops| - 1;
    if i == |ops| {
      assert ops[..i] == ops;
    } else {
      assert ops[..n][..i] == ops[..i];
    }
    if ops != [] {
      InvoicesAreFinal(factors, ops[..n], if i <= n then i else n);
      var s := After(factors, ops[..n]);
      if Step(s, ops[n]).Ok? {
        StepKeepsInvoices(s, ops[n], Step(s, ops[n]).value);
      }
    }
  }
}
