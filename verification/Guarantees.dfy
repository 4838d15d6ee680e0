/** What each component guarantees in every reachable state of the whole back office. */
module Guarantees {
  import opened Prelude
  import opened Ledger
  import opened Accounting
  import opened Recipes
  import opened Deduction
  import opened Model
  import opened Services
  import opened System
  import opened Effects
  import opened Documents
  import opened WastageLifecycle
  import opened SalesLifecycle
  import opened Purchasing
  import opened Invariant
  import opened Runs
  import opened RecipeTables

  // ----- recipes -----

  /** In every reachable state an item has at most one published version, and from its first
      effective date on every date is covered by exactly one version, which `active_for` names. */
  lemma {:induction false} RecipesResolveUniquely(factors: Factors, ops: seq<Op>, posCode: string, first: nat, d: Date)
    requires FactorsPositive(factors) && posCode in After(factors, ops).menu
    requires var vs := After(factors, ops).menu[posCode];
      first < |vs| && Live(vs[first]) && vs[first].from.Some? && vs[first].from.value <= d
    ensures var vs := After(factors, ops).menu[posCode];
      && ActiveFor(vs, d).Some?
      && (forall i :: 0 <= i < |vs| ==> (Covers(vs[i], d) <==> ActiveFor(vs, d) == Some(i)))
      && (forall i, j :: 0 <= i < |vs| && 0 <= j < |vs| && vs[i].status.Published? && vs[j].status.Published? ==> i == j)
  {
    var vs := After(factors, ops).menu[posCode];
    Reachable(factors, ops);
    NoGaps(vs, d, first);
    forall i | 0 <= i < |vs|
      ensures Covers(vs[i], d) <==> ActiveFor(vs, d) == Some(i)
    {
      ResolutionIsUnique(vs, d, i);
    }
    forall i, j | 0 <= i < |vs| && 0 <= j < |vs| && vs[i].status.Published? && vs[j].status.Published?
      ensures i == j
    {
      OnePublished(vs, i, j);
    }
  }

  /** The call publishes a version of the item from a date not after `d`. */
  predicate PublishesBy(op: Op, posCode: string, d: Date) {
    op.OpPublishRecipe? && op.posCode == posCode && op.effectiveFrom.Some? && op.effectiveFrom.value <= d
  }

  /** None of the calls from the `i`-th on publishes a version of the item from a date up to `d`. */
  predicate NonePublishes(ops: seq<Op>, i: nat, posCode: string, d: Date) {
    forall j :: i <= j < |ops| ==> !PublishesBy(ops[j], posCode, d)
  }

  lemma NonePublishesBefore(ops: seq<Op>, i: nat, posCode: string, d: Date)
    requires NonePublishes(ops, i, posCode, d) && i < |ops|
    ensures NonePublishes(ops[..|ops| - 1], i, posCode, d) && !PublishesBy(ops[|ops| - 1], posCode, d)
  {
  }

  /** The item exists, and `active_for` gives `version` for date `d`. */
  predicate ResolvesTo(menu: Menu, posCode: string, d: Date, version: Option<nat>) {
    posCode in menu && ActiveFor(menu[posCode], d) == version
  }

  /** Only publishing from a date not after `d` can change what a date `d` resolves to. */
  lemma StepKeepsResolution(s: State, op: Op, posCode: string, d: Date, version: Option<nat>)
    requires MenuInv(s.menu) && ResolvesTo(s.menu, posCode, d, version) && !PublishesBy(op, posCode, d)
    ensures ResolvesTo(Next(s, op).menu, posCode, d, version)
  {
    if Step(s, op).Ok? {
      if !MenuStep(op) {
        StepTablesKept(s, op, Step(s, op).value);
      } else {
        MenuStepKeepsResolution(s, op, posCode, d, Step(s, op).value, version);
      }
    }
  }

  lemma MenuStepKeepsResolution(s: State, op: Op, posCode: string, d: Date, s': State, version: Option<nat>)
    requires MenuStep(op) && Step(s, op) == Ok(s')
    requires MenuInv(s.menu) && ResolvesTo(s.menu, posCode, d, version) && !PublishesBy(op, posCode, d)
    ensures ResolvesTo(s'.menu, posCode, d, version)
  {
    MenuOutcome(s, op, s');
    if op.posCode == posCode && !op.OpCreateMenuItem? {
      var vs := s.menu[posCode];
      if op.OpPublishRecipe? {
        PublishPreservesHistory(vs, op.version, op.effectiveFrom, d);
      } else if op.OpCreateRecipe? {
        DraftsKeepResolution(vs, op.recipe, 0, d);
      } else {
        DraftsKeepResolution(vs, [], op.version, d);
      }
    }
  }

  /** Drafts and reviews answer for no date. */
  lemma DraftsKeepResolution(vs: History, lines: seq<RecipeLine>, i: nat, d: Date)
    requires Chain(vs)
    ensures CreateVersion(vs, lines).Ok? ==> ActiveFor(CreateVersion(vs, lines).value, d) == ActiveFor(vs, d)
    ensures SubmitForReview(vs, i).Ok? ==> ActiveFor(SubmitForReview(vs, i).value, d) == ActiveFor(vs, d)
  {
    OtherStepsKeepChain(vs, lines, i);
    if CreateVersion(vs, lines).Ok? {
      SameCover(vs, CreateVersion(vs, lines).value, d);
    }
    if SubmitForReview(vs, i).Ok? {
      SameCover(vs, SubmitForReview(vs, i).value, d);
    }
  }

  /** History is preserved: through any calls that publish nothing for the item from a date not
      after `d`, the recipe in force on `d` stays the same. */
  lemma {:induction false} ResolutionIsStable(factors: Factors, ops: seq<Op>, i: nat, posCode: string, d: Date, version: Option<nat>)
    requires FactorsPositive(factors) && i <= |ops| && ResolvesTo(After(factors, ops[..i]).menu, posCode, d, version)
    requires NonePublishes(ops, i, posCode, d)
    ensures ResolvesTo(After(factors, ops).menu, posCode, d, version)
    decreases |ops|
  {
    if i == |ops| {
      assert ops[..i] == ops;
    } else {
      var n := |ops| - 1;
      assert ops[..n][..i] == ops[..i];
      NonePublishesBefore(ops, i, posCode, d);
      ResolutionIsStable(factors, ops[..n], i, posCode, d, version);
      OneMoreCallResolves(factors, ops, posCode, d, version);
    }
  }

  lemma {:induction false} OneMoreCallResolves(factors: Factors, ops: seq<Op>, posCode: string, d: Date, version: Option<nat>)
    requires FactorsPositive(factors) && ops != [] && !PublishesBy(ops[|ops| - 1], posCode, d)
    requires ResolvesTo(After(factors, ops[..|ops| - 1]).menu, posCode, d, version)
    ensures ResolvesTo(After(factors, ops).menu, posCode, d, version)
  {
    Reachable(factors, ops[..|ops| - 1]);
    StepKeepsResolution(After(factors, ops[..|ops| - 1]), ops[|ops| - 1], posCode, d, version);
  }

  /** Every reachable menu satisfies its check constraint, which is all that `Call` asks for. */
  lemma {:induction false} CallIsAlwaysPossible(factors: Factors, ops: seq<Op>)
    requires FactorsPositive(factors)
    ensures StoredVersions(After(factors, ops).menu)
  {
    Reachable(factors, ops);
    var menu := After(factors, ops).menu;
    forall posCode, i | posCode in menu && 0 <= i < |menu[posCode]|
      ensures WindowValid(menu[posCode][i])
    {
      assert Chain(menu[posCode]);
    }
  }

  // ----- wastage -----

  /** In every reachable state a wastage entry's status says exactly what became of it. */
  lemma {:induction false} WastageIsExact(factors: Factors, ops: seq<Op>, id: nat)
    requires FactorsPositive(factors) && id < |After(factors, ops).wastage|
    ensures StatusMeans(After(factors, ops), id)
  {
    Reachable(factors, ops);
    WastageStatusMeans(After(factors, ops), id);
  }

  // ----- receipts -----

  /** Over any run a PO line's fulfilled quantity is what all posted GRNs received on it and what
      the ledger's receipt rows of those GRNs add up to, and it never decreases. */
  lemma ReceiptsAreExact(factors: Factors, ops: seq<Op>, i: nat, po: nat, l: nat)
    requires FactorsPositive(factors) && i <= |ops|
    requires po < |After(factors, ops[..i]).orders| && l < |After(factors, ops[..i]).orders[po].lines|
    ensures var s, s' := After(factors, ops[..i]), After(factors, ops);
      && po < |s'.orders| && l < |s'.orders[po].lines|
      && s'.orders[po].lines[l].fulfilled == TotalReceived(s'.grns, po, l)
      && s'.orders[po].lines[l].fulfilled ==
           ReceiptRows(s'.books.ledger, s'.grns, po, Key(s'.orders[po].lines[l].product, Stores))
      && s.orders[po].lines[l].fulfilled <= s'.orders[po].lines[l].fulfilled
  {
    HistoryIsKept(factors, ops, i);
    Reachable(factors, ops);
    var s, s' := After(factors, ops[..i]), After(factors, ops);
    assert SamePo(s.orders[po], s'.orders[po]);
    FulfilledIsReceived(s', po, l);
  }

  /** In every reachable state, when everything has been received exactly in full at the order's
      prices, an invoice matches iff its amount is the order's value, and otherwise both
      discrepancies are recorded. */
  lemma {:induction false} InvoiceMatchCollapses(factors: Factors, ops: seq<Op>, po: nat, ref: string, amount: int, s': State)
    requires FactorsPositive(factors) && MatchInvoice(After(factors, ops), po, ref, amount) == Ok(s')
    requires AtPoPrice(After(factors, ops), po)
    requires InFull(After(factors, ops).orders[po])
    ensures var invoice, value := s'.invoices[|s'.invoices| - 1], PoValue(After(factors, ops).orders[po].lines);
      && (Matched(invoice) <==> amount * 1000 == value)
      && (!Matched(invoice) ==> invoice.poDiscrepancy == Some(value) && invoice.grnDiscrepancy == Some(value))
  {
    Reachable(factors, ops);
    MatchCollapses(After(factors, ops), po, ref, amount, s');
  }

  predicate InFull(po: PurchaseOrder) {
    forall i :: 0 <= i < |po.lines| ==> po.lines[i].fulfilled == po.lines[i].qty
  }

  /** In every reachable state, exactly when goods are accepted. */
  lemma {:induction false} GoodsAreAcceptedIff(factors: Factors, ops: seq<Op>, po: nat, lines: seq<GrnLine>)
    requires FactorsPositive(factors)
    ensures PostGrn(After(factors, ops), po, lines).Ok? <==> Receivable(After(factors, ops), po, lines)
  {
    Reachable(factors, ops);
    ReceiptAcceptedIff(After(factors, ops), po, lines);
  }

  // ----- order status -----

  /** What an order's status says about its receipts. Sending overwrites the status, whatever it was. */
  predicate OrderStatusMeans(po: PurchaseOrder) {
    && po.lines != []
    && match po.status
       case Created => forall i :: 0 <= i < |po.lines| ==> po.lines[i].fulfilled == 0 < po.lines[i].qty
       case PartiallyReceived => !AllFulfilled(po.lines)
       case Received => AllFulfilled(po.lines)
       case _ => true
  }

  predicate JustSent(po: PurchaseOrder) { po.status.SentToSupplier? || po.status.ManualContact? }

  predicate StatusesMean(orders: seq<PurchaseOrder>) {
    forall po :: 0 <= po < |orders| ==> OrderStatusMeans(orders[po])
  }

  lemma {:induction false} OrderStepKeeps(s: State, op: Op, s': State)
    requires Step(s, op) == Ok(s') && StatusesMean(s.orders)
    ensures StatusesMean(s'.orders)
  {
    if op.OpPostGrn? {
      PostGrnOutcome(s, op.po, op.received, s');
    } else if !OrderStep(op) {
      StepTablesKept(s, op, s');
    }
  }

  lemma {:induction false} StatusesAlwaysMean(factors: Factors, ops: seq<Op>)
    ensures StatusesMean(After(factors, ops).orders)
  {
    if ops != [] {
      var n := |ops| - 1;
      var s := After(factors, ops[..n]);
      StatusesAlwaysMean(factors, ops[..n]);
      if Step(s, ops[n]).Ok? {
        OrderStepKeeps(s, ops[n], Step(s, ops[n]).value);
      }
    }
  }

  /** Of the calls that set the order's status, sends and committed GRNs, the last one was a send. */
  predicate SentLast(factors: Factors, ops: seq<Op>, po: nat) {
    if ops == [] then false
    else
      var n := |ops| - 1;
      var s := After(factors, ops[..n]);
      if ops[n].OpSendPo? && ops[n].po == po && po < |s.orders| then true
      else if ops[n].OpPostGrn? && ops[n].po == po && Step(s, ops[n]).Ok? then false
      else SentLast(factors, ops[..n], po)
  }

  /** What a step does to the status of an order: a send sets it to a sent one, a committed GRN to
      another, creation to CREATED, and nothing else touches it. */
  lemma {:induction false} StepStatus(s: State, op: Op, s': State, po: nat)
    requires Step(s, op) == Ok(s')
    ensures |s.orders| <= |s'.orders|
    ensures po < |s'.orders| ==>
      JustSent(s'.orders[po]) ==
        if po >= |s.orders| then false
        else if op.OpSendPo? && op.po == po then true
        else if op.OpPostGrn? && op.po == po then false
        else JustSent(s.orders[po])
  {
    if op.OpPostGrn? {
      PostGrnOutcome(s, op.po, op.received, s');
    } else if !OrderStep(op) {
      StepTablesKept(s, op, s');
    }
  }

  /** The status is a sent one exactly when the last call that set it was a send. */
  lemma {:induction false} SentIffSentLast(factors: Factors, ops: seq<Op>, po: nat)
    ensures po >= |After(factors, ops).orders| ==> !SentLast(factors, ops, po)
    ensures po < |After(factors, ops).orders| ==> (JustSent(After(factors, ops).orders[po]) <==> SentLast(factors, ops, po))
  {
    if ops != [] {
      var n := |ops| - 1;
      var s := After(factors, ops[..n]);
      SentIffSentLast(factors, ops[..n], po);
      if Step(s, ops[n]).Ok? {
        StepStatus(s, ops[n], Step(s, ops[n]).value, po);
      }
    }
  }

  /** Over any run an order is RECEIVED iff every line is covered and, of the sends and committed
      GRNs on it, the last was not a send: sending a received order again loses that status until
      the next GRN. */
  lemma {:induction false} OrderStatusIsExact(factors: Factors, ops: seq<Op>, po: nat)
    requires po < |After(factors, ops).orders|
    ensures var order := After(factors, ops).orders[po];
      && OrderStatusMeans(order)
      && (JustSent(order) <==> SentLast(factors, ops, po))
      && (order.status.Received? <==> AllFulfilled(order.lines) && !SentLast(factors, ops, po))
  {
    StatusesAlwaysMean(factors, ops);
    SentIffSentLast(factors, ops, po);
    var order := After(factors, ops).orders[po];
    assert OrderStatusMeans(order);
    assert order.status.Created? ==> order.lines[0].fulfilled < order.lines[0].qty;
  }

  /** Sending changes the status of one order and nothing else in any table. */
  lemma {:induction false} SendingOnlyMarks(s: State, po: nat, hasEmail: bool)
    requires po < |s.orders|
    ensures var s' := Next(s, OpSendPo(po, hasEmail));
      && s' == s.(orders := s'.orders)
      && |s'.orders| == |s.orders|
      && JustSent(s'.orders[po])
      && s'.orders[po].lines == s.orders[po].lines
      && forall other :: 0 <= other < |s.orders| && other != po ==> s'.orders[other] == s.orders[other]
  {
  }

  // ----- sales -----

  /** In every reachable state a new, fully resolved sale is taken iff Stores exists and every
      deduction is large enough to be stored; it is then flagged iff some Stores balance would
      go below zero, and either way each balance ends at what it was less the order's need. */
  lemma {:induction false} ResolvedSaleIsTaken(factors: Factors, ops: seq<Op>, saleId: string, soldOn: Date, raw: seq<RawLine>, k: Key)
    requires FactorsPositive(factors) && FreshResolved(After(factors, ops), saleId, soldOn, raw)
    ensures var s := After(factors, ops);
      Ingest(s, saleId, Some(soldOn), raw).Ok? <==> s.storesConfigured && Storable(s, NewItems(s.menu, raw, soldOn))
    ensures Ingest(After(factors, ops), saleId, Some(soldOn), raw).Ok? ==>
      TakenAs(After(factors, ops), NewItems(After(factors, ops).menu, raw, soldOn), k,
              Ingest(After(factors, ops), saleId, Some(soldOn), raw).value)
  {
    var s := After(factors, ops);
    Reachable(factors, ops);
    ResolvedIngestCommitsIff(s, saleId, soldOn, raw);
    if Ingest(s, saleId, Some(soldOn), raw).Ok? {
      ResolvedIngestEffect(s, saleId, soldOn, raw, Ingest(s, saleId, Some(soldOn), raw).value, k);
    }
  }

  ghost predicate TakenAs(s: State, items: seq<OrderItem>, k: Key, s': State) {
    && |s'.sales| == |s.sales| + 1
    && (s'.sales[|s.sales|].insufficient <==> Short(s, items))
    && OnHand(s'.books.balances, k) == Round(OnHand(s.books.balances, k) * FINE - NeedAt(s.menu, s.factors, items, k))
  }

  // ----- the outbox -----

  /** In every reachable state a document has ledger rows iff it has an outbox record, and then
      exactly one, whose payload lists those rows in order; replaying all payloads from empty
      stock gives the ledger and every balance. */
  lemma {:induction false} OutboxIsMirror(factors: Factors, ops: seq<Op>, document: Document)
    requires FactorsPositive(factors)
    ensures var b := After(factors, ops).books;
      && Mirrored(b, document)
      && b.ledger == AllRows(Payloads(b.outbox))
      && b.balances == Settle(map[], Journal(Payloads(b.outbox)))
  {
    Reachable(factors, ops);
    OutboxMirrorsLedger(After(factors, ops).books, document);
  }
}
