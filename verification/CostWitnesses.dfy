/** Concrete runs on which the cost on a receipt decides: which one routes a transfer, and how a cost
    other than the order's price fails the match. */
module CostWitnesses {
  import opened Prelude
  import opened Ledger
  import opened Accounting
  import opened Deduction
  import opened Model
  import opened Services
  import opened System
  import opened Effects
  import opened Documents
  import opened SalesLifecycle
  import opened Invariant
  import opened Witnesses
  import opened QueueWitnesses
  import opened Valuation
  import opened Invoicing
  import opened CallEffects

  function Goods(cost: nat): seq<GrnLine> { [GrnLine(0, 10_000, cost)] }

  function Arrived(cost: nat): Line { Line(AT_STORES, 10_000 * FINE, GrnReceipt, Some(cost)) }

  /** Ten more units of the order arrive, at some cost. */
  function WithGoods(s: State, fulfilled: int, cost: nat): State {
    s.(orders := [PurchaseOrder(0, [ORDERED[0].(fulfilled := fulfilled)], Received)],
       grns := s.grns + [Grn(0, Goods(cost))],
       books := WithLine(s.books, GrnDocument(|s.grns|), Arrived(cost)))
  }

  lemma {:induction false} TenArrive(s: State, status: PoStatus, earlier: nat, cost: nat)
    requires s.orders == [PurchaseOrder(0, [ORDERED[0].(fulfilled := earlier)], status)] && s.storesConfigured
    requires OnHand(s.books.balances, AT_STORES) >= 0 && !IsPosted(s.books, GrnDocument(|s.grns|))
    ensures Step(s, OpPostGrn(0, Goods(cost))) == Ok(WithGoods(s, earlier + 10_000, cost))
  {
    var order, after := s.orders[0], WithGoods(s, earlier + 10_000, cost).orders[0];
    assert Goods(cost)[..0] == [] && ReceivedQty(Goods(cost)[..0], 0) == 0;
    assert ReceivedQty(Goods(cost), 0) == 10_000;
    assert Fulfil(order.lines, Goods(cost)) == after.lines;
    assert ReceiptLines(order, Goods(cost)) == [Arrived(cost)];
    assert Round(10_000 * FINE) == 10_000;
    OneLinePosts(s, GrnDocument(|s.grns|), Arrived(cost), false);
    assert AllFulfilled(after.lines);
    assert s.orders[0 := after] == [after];
  }

  // ----- only the newer cost routes the transfer -----

  const TEN_UNITS := [ItemQty(PRODUCT, 10_000)]

  /** Ten units at two, and ten more at nine. */
  function DearOps(): seq<Op> { GoodsOps() + [OpPostGrn(0, Goods(900))] }

  function MoveTen(): seq<Op> {
    [OpSetThreshold(TransferScope, Some(5_000)), OpCreateTransfer(Stores, Kitchen, TEN_UNITS), OpPostTransfer(0)]
  }

  lemma {:induction false} DearGoods()
    ensures Step(Stocked(), OpPostGrn(0, Goods(900))) == Ok(WithGoods(Stocked(), 20_000, 900))
  {
    StockedFacts();
    TenArrive(Stocked(), Received, 10_000, 900);
  }

  lemma {:induction false} DearRun()
    ensures After(NONE, DearOps()) == WithGoods(Stocked(), 20_000, 900)
  {
    GoodsRun();
    DearGoods();
    OneMore(NONE, GoodsOps(), OpPostGrn(0, Goods(900)), Stocked(), WithGoods(Stocked(), 20_000, 900));
  }

  lemma {:induction false} DearCost()
    ensures LatestUnitCost(WithGoods(Stocked(), 20_000, 900).books.ledger, PRODUCT) == 900
  {
    UnitCostIsNewest(WithGoods(Stocked(), 20_000, 900).books.ledger, PRODUCT, 1);
  }

  function Limited(s: State): State { s.(thresholds := map[TransferScope := 5_000]) }

  lemma {:induction false} LimitIsSet(ops: seq<Op>, s: State)
    requires After(NONE, ops) == s && s.thresholds == map[]
    ensures After(NONE, ops + MoveTen()[..1]) == Limited(s)
  {
    assert MoveTen()[..1] == [MoveTen()[0]];
    OneMore(NONE, ops, MoveTen()[0], s, Limited(s));
  }

  lemma {:induction false} LastTwo(ops: seq<Op>)
    ensures After(NONE, ops + MoveTen()) == Next(Next(After(NONE, ops + MoveTen()[..1]), MoveTen()[1]), MoveTen()[2])
  {
    var all := ops + MoveTen();
    assert all[..|all| - 1] == ops + MoveTen()[..2];
    assert (ops + MoveTen()[..2])[..|ops| + 1] == ops + MoveTen()[..1];
  }

  lemma {:induction false} TenAreQueued(s: State)
    requires s.transfers == [] && TransferScope in s.thresholds && s.thresholds[TransferScope] == 5_000
    requires LatestUnitCost(s.books.ledger, PRODUCT) == 900
    ensures var s' := TransferAtOnce(s, Stores, Kitchen, TEN_UNITS);
      && |s'.transfers| == 1 && s'.transfers[0].status.PendingApproval? && s'.books == s.books
      && s'.approvals == s.approvals + [Approval(OnTransfer(0), Some(TransferScope), Some(5_000), Undecided)]
  {
    var drafted := s.(transfers := [Move(Stores, Kitchen, TEN_UNITS, DraftDoc)]);
    assert s.transfers + drafted.transfers == drafted.transfers;
    OneItemValue(s.books.ledger, 10_000);
    TransferQueuedIff(drafted, 0);
  }

  lemma {:induction false} TenArePosted(ops: seq<Op>, s: State)
    requires After(NONE, ops) == s && s.transfers == [] && TransferScope in s.thresholds && s.thresholds[TransferScope] == 5_000
    requires LatestUnitCost(s.books.ledger, PRODUCT) == 200
    requires OnHand(s.books.balances, AT_STORES) == 10_000 && OnHand(s.books.balances, Key(PRODUCT, Kitchen)) == 0
    ensures var s' := TransferAtOnce(s, Stores, Kitchen, TEN_UNITS);
      && |s'.transfers| == 1 && s'.transfers[0].status.PostedDoc?
      && OnHand(s'.books.balances, Key(PRODUCT, Kitchen)) == 10_000
  {
    OneItemValue(s.books.ledger, 10_000);
    TransferMovesGoods(NONE, ops, Stores, Kitchen, TEN_UNITS);
  }

  /** Ten units received at two each move freely under a threshold of fifty; once ten more have arrived at
      nine each, the same transfer waits for the Manager. */
  lemma {:induction false} NewerCostRoutes()
    ensures var s := After(NONE, GoodsOps() + MoveTen());
      |s.transfers| == 1 && s.transfers[0].status.PostedDoc? && OnHand(s.books.balances, Key(PRODUCT, Kitchen)) == 10_000
    ensures var s := After(NONE, DearOps() + MoveTen());
      && |s.transfers| == 1 && s.transfers[0].status.PendingApproval?
      && OnHand(s.books.balances, Key(PRODUCT, Kitchen)) == 0
      && |s.approvals| == 2 && s.approvals[1] == Approval(OnTransfer(0), Some(TransferScope), Some(5_000), Undecided)
  {
    GoodsRun();
    StockedFacts();
    KitchenIsEmpty();
    LimitIsSet(GoodsOps(), Stocked());
    LastTwo(GoodsOps());
    TenArePosted(GoodsOps() + MoveTen()[..1], Limited(Stocked()));
    var dear := WithGoods(Stocked(), 20_000, 900);
    DearRun();
    DearCost();
    LimitIsSet(DearOps(), dear);
    LastTwo(DearOps());
    TenAreQueued(Limited(dear));
  }

  // ----- a cost other than the price fails the match -----

  /** Ten units ordered at 2.00 are received in full at 2.50, and invoiced at 20.00. */
  function OverchargedOps(): seq<Op> {
    GoodsOps()[..5] + [OpPostGrn(0, Goods(250))] + [OpMatchInvoice(0, "inv", 2_000)]
  }

  lemma {:induction false} OrderedRun()
    ensures After(NONE, GoodsOps()[..5]) == Ordered()
  {
    var ops := GoodsOps();
    BudgetApprovedRun();
    OrderIsRaised();
    OneMore(NONE, ops[..4], ops[4], Budgeted(), Ordered());
    assert ops[..4] + [ops[4]] == ops[..5];
  }

  lemma {:induction false} OverchargedGoods()
    ensures Step(Ordered(), OpPostGrn(0, Goods(250))) == Ok(WithGoods(Ordered(), 10_000, 250))
  {
    assert ORDERED == [ORDERED[0].(fulfilled := 0)];
    TenArrive(Ordered(), Created, 0, 250);
  }

  lemma {:induction false} OverchargedRun()
    ensures After(NONE, GoodsOps()[..5] + [OpPostGrn(0, Goods(250))]) == WithGoods(Ordered(), 10_000, 250)
  {
    OrderedRun();
    OverchargedGoods();
    OneMore(NONE, GoodsOps()[..5], OpPostGrn(0, Goods(250)), Ordered(), WithGoods(Ordered(), 10_000, 250));
  }

  lemma {:induction false} OverchargedValues()
    ensures PoValue(WithGoods(Ordered(), 10_000, 250).orders[0].lines) == 2_000_000
    ensures GrnValue(WithGoods(Ordered(), 10_000, 250).grns, 0) == 2_500_000
  {
    OneLinePrice(ORDERED[0].(fulfilled := 10_000));
    OneGrnCost(GrnLine(0, 10_000, 250));
    assert WithGoods(Ordered(), 10_000, 250).grns == [Grn(0, [GrnLine(0, 10_000, 250)])];
  }

  lemma {:induction false} OneLinePrice(line: PoLine)
    ensures PoValue([line]) == line.qty * line.unitPrice
  {
    PoValueIsPrice([line]);
    assert [line][1..] == [] && Price([line][1..]) == 0;
  }

  lemma {:induction false} OneGrnCost(line: GrnLine)
    ensures GrnValue([Grn(0, [line])], 0) == line.qty * line.unitCost
  {
    var grns := [Grn(0, [line])];
    GrnLinesCost([line]);
    assert [line][1..] == [] && Cost([line][1..]) == 0;
    assert grns[..0] == [] && GrnValue(grns[..0], 0) == 0;
  }

  function Mismatched(s: State): State {
    s.(invoices := [Invoice(0, "inv", 0, 2_000, None, Some(2_500_000))])
  }

  lemma {:induction false} OverchargedMatch(s: State)
    requires |s.orders| == 1 && s.orders[0].supplier == 0 && s.invoices == []
    requires PoValue(s.orders[0].lines) == 2_000_000 && GrnValue(s.grns, 0) == 2_500_000
    ensures Step(s, OpMatchInvoice(0, "inv", 2_000)) == Ok(Mismatched(s))
  {
    assert s.invoices + Mismatched(s).invoices == Mismatched(s).invoices;
  }

  lemma {:induction false} OverchargedRow()
    ensures WithGoods(Ordered(), 10_000, 250).books.ledger == [Movement(AT_STORES, 10_000, GrnReceipt, Some(250), GrnDocument(0))]
  {
    assert Round(10_000 * FINE) == 10_000;
  }

  /** The invoice agrees with the order, not with what was received: the match records the cost received,
      which is also what the ledger's row carries. */
  lemma {:induction false} CostFailsMatch()
    ensures var s := After(NONE, OverchargedOps());
      && s.invoices == [Invoice(0, "inv", 0, 2_000, None, Some(2_500_000))]
      && !Matched(s.invoices[0])
      && s.books.ledger == [Movement(AT_STORES, 10_000, GrnReceipt, Some(250), GrnDocument(0))]
  {
    var received := WithGoods(Ordered(), 10_000, 250);
    OverchargedRun();
    OverchargedValues();
    OverchargedMatch(received);
    OneMore(NONE, GoodsOps()[..5] + [OpPostGrn(0, Goods(250))], OpMatchInvoice(0, "inv", 2_000), received, Mismatched(received));
    OverchargedRow();
  }
}
