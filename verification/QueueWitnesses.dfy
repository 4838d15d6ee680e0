/** Concrete runs on which a document waiting for the Manager does not stay as it was queued. */
module QueueWitnesses {
  import opened Prelude
  import opened Ledger
  import opened Accounting
  import opened Deduction
  import opened Model
  import opened Services
  import opened System
  import opened Effects
  import opened Documents
  import opened SalesLifecycle
  import opened Invariant
  import opened Moves
  import opened StockTakes
  import opened ApprovalQueue
  import opened Recounts
  import opened Witnesses

  const NONE: Factors := map[]

  // ----- goods worth two a unit -----

  const RECEIVED := Line(AT_STORES, 10_000 * FINE, GrnReceipt, Some(200))
  const ORDERED := [PoLine(PRODUCT, 10_000, 200, 0)]
  const GOODS := [GrnLine(0, 10_000, 200)]

  function GoodsOps(): seq<Op> {
    [OpCreateStores, OpCreateBudget([PRODUCT]), OpSubmitBudget(0), OpDecide(0, Approved, false),
     OpCreatePo(0, 0, ORDERED), OpPostGrn(0, GOODS)]
  }

  /** The state after the first four calls: an approved budget. */
  function Budgeted(): State {
    Initial(NONE).(storesConfigured := true, budgets := [Budget([PRODUCT], BudgetApproved)],
                   approvals := [Approval(OnBudget(0), None, None, Approved)])
  }

  /** Ten units have been received in full. */
  function Stocked(): State {
    Budgeted().(orders := [PurchaseOrder(0, [ORDERED[0].(fulfilled := 10_000)], Received)],
                grns := [Grn(0, GOODS)],
                books := WithLine(EmptyBooks, GrnDocument(0), RECEIVED))
  }

  /** The budget as drafted and as submitted. */
  function Drafted(): State {
    Initial(NONE).(storesConfigured := true, budgets := [Budget([PRODUCT], BudgetDraft)])
  }

  function Submitted(): State {
    Drafted().(budgets := [Budget([PRODUCT], BudgetSubmitted)], approvals := [Approval(OnBudget(0), None, None, Undecided)])
  }

  lemma {:induction false} BudgetDrafts()
    ensures Step(Initial(NONE).(storesConfigured := true), OpCreateBudget([PRODUCT])) == Ok(Drafted())
  {
    assert Initial(NONE).budgets + [Budget([PRODUCT], BudgetDraft)] == [Budget([PRODUCT], BudgetDraft)];
  }

  lemma {:induction false} BudgetSubmits()
    ensures Step(Drafted(), OpSubmitBudget(0)) == Ok(Submitted())
  {
    assert Drafted().budgets[0 := Budget([PRODUCT], BudgetSubmitted)] == Submitted().budgets;
    assert Drafted().approvals + Submitted().approvals == Submitted().approvals;
  }

  lemma {:induction false} BudgetIsApproved()
    ensures Step(Submitted(), OpDecide(0, Approved, false)) == Ok(Budgeted())
  {
    assert Submitted().approvals[0 := Budgeted().approvals[0]] == Budgeted().approvals;
    assert Submitted().budgets[0 := Budgeted().budgets[0]] == Budgeted().budgets;
  }

  lemma {:induction false} BudgetApprovedRun()
    ensures After(NONE, GoodsOps()[..4]) == Budgeted()
  {
    var ops := GoodsOps();
    var configured := Initial(NONE).(storesConfigured := true);
    OneMore(NONE, [], ops[0], Initial(NONE), configured);
    BudgetDrafts();
    OneMore(NONE, [ops[0]], ops[1], configured, Drafted());
    BudgetSubmits();
    OneMore(NONE, [ops[0]] + [ops[1]], ops[2], Drafted(), Submitted());
    BudgetIsApproved();
    OneMore(NONE, [ops[0]] + [ops[1]] + [ops[2]], ops[3], Submitted(), Budgeted());
    assert [] + [ops[0]] == [ops[0]];
    assert [ops[0]] + [ops[1]] + [ops[2]] + [ops[3]] == ops[..4];
  }

  function Ordered(): State {
    Budgeted().(orders := [PurchaseOrder(0, ORDERED, Created)])
  }

  lemma {:induction false} OrderIsRaised()
    ensures Step(Budgeted(), OpCreatePo(0, 0, ORDERED)) == Ok(Ordered())
  {
    assert PoProducts(ORDERED) == [PRODUCT];
    assert ValidPoLines(ORDERED) && PRODUCT in Budgeted().budgets[0].products;
    assert Budgeted().orders + Ordered().orders == Ordered().orders;
  }

  lemma {:induction false} GoodsReceived()
    ensures Fulfil(ORDERED, GOODS) == Stocked().orders[0].lines
    ensures ReceiptLines(Ordered().orders[0], GOODS) == [RECEIVED]
    ensures Distinct(SubmittedLines(GOODS)) && LinesOfPo(Ordered().orders[0], GOODS) && ValidGrnLines(GOODS)
  {
    assert GOODS[..0] == [] && ReceivedQty(GOODS[..0], 0) == 0;
    assert ReceivedQty(GOODS, 0) == 10_000;
  }

  lemma {:induction false} GoodsArrive()
    ensures Step(Ordered(), OpPostGrn(0, GOODS)) == Ok(Stocked())
  {
    GoodsReceived();
    OneLinePosts(Ordered(), GrnDocument(0), RECEIVED, false);
    assert AllFulfilled(Stocked().orders[0].lines);
    assert Ordered().orders[0 := Stocked().orders[0]] == Stocked().orders;
    assert Ordered().grns + Stocked().grns == Stocked().grns;
  }

  lemma {:induction false} GoodsRun()
    ensures After(NONE, GoodsOps()) == Stocked()
  {
    var ops := GoodsOps();
    BudgetApprovedRun();
    OrderIsRaised();
    OneMore(NONE, ops[..4], ops[4], Budgeted(), Ordered());
    GoodsArrive();
    OneMore(NONE, ops[..4] + [ops[4]], ops[5], Ordered(), Stocked());
    assert ops[..4] + [ops[4]] + [ops[5]] == ops;
  }

  /** Sending a fully received order again loses its RECEIVED status. */
  lemma {:induction false} SendingLosesReceived()
    ensures var order := PurchaseOrder(0, [PoLine(PRODUCT, 10_000, 200, 10_000)], Received);
      && After(NONE, GoodsOps()).orders == [order]
      && After(NONE, GoodsOps() + [OpSendPo(0, true)]).orders == [order.(status := SentToSupplier)]
  {
    var order := Stocked().orders[0];
    GoodsRun();
    assert Stocked().orders[0 := order.(status := SentToSupplier)] == [order.(status := SentToSupplier)];
    OneMore(NONE, GoodsOps(), OpSendPo(0, true), Stocked(), Stocked().(orders := [order.(status := SentToSupplier)]));
  }

  lemma {:induction false} StockedFacts()
    ensures var s := Stocked();
      && OnHand(s.books.balances, AT_STORES) == 10_000
      && LatestUnitCost(s.books.ledger, PRODUCT) == 200
      && forall document :: document != GrnDocument(0) ==> !IsPosted(s.books, document)
  {
    assert Round(10_000 * FINE) == 10_000;
    SingleLinePosts(EmptyBooks, GrnDocument(0), RECEIVED, false);
    forall document | document != GrnDocument(0)
      ensures !IsPosted(Stocked().books, document)
    {
      PostRows(EmptyBooks, Posting(GrnDocument(0), [RECEIVED]), false, document);
    }
  }

  lemma {:induction false} OneItemValue(ledger: seq<Movement>, qty: int)
    ensures LinesValue(ledger, [ItemQty(PRODUCT, qty)]) == LatestUnitCost(ledger, PRODUCT) * qty
  {
    assert [ItemQty(PRODUCT, qty)][..0] == [];
    assert LinesValue(ledger, [ItemQty(PRODUCT, qty)][..0]) == 0;
  }

  // ----- a transfer is released by raising the threshold -----

  const ONE_UNIT := [ItemQty(PRODUCT, 1_000)]

  function TransferOps(): seq<Op> {
    GoodsOps() + [OpSetThreshold(TransferScope, Some(0))] + [OpCreateTransfer(Stores, Kitchen, ONE_UNIT)] + [OpPostTransfer(0)]
  }

  function QueuedTransfer(): State {
    Stocked().(thresholds := map[TransferScope := 0],
               transfers := [Move(Stores, Kitchen, ONE_UNIT, PendingApproval)],
               approvals := Stocked().approvals + [Approval(OnTransfer(0), Some(TransferScope), Some(0), Undecided)])
  }

  lemma {:induction false} TransferRun()
    ensures After(NONE, TransferOps()) == QueuedTransfer()
  {
    var limited := Stocked().(thresholds := map[TransferScope := 0]);
    var drafted := limited.(transfers := [Move(Stores, Kitchen, ONE_UNIT, DraftDoc)]);
    GoodsRun();
    StockedFacts();
    OneItemValue(drafted.books.ledger, 1_000);
    OneMore(NONE, GoodsOps(), OpSetThreshold(TransferScope, Some(0)), Stocked(), limited);
    var first := GoodsOps() + [OpSetThreshold(TransferScope, Some(0))];
    TransferDrafts(limited);
    OneMore(NONE, first, OpCreateTransfer(Stores, Kitchen, ONE_UNIT), limited, drafted);
    var second := first + [OpCreateTransfer(Stores, Kitchen, ONE_UNIT)];
    TransferQueues(drafted);
    OneMore(NONE, second, OpPostTransfer(0), drafted, QueuedTransfer());
  }

  lemma {:induction false} TransferDrafts(s: State)
    requires s.transfers == []
    ensures Step(s, OpCreateTransfer(Stores, Kitchen, ONE_UNIT)) ==
      Ok(s.(transfers := [Move(Stores, Kitchen, ONE_UNIT, DraftDoc)]))
  {
    assert ValidItems(ONE_UNIT);
    assert s.transfers + [Move(Stores, Kitchen, ONE_UNIT, DraftDoc)] == [Move(Stores, Kitchen, ONE_UNIT, DraftDoc)];
  }

  lemma {:induction false} TransferQueues(drafted: State)
    requires drafted == Stocked().(thresholds := map[TransferScope := 0],
                                   transfers := [Move(Stores, Kitchen, ONE_UNIT, DraftDoc)])
    requires LinesValue(drafted.books.ledger, ONE_UNIT) == 200_000
    ensures Step(drafted, OpPostTransfer(0)) == Ok(QueuedTransfer())
  {
    assert TransferValue(drafted, 0) == 200_000;
    assert drafted.transfers[0 := drafted.transfers[0].(status := PendingApproval)] == QueuedTransfer().transfers;
  }

  /** Transfer 0 waits for the Manager. Posting it again leaves it waiting; raising the threshold
      and posting it again writes its rows, and decides no approval. */
  predicate Released(s: State) {
    && |s.transfers| == 1 && s.transfers[0].status.PendingApproval?
    && !IsPosted(Next(s, OpPostTransfer(0)).books, TransferDocument(0))
    && IsPosted(AfterRepost(s, 0, Some(200)).books, TransferDocument(0))
    && AfterRepost(s, 0, Some(200)).approvals == s.approvals
    && |s.approvals| == 2 && s.approvals[1] == Approval(OnTransfer(0), Some(TransferScope), Some(0), Undecided)
  }

  lemma {:induction false} QueuedTransferIsReleased()
    ensures Released(After(NONE, TransferOps()))
  {
    TransferRun();
    QueuedIsReleased();
  }

  lemma {:induction false} QueuedIsReleased()
    ensures Released(QueuedTransfer())
  {
    QueuedInv();
    QueuedFacts();
    StaysQueued(QueuedTransfer());
    RaisingReleases(QueuedTransfer());
  }

  lemma {:induction false} QueuedInv()
    ensures TransferInv(QueuedTransfer())
  {
    TransferRun();
    Reachable(NONE, TransferOps());
  }

  lemma {:induction false} QueuedFacts()
    ensures var s := QueuedTransfer();
      TransferValue(s, 0) == 200_000 && Covered(s.books.balances, s.transfers[0]) && !IsPosted(s.books, TransferDocument(0))
  {
    StockedFacts();
    OneItemValue(Stocked().books.ledger, 1_000);
    KitchenIsEmpty();
  }

  lemma {:induction false} StaysQueued(s: State)
    requires s == QueuedTransfer() && TransferInv(s) && TransferValue(s, 0) == 200_000 && !IsPosted(s.books, TransferDocument(0))
    ensures !IsPosted(Next(s, OpPostTransfer(0)).books, TransferDocument(0))
  {
    PostingWritesTransferIff(s, 0);
    assert Routed(s, 0, false);
  }

  lemma {:induction false} RaisingReleases(s: State)
    requires TransferInv(s) && |s.transfers| == 1 && s.transfers[0].lines != []
    requires TransferValue(s, 0) == 200_000 && Covered(s.books.balances, s.transfers[0])
    requires !IsPosted(s.books, TransferDocument(0))
    ensures IsPosted(AfterRepost(s, 0, Some(200)).books, TransferDocument(0))
    ensures AfterRepost(s, 0, Some(200)).approvals == s.approvals
  {
    RepostReleasesTransferIff(s, 0, Some(200));
  }

  /** The queued transfer is released by posting it again, and only then rejected. */
  function RejectedOps(): seq<Op> {
    TransferOps() + [OpSetThreshold(TransferScope, Some(200))] + [OpPostTransfer(0)] + [OpDecide(1, Rejected, true)]
  }

  lemma {:induction false} RejectionOf(s: State)
    requires |s.transfers| == 1 && |s.approvals| == 2 && s.approvals[1].subject == OnTransfer(0) && s.approvals[1].status.Undecided?
    ensures var s' := Next(s, OpDecide(1, Rejected, true));
      |s'.transfers| == 1 && s'.transfers[0].status.RejectedDoc? && s'.books == s.books
  {
  }

  lemma {:induction false} ReleasedState()
    ensures var s := AfterRepost(QueuedTransfer(), 0, Some(200));
      && |s.transfers| == 1 && s.approvals == QueuedTransfer().approvals && IsPosted(s.books, TransferDocument(0))
  {
    QueuedIsReleased();
    TransferTableSize(SetThreshold(QueuedTransfer(), TransferScope, Some(200)));
  }

  lemma {:induction false} TransferTableSize(s: State)
    ensures |Next(s, OpPostTransfer(0)).transfers| == |s.transfers|
  {
    if PostTransfer(s, 0, false).Ok? {
      PostTransferOutcome(s, 0, false, PostTransfer(s, 0, false).value);
    }
  }

  /** Rejecting a transfer that was released in the meantime leaves its rows in the ledger. */
  lemma {:induction false} RejectedTransferHasRows()
    ensures var s := After(NONE, RejectedOps());
      |s.transfers| == 1 && s.transfers[0].status.RejectedDoc? && IsPosted(s.books, TransferDocument(0))
  {
    TransferRun();
    ReleasedState();
    var raise, repost, reject := OpSetThreshold(TransferScope, Some(200)), OpPostTransfer(0), OpDecide(1, Rejected, true);
    OneMoreNext(TransferOps(), raise);
    OneMoreNext(TransferOps() + [raise], repost);
    OneMoreNext(TransferOps() + [raise] + [repost], reject);
    RejectionOf(AfterRepost(QueuedTransfer(), 0, Some(200)));
  }

  lemma {:induction false} OneMoreNext(ops: seq<Op>, op: Op)
    ensures After(NONE, ops + [op]) == Next(After(NONE, ops), op)
  {
    assert (ops + [op])[..|ops|] == ops;
  }

  lemma {:induction false} KitchenIsEmpty()
    ensures OnHand(Stocked().books.balances, Key(PRODUCT, Kitchen)) == 0
  {
  }

  // ----- a stock-take is released, or posts other counts than those valued -----

  function TakeOps(): seq<Op> {
    GoodsOps() + [OpSetThreshold(AdjustmentScope, Some(0))] + [OpSetActiveProducts([PRODUCT])] + [OpOpenTake(Stores)]
      + [OpRecordCounts(0, [ItemQty(PRODUCT, 9_000)])] + [OpPostTake(0)]
  }

  function QueuedTake(counted: int): State {
    Stocked().(thresholds := map[AdjustmentScope := 0], activeProducts := [PRODUCT],
               takes := Sheet(10_000, Some(counted), PendingApproval),
               approvals := Stocked().approvals + [Approval(OnTake(0), Some(AdjustmentScope), Some(0), Undecided)])
  }

  function OpenedTake(): State {
    Stocked().(thresholds := map[AdjustmentScope := 0], activeProducts := [PRODUCT], takes := Sheet(10_000, None, DraftDoc))
  }

  lemma {:induction false} OpenRun()
    ensures After(NONE, GoodsOps() + [OpSetThreshold(AdjustmentScope, Some(0))] + [OpSetActiveProducts([PRODUCT])]
                          + [OpOpenTake(Stores)]) == OpenedTake()
  {
    var limited := Stocked().(thresholds := map[AdjustmentScope := 0]);
    var active := limited.(activeProducts := [PRODUCT]);
    GoodsRun();
    StockedFacts();
    OneMore(NONE, GoodsOps(), OpSetThreshold(AdjustmentScope, Some(0)), Stocked(), limited);
    var first := GoodsOps() + [OpSetThreshold(AdjustmentScope, Some(0))];
    OneMore(NONE, first, OpSetActiveProducts([PRODUCT]), limited, active);
    OpenSheet(active, 10_000);
    OneMore(NONE, first + [OpSetActiveProducts([PRODUCT])], OpOpenTake(Stores), active, OpenedTake());
  }

  lemma {:induction false} SheetValue(s: State, counted: int, status: DocStatus)
    requires s.takes == Sheet(10_000, Some(counted), status) && counted < 10_000
    requires LatestUnitCost(s.books.ledger, PRODUCT) == 200
    ensures TakeValue(s, 0) == 200 * (10_000 - counted)
    ensures Variant(s.takes[0].lines) == [ItemQty(PRODUCT, counted - 10_000)]
  {
    SheetVariant(10_000, counted, status);
    assert Unsigned([ItemQty(PRODUCT, counted - 10_000)]) == [ItemQty(PRODUCT, 10_000 - counted)];
    OneItemValue(s.books.ledger, 10_000 - counted);
  }

  lemma {:induction false} TakeQueues(s: State)
    requires s == OpenedTake().(takes := Sheet(10_000, Some(9_000), DraftDoc))
    ensures Step(s, OpPostTake(0)) == Ok(QueuedTake(9_000))
  {
    StockedFacts();
    SheetValue(s, 9_000, DraftDoc);
    assert s.takes[0 := s.takes[0].(status := PendingApproval)] == Sheet(10_000, Some(9_000), PendingApproval);
  }

  lemma {:induction false} TakeRun()
    ensures After(NONE, TakeOps()) == QueuedTake(9_000)
  {
    var counted := OpenedTake().(takes := Sheet(10_000, Some(9_000), DraftDoc));
    var ops := GoodsOps() + [OpSetThreshold(AdjustmentScope, Some(0))] + [OpSetActiveProducts([PRODUCT])] + [OpOpenTake(Stores)];
    OpenRun();
    CountSheet(OpenedTake(), 10_000, None, DraftDoc, 9_000);
    OneMore(NONE, ops, OpRecordCounts(0, [ItemQty(PRODUCT, 9_000)]), OpenedTake(), counted);
    TakeQueues(counted);
    OneMore(NONE, ops + [OpRecordCounts(0, [ItemQty(PRODUCT, 9_000)])], OpPostTake(0), counted, QueuedTake(9_000));
  }

  /** A stock-take waiting for the Manager is released the same way. */
  lemma {:induction false} QueuedTakeIsReleased()
    ensures var s := After(NONE, TakeOps());
      && |s.takes| == 1 && s.takes[0].status.PendingApproval?
      && !IsPosted(Next(s, OpPostTake(0)).books, TakeDocument(0))
      && IsPosted(AfterRetake(s, 0, Some(200)).books, TakeDocument(0))
      && AfterRetake(s, 0, Some(200)).approvals == s.approvals
  {
    var s := After(NONE, TakeOps());
    TakeRun();
    StockedFacts();
    SheetValue(s, 9_000, PendingApproval);
    PostingWritesTakeIff(s, 0);
    RepostReleasesTakeIff(s, 0, Some(200));
  }

  /** The count is edited while the stock-take waits, then the approval is given. */
  function EditedOps(): seq<Op> {
    TakeOps() + [OpRecordCounts(0, [ItemQty(PRODUCT, 1_000)])] + [OpDecide(1, Approved, false)]
  }

  lemma {:induction false} EditedTakePosts(s: State)
    requires s.takes == Sheet(10_000, Some(1_000), PendingApproval) && s.books == Stocked().books
    ensures PostTake(s, 0, true).Ok?
    ensures |PostTake(s, 0, true).value.takes| == 1 && PostTake(s, 0, true).value.takes[0].status.PostedDoc?
  {
    var line := Line(AT_STORES, -9_000 * FINE, StocktakeAdj, None);
    StockedFacts();
    SheetVariant(10_000, 1_000, PendingApproval);
    assert Round(-9_000 * FINE) == -9_000;
    OneLinePosts(s, TakeDocument(0), line, true);
  }

  lemma {:induction false} ApprovalPosts(s: State)
    requires s == QueuedTake(1_000)
    ensures PostsTake(s, OpDecide(1, Approved, false), 0)
  {
    EditedTakePosts(Decided(s, 1, Approved));
  }

  lemma {:induction false} SheetRows(counted: nat)
    requires counted < 10_000
    ensures TakeRows(0, QueuedTake(counted).takes[0]) ==
      [Movement(AT_STORES, counted - 10_000, StocktakeAdj, None, TakeDocument(0))]
  {
    SheetVariant(10_000, counted, PendingApproval);
    assert Round((counted - 10_000) * FINE) == counted - 10_000;
  }

  /** One unit missing was valued and queued; nine missing are posted by the approval. */
  lemma {:induction false} ApprovalPostsEditedCounts()
    ensures After(NONE, TakeOps()).takes == Sheet(10_000, Some(9_000), PendingApproval)
    ensures var n := |EditedOps()| - 1;
      && PostsTake(After(NONE, EditedOps()[..n]), EditedOps()[n], 0)
      && DocRows(After(NONE, EditedOps()).books.ledger, TakeDocument(0)) != TakeRows(0, After(NONE, TakeOps()).takes[0])
      && DocRows(After(NONE, EditedOps()).books.ledger, TakeDocument(0)) ==
           [Movement(AT_STORES, -9_000, StocktakeAdj, None, TakeDocument(0))]
    ensures TakeRows(0, After(NONE, TakeOps()).takes[0]) == [Movement(AT_STORES, -1_000, StocktakeAdj, None, TakeDocument(0))]
  {
    var ops, i, n := EditedOps(), |TakeOps()|, |EditedOps()| - 1;
    TakeRun();
    CountSheet(QueuedTake(9_000), 10_000, Some(9_000), PendingApproval, 1_000);
    OneMore(NONE, TakeOps(), OpRecordCounts(0, [ItemQty(PRODUCT, 1_000)]), QueuedTake(9_000), QueuedTake(1_000));
    assert ops[..i] == TakeOps() && ops[..n] == TakeOps() + [OpRecordCounts(0, [ItemQty(PRODUCT, 1_000)])];
    assert ops[..n + 1] == ops;
    ApprovalPosts(QueuedTake(1_000));
    PostedRowsAreThoseValuedIff(NONE, ops, i, n, 0);
    assert Shown(QueuedTake(1_000).takes[0].lines[0]) != Shown(QueuedTake(9_000).takes[0].lines[0]);
    PostedRowsAreThoseValuedIff(NONE, ops, n, n, 0);
    SheetRows(1_000);
    SheetRows(9_000);
  }
}
