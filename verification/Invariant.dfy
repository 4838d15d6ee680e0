/** The invariant of the whole back office, and that every call keeps it. */
module Invariant {
  import opened Prelude
  import opened Ledger
  import opened Accounting
  import opened Recipes
  import opened Deduction
  import opened Model
  import opened Services
  import opened System
  import opened Effects
  import opened Documents
  import opened WastageLifecycle
  import opened SalesLifecycle
  import opened Purchasing
  import D = Delivery

  /** Ledger, cache, payloads and delivery state agree, and every row has its document. */
  ghost predicate LedgerInv(s: State) {
    && BooksInv(s.books)
    && D.DeliveryInv(s.books.outbox)
    && BackedInv(s)
    && ApprovalInv(s)
  }

  ghost predicate DocumentInv(s: State) {
    IssueInv(s) && TransferInv(s) && TakeInv(s) && WastageInv(s) && SaleInv(s) && PurchasingInv(s)
  }

  ghost predicate Inv(s: State) {
    LedgerInv(s) && DocumentInv(s)
  }

  lemma InitialInv(factors: Factors)
    requires FactorsPositive(factors)
    ensures Inv(Initial(factors))
  {
  }

  // ----- which steps touch which tables -----

  predicate TransferStep(op: Op) { op.OpCreateTransfer? || op.OpPostTransfer? || op.OpDecide? }
  predicate IssueStep(op: Op) { op.OpCreateIssue? || op.OpPostIssue? }
  predicate TakeStep(op: Op) { op.OpOpenTake? || op.OpRecordCounts? || op.OpPostTake? || op.OpDecide? || op.OpSetActiveProducts? }
  predicate WastageStep(op: Op) { op.OpCreateWastage? || op.OpDecide? }
  predicate SaleStep(op: Op) { op.OpIngest? || op.OpReplay? }
  predicate OrderStep(op: Op) { op.OpCreatePo? || op.OpSendPo? || op.OpPostGrn? }

  /** A step leaves the tables of the other components alone. */
  predicate TablesKept(s: State, op: Op, s': State) {
    && (!TransferStep(op) ==> s'.transfers == s.transfers)
    && (!IssueStep(op) ==> s'.issues == s.issues)
    && (!TakeStep(op) ==> s'.takes == s.takes && s'.activeProducts == s.activeProducts)
    && (!WastageStep(op) ==> s'.wastage == s.wastage)
    && (!SaleStep(op) ==> s'.sales == s.sales)
    && (!MenuStep(op) ==> s'.menu == s.menu)
    && (!OrderStep(op) ==> s'.orders == s.orders && s'.grns == s.grns)
  }

  lemma {:induction false} DecideTables(s: State, op: Op, s': State)
    requires op.OpDecide? && Step(s, op) == Ok(s')
    ensures TablesKept(s, op, s')
  {
    var subject, decided := s.approvals[op.approval].subject, Decided(s, op.approval, op.decision);
    if subject.OnBudget? {
      assert s'.orders == s.orders && s'.grns == s.grns;
    }
    CallbackTables(decided, subject, op.decision);
  }

  lemma {:induction false} WritingTables(s: State, op: Op, s': State)
    requires Step(s, op) == Ok(s') && Writes(s, op).Some? && !op.OpDecide?
    ensures TablesKept(s, op, s')
  {
    match op
    case OpPostIssue(id, override) => IssueTables(s, id, override);
    case OpPostTransfer(id) => TransferTables(s, id, false);
    case OpPostTake(id) => TakeTables(s, id, false);
    case OpCreateWastage(_, _, _, _) => CreateWastageTables(s, op, s');
    case OpIngest(_, _, _) => IngestTables(s, op, s');
    case OpReplay(id) => ReplayTables(s, id);
    case OpPostGrn(po, lines) => GrnTables(s, po, lines);
  }

  lemma {:induction false} StepTablesKept(s: State, op: Op, s': State)
    requires Step(s, op) == Ok(s')
    ensures TablesKept(s, op, s')
  {
    if op.OpDecide? {
      DecideTables(s, op, s');
    } else if Writes(s, op).Some? {
      WritingTables(s, op, s');
    } else if MenuStep(op) {
      MenuTables(s, op, s');
    } else {
      QuietTables(s, op, s');
    }
  }

  lemma QuietTables(s: State, op: Op, s': State)
    requires Step(s, op) == Ok(s') && Writes(s, op).None? && !op.OpDecide? && !MenuStep(op)
    ensures TablesKept(s, op, s')
  {
    if TakeStep(op) || TransferStep(op) || IssueStep(op) {
    } else if OrderStep(op) || op.OpCreateBudget? || op.OpSubmitBudget? || op.OpMatchInvoice? {
      PurchasingTables(s, op, s');
    } else if op.OpDrain? || op.OpResend? {
      OutboxTables(s, op, s');
    }
  }

  /** The only document a step can submit for approval. */
  function Routes(s: State, op: Op): Option<Subject> {
    match op
    case OpPostTransfer(id) => Some(OnTransfer(id))
    case OpPostTake(id) => Some(OnTake(id))
    case OpCreateWastage(_, _, _, _) => Some(OnWastage(|s.wastage|))
    case OpSubmitBudget(id) => Some(OnBudget(id))
    case _ => None
  }

  /** New approvals are undecided and about one given document. */
  predicate SubmitsFor(s: State, subject: Option<Subject>, s': State) {
    && OnlySubmits(s, s')
    && forall a :: |s.approvals| <= a < |s'.approvals| ==>
         subject == Some(s'.approvals[a].subject) && KnownSubject(s', s'.approvals[a].subject)
  }

  /** New approvals are undecided and about the step's own document. */
  predicate Submits(s: State, op: Op, s': State) {
    SubmitsFor(s, Routes(s, op), s')
  }

  lemma {:induction false} StepSubmits(s: State, op: Op, s': State)
    requires Step(s, op) == Ok(s') && !op.OpDecide?
    ensures Submits(s, op, s')
  {
    if op.OpPostTransfer? || op.OpPostTake? || op.OpCreateWastage? || op.OpSubmitBudget? {
      RoutedSubmits(s, op, s');
    } else {
      NothingSubmitted(s, op, s');
    }
  }

  lemma {:induction false} RoutedSubmits(s: State, op: Op, s': State)
    requires Step(s, op) == Ok(s')
    requires op.OpPostTransfer? || op.OpPostTake? || op.OpCreateWastage? || op.OpSubmitBudget?
    ensures Submits(s, op, s')
  {
    if op.OpPostTransfer? {
      TransferSubmits(s, op.id, s');
    } else if op.OpPostTake? {
      TakeSubmits(s, op.id, s');
    } else if op.OpCreateWastage? {
      WastageSubmits(s, op, s');
    }
  }

  lemma {:induction false} TransferSubmits(s: State, id: nat, s': State)
    requires PostTransfer(s, id, false) == Ok(s')
    ensures SubmitsFor(s, Some(OnTransfer(id)), s')
  {
  }

  lemma {:induction false} TakeSubmits(s: State, id: nat, s': State)
    requires PostTake(s, id, false) == Ok(s')
    ensures SubmitsFor(s, Some(OnTake(id)), s')
  {
  }

  lemma {:induction false} WastageSubmits(s: State, op: Op, s': State)
    requires op.OpCreateWastage? && Step(s, op) == Ok(s')
    ensures SubmitsFor(s, Some(OnWastage(|s.wastage|)), s')
  {
    CreateWastageOutcome(s, op, s');
  }

  lemma {:induction false} NothingSubmitted(s: State, op: Op, s': State)
    requires Step(s, op) == Ok(s') && !op.OpDecide?
    requires !op.OpPostTransfer? && !op.OpPostTake? && !op.OpCreateWastage? && !op.OpSubmitBudget?
    ensures s'.approvals == s.approvals
  {
    match op
    case OpPostIssue(id, override) => IssueTables(s, id, override);
    case OpIngest(_, _, _) => IngestTables(s, op, s');
    case OpReplay(id) => ReplayTables(s, id);
    case _ =>
  }

  // ----- the ledger -----

  lemma RefsOfSales(s: State)
    requires SaleInv(s)
    ensures forall i :: 0 <= i < |s.sales| ==> ValidRefs(s.menu, s.sales[i].items)
  {
    forall i | 0 <= i < |s.sales|
      ensures ValidRefs(s.menu, s.sales[i].items)
    {
      assert SaleExact(s, i);
    }
  }

  /** One more posting keeps the books and the delivery logs in agreement. */
  lemma {:induction false} PostingKeepsDelivery(b: Books, posting: Posting, override: bool)
    requires BooksInv(b) && D.DeliveryInv(b.outbox) && Post(b, posting, override).Ok?
    ensures BooksInv(Post(b, posting, override).value) && D.DeliveryInv(Post(b, posting, override).value.outbox)
  {
    PostKeepsBooks(b, posting, override);
  }

  lemma {:induction false} OldPayloadsBacked(s: State, s': State)
    requires BackedInv(s) && Grows(s, s')
    ensures forall i :: 0 <= i < |s.books.outbox| ==> Backed(s', s.books.outbox[i].posting)
  {
    forall i | 0 <= i < |s.books.outbox|
      ensures Backed(s', s.books.outbox[i].posting)
    {
      BackedGrows(s, s', s.books.outbox[i].posting);
    }
  }

  lemma {:induction false} NewPayloadBacked(s: State, s': State, posting: Posting, override: bool)
    requires Post(s.books, posting, override) == Ok(s'.books) && Backed(s', posting)
    requires forall i :: 0 <= i < |s.books.outbox| ==> Backed(s', s.books.outbox[i].posting)
    ensures BackedInv(s')
  {
  }

  lemma {:induction false} PostedBacked(s: State, s': State, document: Document, override: bool)
    requires LedgerInv(s) && Grows(s, s') && PostsOnly(s, s', document, override)
    ensures BooksInv(s'.books) && D.DeliveryInv(s'.books.outbox) && BackedInv(s')
  {
    OldPayloadsBacked(s, s');
    if s'.books != s.books {
      var lines :| PostedAs(s, s', Posting(document, lines), override);
      PostingKeepsDelivery(s.books, Posting(document, lines), override);
      NewPayloadBacked(s, s', Posting(document, lines), override);
    }
  }

  lemma {:induction false} QuietBacked(s: State, s': State)
    requires LedgerInv(s) && Grows(s, s') && SameLedger(s, s')
    ensures BooksInv(s'.books) && BackedInv(s')
  {
    forall i | 0 <= i < |s'.books.outbox|
      ensures Backed(s', s'.books.outbox[i].posting)
    {
      assert Payloads(s'.books.outbox)[i] == Payloads(s.books.outbox)[i];
      BackedGrows(s, s', s.books.outbox[i].posting);
    }
  }

  lemma QuietDelivery(s: State, op: Op, s': State)
    requires Step(s, op) == Ok(s') && Writes(s, op).None? && !op.OpDecide?
    requires D.DeliveryInv(s.books.outbox)
    ensures D.DeliveryInv(s'.books.outbox)
  {
    match op
    case OpDrain(due, answers) => D.DrainKeepsLogs(s.books.outbox, due, answers);
    case OpResend(id, answer) => D.ResendKeepsLogs(s.books.outbox, id, answer);
    case _ => QuietStep(s, op, s');
  }

  lemma {:induction false} LedgerKept(s: State, op: Op, s': State)
    requires Inv(s) && Step(s, op) == Ok(s')
    ensures BooksInv(s'.books) && D.DeliveryInv(s'.books.outbox) && BackedInv(s')
  {
    RefsOfSales(s);
    StepEffect(s, op, s');
    if Writes(s, op).Some? {
      PostedBacked(s, s', Writes(s, op).value, MayOverride(s, op));
    } else {
      QuietBacked(s, s');
      if op.OpDecide? {
        BudgetDecisionQuiet(s, op, s');
      } else {
        QuietDelivery(s, op, s');
      }
    }
  }

  lemma BudgetDecisionQuiet(s: State, op: Op, s': State)
    requires op.OpDecide? && Step(s, op) == Ok(s') && Writes(s, op).None?
    ensures s'.books == s.books
  {
    CallbackEffect(Decided(s, op.approval, op.decision), s.approvals[op.approval].subject, op.decision);
  }

  lemma {:induction false} ApprovalsKept(s: State, op: Op, s': State)
    requires Inv(s) && Step(s, op) == Ok(s')
    ensures ApprovalInv(s')
  {
    RefsOfSales(s);
    StepEffect(s, op, s');
    BudgetsGrow(s, op, s');
    if !op.OpDecide? {
      StepSubmits(s, op, s');
    } else {
      DecideApprovals(s, op, s');
    }
    forall a | 0 <= a < |s'.approvals|
      ensures KnownSubject(s', s'.approvals[a].subject)
    {
      if a < |s.approvals| {
        assert KnownSubject(s, s.approvals[a].subject);
      }
    }
  }

  predicate BudgetStep(op: Op) { op.OpCreateBudget? || op.OpSubmitBudget? || op.OpDecide? }

  lemma {:induction false} BudgetsGrow(s: State, op: Op, s': State)
    requires Step(s, op) == Ok(s')
    ensures |s.budgets| <= |s'.budgets|
    ensures !BudgetStep(op) ==> s'.budgets == s.budgets
  {
    if op.OpDecide? {
      DecideKeepsBudgets(s, op, s');
    } else if Writes(s, op).Some? {
      WritingKeepsBudgets(s, op, s');
    } else if MenuStep(op) {
      MenuTables(s, op, s');
    } else if !BudgetStep(op) {
      QuietKeepsBudgets(s, op, s');
    }
  }

  /** A decision about anything but a budget leaves the budgets alone. */
  lemma DecideKeepsBudgets(s: State, op: Op, s': State)
    requires op.OpDecide? && Step(s, op) == Ok(s')
    ensures |s'.budgets| == |s.budgets|
    ensures !s.approvals[op.approval].subject.OnBudget? ==> s'.budgets == s.budgets
  {
    CallbackTables(Decided(s, op.approval, op.decision), s.approvals[op.approval].subject, op.decision);
  }

  lemma {:induction false} QuietKeepsBudgets(s: State, op: Op, s': State)
    requires Step(s, op) == Ok(s') && Writes(s, op).None? && !BudgetStep(op) && !MenuStep(op)
    ensures s'.budgets == s.budgets
  {
    if op.OpDrain? || op.OpResend? {
      OutboxTables(s, op, s');
    } else if op.OpRecordCounts? {
      CountsTables(s, op.id, op.counts);
    }
  }

  lemma {:induction false} WritingKeepsBudgets(s: State, op: Op, s': State)
    requires Step(s, op) == Ok(s') && Writes(s, op).Some? && !op.OpDecide?
    ensures s'.budgets == s.budgets
  {
    match op
    case OpPostIssue(id, override) => IssueTables(s, id, override);
    case OpPostTransfer(id) => TransferTables(s, id, false);
    case OpPostTake(id) => TakeTables(s, id, false);
    case OpCreateWastage(_, _, _, _) => CreateWastageTables(s, op, s');
    case OpIngest(_, _, _) => IngestTables(s, op, s');
    case OpReplay(id) => ReplayTables(s, id);
    case OpPostGrn(_, _) =>
  }

  /** A decision changes one status and submits nothing. */
  lemma DecideApprovals(s: State, op: Op, s': State)
    requires op.OpDecide? && Step(s, op) == Ok(s')
    ensures s'.approvals == Decided(s, op.approval, op.decision).approvals
    ensures Open(s.approvals[op.approval].status) && !op.decision.Undecided?
  {
    var decided := Decided(s, op.approval, op.decision);
    match s.approvals[op.approval].subject
    case OnTransfer(id) =>
      if id < |s.transfers| && op.decision.Approved? {
        PostTransferSkips(decided, id, s');
      }
    case OnTake(id) =>
      if id < |s.takes| && op.decision.Approved? {
        PostTakeSkips(decided, id, s');
      }
    case OnWastage(id) =>
      if id < |s.wastage| {
        WastageDecision(decided, id, op.decision, s');
      }
    case OnBudget(id) =>
  }

  lemma PostTransferSkips(s: State, id: nat, s': State)
    requires PostTransfer(s, id, true) == Ok(s')
    ensures s'.approvals == s.approvals
  {
  }

  lemma PostTakeSkips(s: State, id: nat, s': State)
    requires PostTake(s, id, true) == Ok(s')
    ensures s'.approvals == s.approvals
  {
  }

  // ----- the documents -----

  /** Rows of documents other than the one written are kept. */
  lemma {:induction false} OtherRows(s: State, op: Op, s': State, document: Document)
    requires Inv(s) && Step(s, op) == Ok(s') && Writes(s, op) != Some(document)
    ensures IsPosted(s'.books, document) == IsPosted(s.books, document)
  {
    RefsOfSales(s);
    StepRows(s, op, s', document);
  }

  lemma {:induction false} IssuesKept(s: State, op: Op, s': State)
    requires Inv(s) && Step(s, op) == Ok(s')
    ensures IssueInv(s')
  {
    if op.OpPostIssue? {
      PostIssueKeeps(s, op.id, op.override, s');
    } else if op.OpCreateIssue? {
      CreateIssueKeeps(s, op, s');
    } else {
      OtherIssueStep(s, op, s');
    }
  }

  lemma {:induction false} CreateIssueKeeps(s: State, op: Op, s': State)
    requires op.OpCreateIssue? && Step(s, op) == Ok(s') && Inv(s)
    ensures IssueInv(s')
  {
    FreshNotPosted(s);
    var note := NewMove(op.source, op.destination, op.lines);
    assert ValidMove(note);
    NewIssueKeeps(s, note);
  }

  lemma {:induction false} OtherIssueStep(s: State, op: Op, s': State)
    requires Inv(s) && Step(s, op) == Ok(s') && !IssueStep(op)
    ensures IssueInv(s')
  {
    StepTablesKept(s, op, s');
    forall id | 0 <= id < |s.issues|
      ensures IsPosted(s'.books, IssueDocument(id)) == IsPosted(s.books, IssueDocument(id))
    {
      OtherRows(s, op, s', IssueDocument(id));
    }
    IssueFrame(s, s');
  }

  lemma {:induction false} CreateTransferKeeps(s: State, op: Op, s': State)
    requires op.OpCreateTransfer? && Step(s, op) == Ok(s') && Inv(s)
    ensures TransferInv(s')
  {
    FreshNotPosted(s);
    forall a | 0 <= a < |s.approvals|
      ensures s.approvals[a].subject != OnTransfer(|s.transfers|)
    {
      assert KnownSubject(s, s.approvals[a].subject);
    }
    forall id | 0 <= id < |s'.transfers|
      ensures TransferSafe(s', id)
    {
      if id < |s.transfers| {
        assert TransferSafe(s, id);
      }
    }
  }

  lemma {:induction false} DecideTransferKeeps(s: State, op: Op, s': State)
    requires op.OpDecide? && Step(s, op) == Ok(s') && Inv(s)
    ensures TransferInv(s')
  {
    var a := op.approval;
    var subject, decided := s.approvals[a].subject, Decided(s, a, op.decision);
    DecideApprovals(s, op, s');
    forall id | 0 <= id < |s.transfers|
      ensures subject != OnTransfer(id) || !op.decision.Approved? ==> NoNewSignOff(s, s', OnTransfer(id))
      ensures subject != OnTransfer(id) ==> TransferSafe(decided, id)
      ensures !op.decision.Approved? ==> TransferSafe(decided, id)
    {
      DecidedSignOff(s, a, op.decision, OnTransfer(id));
      assert TransferSafe(s, id);
    }
    if subject.OnTransfer? && subject.id < |s.transfers| {
      assert TransferSafe(s, subject.id);
      if op.decision.Approved? {
        PostTransferKeeps(decided, subject.id, true, s');
      } else {
        RejectedTransferKeeps(decided, subject.id, op.decision, s');
      }
    } else {
      OtherDecision(s, op, s');
      forall id | 0 <= id < |s.transfers|
        ensures IsPosted(s'.books, TransferDocument(id)) == IsPosted(s.books, TransferDocument(id))
      {
        OtherRows(s, op, s', TransferDocument(id));
      }
      TransferFrame(s, s');
    }
  }

  lemma RejectedTransferKeeps(decided: State, id: nat, decision: ApprovalStatus, s': State)
    requires TransferInv(decided) && id < |decided.transfers| && !decision.Approved?
    requires Callback(decided, OnTransfer(id), decision) == Ok(s')
    ensures TransferInv(s')
  {
    forall other | 0 <= other < |s'.transfers|
      ensures TransferSafe(s', other)
    {
      assert TransferSafe(decided, other);
      assert s'.approvals == decided.approvals;
    }
  }

  /** A decision about another kind of document leaves these tables alone. */
  lemma OtherDecision(s: State, op: Op, s': State)
    requires op.OpDecide? && Step(s, op) == Ok(s')
    ensures !s.approvals[op.approval].subject.OnTransfer? ==> s'.transfers == s.transfers
    ensures !s.approvals[op.approval].subject.OnTake? ==> s'.takes == s.takes && s'.activeProducts == s.activeProducts
    ensures !s.approvals[op.approval].subject.OnWastage? ==> s'.wastage == s.wastage
  {
    CallbackTables(Decided(s, op.approval, op.decision), s.approvals[op.approval].subject, op.decision);
  }

  lemma {:induction false} TransfersKept(s: State, op: Op, s': State)
    requires Inv(s) && Step(s, op) == Ok(s')
    ensures TransferInv(s')
  {
    if op.OpCreateTransfer? {
      CreateTransferKeeps(s, op, s');
    } else if op.OpPostTransfer? {
      assert TransferSafe(s, op.id);
      PostTransferKeeps(s, op.id, false, s');
    } else if op.OpDecide? {
      DecideTransferKeeps(s, op, s');
    } else {
      OtherTransferStep(s, op, s');
    }
  }

  lemma {:induction false} OtherTransferStep(s: State, op: Op, s': State)
    requires Inv(s) && Step(s, op) == Ok(s') && !TransferStep(op)
    ensures TransferInv(s')
  {
    StepTablesKept(s, op, s');
    StepSubmits(s, op, s');
    forall id | 0 <= id < |s.transfers|
      ensures IsPosted(s'.books, TransferDocument(id)) == IsPosted(s.books, TransferDocument(id))
      ensures NoNewSignOff(s, s', OnTransfer(id))
    {
      OtherRows(s, op, s', TransferDocument(id));
      NewApprovalsUndecided(s, s', OnTransfer(id));
    }
    TransferFrame(s, s');
  }

  lemma DecideTakeKeeps(s: State, op: Op, s': State)
    requires op.OpDecide? && Step(s, op) == Ok(s') && Inv(s)
    ensures TakeInv(s')
  {
    var a := op.approval;
    var subject, decided := s.approvals[a].subject, Decided(s, a, op.decision);
    DecideApprovals(s, op, s');
    forall id | 0 <= id < |s.takes|
      ensures subject != OnTake(id) || !op.decision.Approved? ==> NoNewSignOff(s, s', OnTake(id))
      ensures subject != OnTake(id) ==> TakeSafe(decided, id)
    {
      DecidedSignOff(s, a, op.decision, OnTake(id));
      assert TakeSafe(s, id);
    }
    if subject.OnTake? && subject.id < |s.takes| && op.decision.Approved? {
      assert TakeSafe(s, subject.id);
      PostTakeKeeps(decided, subject.id, true, s');
    } else {
      UnpostedTakeDecision(s, op, s');
      TakeFrame(s, s');
    }
  }

  lemma {:induction false} UnpostedTakeDecision(s: State, op: Op, s': State)
    requires op.OpDecide? && Step(s, op) == Ok(s') && Inv(s)
    requires var subject := s.approvals[op.approval].subject;
      !subject.OnTake? || subject.id >= |s.takes| || !op.decision.Approved?
    ensures s'.takes == s.takes && s'.activeProducts == s.activeProducts
    ensures forall id :: 0 <= id < |s.takes| ==> IsPosted(s'.books, TakeDocument(id)) == IsPosted(s.books, TakeDocument(id))
  {
    OtherDecision(s, op, s');
    if !s.approvals[op.approval].subject.OnTake? {
      forall id | 0 <= id < |s.takes|
        ensures IsPosted(s'.books, TakeDocument(id)) == IsPosted(s.books, TakeDocument(id))
      {
        OtherRows(s, op, s', TakeDocument(id));
      }
    }
  }

  lemma {:induction false} TakesKept(s: State, op: Op, s': State)
    requires Inv(s) && Step(s, op) == Ok(s')
    ensures TakeInv(s')
  {
    if op.OpOpenTake? {
      OpenTakeKeeps(s, op.location);
    } else if op.OpRecordCounts? {
      RecordCountsKeeps(s, op.id, op.counts, s');
    } else if op.OpPostTake? {
      assert TakeSafe(s, op.id);
      PostTakeKeeps(s, op.id, false, s');
    } else if op.OpDecide? {
      DecideTakeKeeps(s, op, s');
    } else if op.OpSetActiveProducts? {
      TakeFrame(s, s');
    } else {
      OtherTakeStep(s, op, s');
    }
  }

  lemma {:induction false} OtherTakeStep(s: State, op: Op, s': State)
    requires Inv(s) && Step(s, op) == Ok(s') && !TakeStep(op)
    ensures TakeInv(s')
  {
    StepTablesKept(s, op, s');
    StepSubmits(s, op, s');
    forall id | 0 <= id < |s.takes|
      ensures IsPosted(s'.books, TakeDocument(id)) == IsPosted(s.books, TakeDocument(id))
      ensures NoNewSignOff(s, s', OnTake(id))
    {
      OtherRows(s, op, s', TakeDocument(id));
      NewApprovalsUndecided(s, s', OnTake(id));
    }
    TakeFrame(s, s');
  }

  lemma {:induction false} WastageKept(s: State, op: Op, s': State)
    requires Inv(s) && Step(s, op) == Ok(s')
    ensures WastageInv(s')
  {
    if op.OpCreateWastage? {
      CreateWastageKeeps(s, op, s');
    } else if op.OpDecide? {
      DecideWastageStep(s, op, s');
    } else {
      OtherWastageStep(s, op, s');
    }
  }

  lemma OtherWastageStep(s: State, op: Op, s': State)
    requires Inv(s) && Step(s, op) == Ok(s') && !WastageStep(op)
    ensures WastageInv(s')
  {
    StepTablesKept(s, op, s');
    StepSubmits(s, op, s');
    OtherWastageRowsKept(s, op, s');
    forall id | 0 <= id < |s.wastage|
      ensures SameApprovals(s, s', OnWastage(id))
    {
    }
    WastageFrame(s, s');
  }

  lemma {:induction false} OtherWastageRowsKept(s: State, op: Op, s': State)
    requires Inv(s) && Step(s, op) == Ok(s') && !WastageStep(op)
    ensures forall id: nat :: IsPosted(s'.books, WastageDocument(id)) == IsPosted(s.books, WastageDocument(id))
  {
    forall id: nat
      ensures IsPosted(s'.books, WastageDocument(id)) == IsPosted(s.books, WastageDocument(id))
    {
      OtherRows(s, op, s', WastageDocument(id));
    }
  }

  lemma DecideWastageStep(s: State, op: Op, s': State)
    requires op.OpDecide? && Step(s, op) == Ok(s') && Inv(s)
    ensures WastageInv(s')
  {
    var a := op.approval;
    var subject, decided := s.approvals[a].subject, Decided(s, a, op.decision);
    DecideApprovals(s, op, s');
    if subject.OnWastage? && subject.id < |s.wastage| {
      WastageDecision(decided, subject.id, op.decision, s');
      DecideWastageKeeps(s, a, op.decision, subject.id, s');
    } else {
      OtherDecision(s, op, s');
      assert KnownSubject(s, subject);
      forall id | 0 <= id < |s.wastage|
        ensures IsPosted(s'.books, WastageDocument(id)) == IsPosted(s.books, WastageDocument(id))
        ensures SameApprovals(s, s', OnWastage(id))
      {
        OtherRows(s, op, s', WastageDocument(id));
      }
      WastageFrame(s, s');
    }
  }

  lemma {:induction false} SalesKept(s: State, op: Op, s': State)
    requires Inv(s) && Step(s, op) == Ok(s')
    ensures SaleInv(s')
  {
    RefsOfSales(s);
    StepEffect(s, op, s');
    if op.OpIngest? {
      IngestOutcome(s, op, s');
      if s' != s {
        IngestKeeps(s, op, s');
      }
    } else if op.OpReplay? {
      ReplayKeeps(s, op.id, s');
    } else {
      OtherSaleStep(s, op, s');
    }
  }

  lemma {:induction false} OtherSaleStep(s: State, op: Op, s': State)
    requires Inv(s) && Step(s, op) == Ok(s') && !SaleStep(op) && Grows(s, s')
    ensures SaleInv(s')
  {
    StepTablesKept(s, op, s');
    if MenuStep(op) {
      MenuStepKeeps(s, op, s');
    }
    OtherOrdersKept(s, op, s');
    SaleFrame(s, s');
  }

  lemma {:induction false} OtherOrdersKept(s: State, op: Op, s': State)
    requires Inv(s) && Step(s, op) == Ok(s') && !SaleStep(op)
    ensures forall id: nat :: IsPosted(s'.books, OrderDocument(id)) == IsPosted(s.books, OrderDocument(id))
  {
    forall id: nat
      ensures IsPosted(s'.books, OrderDocument(id)) == IsPosted(s.books, OrderDocument(id))
    {
      OtherRows(s, op, s', OrderDocument(id));
    }
  }

  lemma {:induction false} PurchasingKept(s: State, op: Op, s': State)
    requires Inv(s) && Step(s, op) == Ok(s')
    ensures PurchasingInv(s')
  {
    if op.OpCreatePo? {
      CreatePoKeeps(s, op.budget, op.supplier, op.poLines, s');
    } else if op.OpPostGrn? {
      GrnKept(s, op, s');
    } else {
      OtherPurchasingStep(s, op, s');
    }
  }

  lemma {:induction false} GrnKept(s: State, op: Op, s': State)
    requires op.OpPostGrn? && Step(s, op) == Ok(s') && PurchasingInv(s)
    ensures PurchasingInv(s')
  {
    PostGrnOutcome(s, op.po, op.received, s');
    ReceiptKeeps(s, op.po, op.received, s');
  }

  lemma {:induction false} OtherGrnRowsKept(s: State, op: Op, s': State)
    requires Inv(s) && Step(s, op) == Ok(s') && !op.OpPostGrn?
    ensures forall g: nat :: IsPosted(s'.books, GrnDocument(g)) == IsPosted(s.books, GrnDocument(g))
  {
    forall g: nat
      ensures IsPosted(s'.books, GrnDocument(g)) == IsPosted(s.books, GrnDocument(g))
    {
      OtherRows(s, op, s', GrnDocument(g));
    }
  }

  /** Of the order tables, only sending touches anything, and only statuses. */
  lemma {:induction false} OtherOrderStep(s: State, op: Op, s': State)
    requires Step(s, op) == Ok(s') && !op.OpCreatePo? && !op.OpPostGrn?
    ensures s'.grns == s.grns && |s'.orders| == |s.orders|
    ensures forall po :: 0 <= po < |s.orders| ==> s'.orders[po].lines == s.orders[po].lines
  {
    if !op.OpSendPo? {
      StepTablesKept(s, op, s');
    }
  }

  lemma {:induction false} OtherPurchasingStep(s: State, op: Op, s': State)
    requires Inv(s) && Step(s, op) == Ok(s') && !op.OpCreatePo? && !op.OpPostGrn?
    ensures PurchasingInv(s')
  {
    OtherOrderStep(s, op, s');
    OtherGrnRowsKept(s, op, s');
    PurchasingFrame(s, s');
  }

  /** Every call keeps the invariant, whether it commits or is rolled back. */
  lemma {:induction false} NextKeeps(s: State, op: Op)
    requires Inv(s)
    ensures Inv(Next(s, op))
  {
    if Step(s, op).Ok? {
      var s' := Step(s, op).value;
      LedgerKept(s, op, s');
      ApprovalsKept(s, op, s');
      IssuesKept(s, op, s');
      TransfersKept(s, op, s');
      TakesKept(s, op, s');
      WastageKept(s, op, s');
      SalesKept(s, op, s');
      PurchasingKept(s, op, s');
    }
  }

  /** The invariant holds after any run of calls. */
  lemma {:induction false} Reachable(factors: Factors, ops: seq<Op>)
    requires FactorsPositive(factors)
    ensures Inv(After(factors, ops))
  {
    if ops == [] {
      InitialInv(factors);
    } else {
      Reachable(factors, ops[..|ops| - 1]);
      NextKeeps(After(factors, ops[..|ops| - 1]), ops[|ops| - 1]);
    }
  }
}
