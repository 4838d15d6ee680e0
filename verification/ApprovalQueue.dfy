/** The approval queue: when posting again releases a queued document, what an approval records,
    and what it does to a budget (backend/apps/core/services.py, backend/apps/inventory/services.py,
    backend/apps/procurement/services.py and models.py). */
module ApprovalQueue {
  import opened Prelude
  import opened Ledger
  import opened Accounting
  import opened Deduction
  import opened Model
  import opened Services
  import opened System
  import opened Effects
  import opened Documents
  import opened WastageLifecycle
  import opened SalesLifecycle
  import opened Invariant
  import opened Moves
  import opened Runs
  import opened StockTakes

  // ----- releasing queued documents without a decision -----

  /** The value is not above the threshold, or none is set. */
  predicate Within(value: int, threshold: Option<nat>) {
    threshold.None? || value <= threshold.value * 1000
  }

  /** The threshold of the scope is changed and the transfer posted again. */
  function AfterRepost(s: State, id: nat, threshold: Option<nat>): State {
    Next(Next(s, OpSetThreshold(TransferScope, threshold)), OpPostTransfer(id))
  }

  /** Posting a transfer without rows writes them exactly when it has lines, is not routed to the
      Manager, and stock covers it. */
  lemma {:induction false} PostingWritesTransferIff(s: State, id: nat)
    requires TransferInv(s) && id < |s.transfers| && !IsPosted(s.books, TransferDocument(id))
    ensures var after := Next(s, OpPostTransfer(id));
      IsPosted(after.books, TransferDocument(id)) <==>
        s.transfers[id].lines != [] && !Routed(s, id, false) && Covered(s.books.balances, s.transfers[id])
    ensures var after := Next(s, OpPostTransfer(id));
      IsPosted(after.books, TransferDocument(id)) ==> after.approvals == s.approvals
  {
    assert TransferSafe(s, id);
    TransferCommitsIff(s, id, false);
    if s.transfers[id].lines != [] && !Routed(s, id, false) {
      CoveredTransferPosts(s, id);
    }
  }

  lemma {:induction false} CoveredTransferPosts(s: State, id: nat)
    requires id < |s.transfers| && !s.transfers[id].status.PostedDoc? && s.transfers[id].lines != [] && !Routed(s, id, false)
    ensures PostTransfer(s, id, false).Ok? ==>
      && IsPosted(PostTransfer(s, id, false).value.books, TransferDocument(id))
      && PostTransfer(s, id, false).value.approvals == s.approvals
  {
    var posting := Posting(TransferDocument(id), TransferLines(s.transfers[id]));
    if PostTo(s, posting, false).Ok? {
      PostToPosts(s, posting, false);
    }
  }

  /** A transfer without rows, queued or not, gets its rows by changing the threshold and posting it
      again exactly when it has lines, its value is within the new threshold and stock covers it;
      no approval is decided or added by that. */
  lemma {:induction false} RepostReleasesTransferIff(s: State, id: nat, threshold: Option<nat>)
    requires TransferInv(s) && id < |s.transfers| && !IsPosted(s.books, TransferDocument(id))
    ensures IsPosted(AfterRepost(s, id, threshold).books, TransferDocument(id)) <==>
      && s.transfers[id].lines != []
      && Within(TransferValue(s, id), threshold)
      && Covered(s.books.balances, s.transfers[id])
    ensures IsPosted(AfterRepost(s, id, threshold).books, TransferDocument(id)) ==>
      AfterRepost(s, id, threshold).approvals == s.approvals
  {
    var changed := SetThreshold(s, TransferScope, threshold);
    TransferFrame(s, changed);
    PostingWritesTransferIff(changed, id);
    assert Routed(changed, id, false) <==> !Within(TransferValue(s, id), threshold);
  }

  /** The same for a stock-take. */
  function AfterRetake(s: State, id: nat, threshold: Option<nat>): State {
    Next(Next(s, OpSetThreshold(AdjustmentScope, threshold)), OpPostTake(id))
  }

  /** Adjustments are always accepted: they post with the override and store exactly. */
  lemma {:induction false} AdjustmentsAccepted(balances: map<Key, int>, location: Location, variant: seq<ItemQty>)
    requires forall i :: 0 <= i < |variant| ==> variant[i].qty != 0
    ensures FirstFault(balances, AdjustmentLines(location, variant), true).None?
  {
    var lines := AdjustmentLines(location, variant);
    FaultFreePrefixes(balances, lines, true);
    forall i | 0 <= i < |lines|
      ensures AcceptedAt(balances, lines, true, i)
    {
      assert lines[i].qty == variant[i].qty * FINE;
      assert Round(lines[i].qty) == variant[i].qty;
    }
  }

  lemma {:induction false} VariantNonZero(lines: seq<CountLine>)
    ensures forall i :: 0 <= i < |Variant(lines)| ==> Variant(lines)[i].qty != 0
  {
    if lines != [] {
      VariantNonZero(lines[..|lines| - 1]);
    }
  }

  lemma {:induction false} PostingWritesTakeIff(s: State, id: nat)
    requires id < |s.takes| && !IsPosted(s.books, TakeDocument(id))
    ensures var after := Next(s, OpPostTake(id));
      IsPosted(after.books, TakeDocument(id)) <==>
        && !s.takes[id].status.PostedDoc?
        && Variant(s.takes[id].lines) != []
        && !RequiresApproval(s.thresholds, AdjustmentScope, TakeValue(s, id))
    ensures var after := Next(s, OpPostTake(id));
      IsPosted(after.books, TakeDocument(id)) ==> after.approvals == s.approvals
  {
    var take := s.takes[id];
    var posting := Posting(TakeDocument(id), TakeLines(take));
    VariantNonZero(take.lines);
    AdjustmentsAccepted(s.books.balances, take.location, Variant(take.lines));
    if Variant(take.lines) != [] {
      PostToPosts(s, posting, true);
    }
  }

  /** The same for a stock-take: one without rows gets them exactly when it is not closed, has a
      variance, and its value is within the new threshold. */
  lemma {:induction false} RepostReleasesTakeIff(s: State, id: nat, threshold: Option<nat>)
    requires id < |s.takes| && !IsPosted(s.books, TakeDocument(id))
    ensures IsPosted(AfterRetake(s, id, threshold).books, TakeDocument(id)) <==>
      && !s.takes[id].status.PostedDoc?
      && Variant(s.takes[id].lines) != []
      && Within(TakeValue(s, id), threshold)
    ensures IsPosted(AfterRetake(s, id, threshold).books, TakeDocument(id)) ==>
      AfterRetake(s, id, threshold).approvals == s.approvals
  {
    var changed := SetThreshold(s, AdjustmentScope, threshold);
    PostingWritesTakeIff(changed, id);
    assert RequiresApproval(changed.thresholds, AdjustmentScope, TakeValue(s, id)) <==> !Within(TakeValue(s, id), threshold);
  }

  /** Both, in every reachable state. */
  lemma {:induction false} RepostReleasesIff(factors: Factors, ops: seq<Op>, id: nat, threshold: Option<nat>)
    requires FactorsPositive(factors)
    ensures var s := After(factors, ops);
      id < |s.transfers| && !IsPosted(s.books, TransferDocument(id)) ==>
        (IsPosted(AfterRepost(s, id, threshold).books, TransferDocument(id)) <==>
          && s.transfers[id].lines != []
          && Within(TransferValue(s, id), threshold)
          && Covered(s.books.balances, s.transfers[id]))
    ensures var s := After(factors, ops);
      id < |s.takes| && !IsPosted(s.books, TakeDocument(id)) ==>
        (IsPosted(AfterRetake(s, id, threshold).books, TakeDocument(id)) <==>
          && !s.takes[id].status.PostedDoc?
          && Variant(s.takes[id].lines) != []
          && Within(TakeValue(s, id), threshold))
  {
    var s := After(factors, ops);
    Reachable(factors, ops);
    if id < |s.transfers| && !IsPosted(s.books, TransferDocument(id)) {
      RepostReleasesTransferIff(s, id, threshold);
    }
    if id < |s.takes| && !IsPosted(s.books, TakeDocument(id)) {
      RepostReleasesTakeIff(s, id, threshold);
    }
  }

  // ----- when a decision can be made -----

  /** Approving the transfer can post it: it is posted already, or has lines and its rows are there
      or stock covers it. */
  predicate Postable(s: State, id: nat)
    requires id < |s.transfers|
  {
    || s.transfers[id].status.PostedDoc?
    || (s.transfers[id].lines != [] &&
          (IsPosted(s.books, TransferDocument(id)) || Covered(s.books.balances, s.transfers[id])))
  }

  lemma {:induction false} ApprovedTransferCommitsIff(s: State, id: nat)
    requires id < |s.transfers| && ValidMove(s.transfers[id])
    ensures PostTransfer(s, id, true).Ok? <==> Postable(s, id)
  {
    var m := s.transfers[id];
    PairFaultFreeIff(s.books.balances, m, Sides(TransferOut, TransferIn), false);
    PairAt(m.source, m.destination, m.lines, Sides(TransferOut, TransferIn));
  }

  lemma {:induction false} ApprovedTakeCommits(s: State, id: nat)
    requires id < |s.takes|
    ensures PostTake(s, id, true).Ok?
  {
    var take := s.takes[id];
    VariantNonZero(take.lines);
    AdjustmentsAccepted(s.books.balances, take.location, Variant(take.lines));
  }

  lemma {:induction false} ApprovedWastageCommits(s: State, id: nat)
    requires id < |s.wastage| && s.wastage[id].qty > 0
    ensures PostWastageEntry(s, id).Ok?
  {
    var lines := WastageLines(s.wastage[id]);
    FaultFreePrefixes(s.books.balances, lines, true);
    assert Round(lines[0].qty) == -s.wastage[id].qty;
    assert AcceptedAt(s.books.balances, lines, true, 0);
  }

  /** The documents an approval can be about are ready for its callback. */
  predicate ReadyFor(s: State, subject: Subject) {
    && KnownSubject(s, subject)
    && (subject.OnTransfer? ==> ValidMove(s.transfers[subject.id]))
    && (subject.OnWastage? ==> s.wastage[subject.id].qty > 0)
  }

  /** A callback fails only where it is to post a transfer that cannot be posted. */
  lemma {:induction false} CallbackCommitsIff(s: State, subject: Subject, decision: ApprovalStatus)
    requires ReadyFor(s, subject)
    ensures Callback(s, subject, decision).Ok? <==> (decision.Approved? && subject.OnTransfer? ==> Postable(s, subject.id))
  {
    if decision.Approved? {
      match subject
      case OnTransfer(id) => ApprovedTransferCommitsIff(s, id);
      case OnTake(id) => ApprovedTakeCommits(s, id);
      case OnWastage(id) => ApprovedWastageCommits(s, id);
      case OnBudget(_) =>
    }
  }

  /** The approval is open, the decision is one, and a rejection gives its reason. */
  predicate Decidable(s: State, a: nat, decision: ApprovalStatus, reasonGiven: bool) {
    && a < |s.approvals|
    && Open(s.approvals[a].status)
    && !decision.Undecided?
    && (decision.Rejected? ==> reasonGiven)
  }

  /** In every reachable state a well-formed decision on an open approval commits, except that a
      transfer can be approved only if it can be posted; approving a stock-take, a wastage entry
      or a budget, rejecting and investigating always commit. */
  lemma {:induction false} DecisionCommitsIff(factors: Factors, ops: seq<Op>, a: nat, decision: ApprovalStatus, reasonGiven: bool)
    requires FactorsPositive(factors) && a < |After(factors, ops).approvals|
    ensures var s := After(factors, ops);
      var subject := s.approvals[a].subject;
      && KnownSubject(s, subject)
      && (Decide(s, a, decision, reasonGiven).Ok? <==>
            && Decidable(s, a, decision, reasonGiven)
            && (decision.Approved? && subject.OnTransfer? ==> Postable(s, subject.id)))
  {
    ReachableReady(factors, ops, a);
    var s := After(factors, ops);
    CallbackCommitsIff(Decided(s, a, decision), s.approvals[a].subject, decision);
  }

  lemma {:induction false} ReachableReady(factors: Factors, ops: seq<Op>, a: nat)
    requires FactorsPositive(factors) && a < |After(factors, ops).approvals|
    ensures ReadyFor(After(factors, ops), After(factors, ops).approvals[a].subject)
  {
    var s := After(factors, ops);
    Reachable(factors, ops);
    assert KnownSubject(s, s.approvals[a].subject);
    match s.approvals[a].subject
    case OnTransfer(id) => assert TransferSafe(s, id);
    case OnWastage(id) => assert WastageExact(s, id);
    case _ =>
  }

  // ----- what an approval records -----

  /** The threshold in force for an approval's scope; a budget has no scope and no threshold. */
  function InForce(thresholds: map<Scope, nat>, scope: Option<Scope>): Option<int> {
    if scope.Some? && scope.value in thresholds then Some(thresholds[scope.value]) else None
  }

  /** The approval carries the threshold in force, and is undecided. */
  predicate Fresh(approval: Approval, thresholds: map<Scope, nat>) {
    approval.status.Undecided? && approval.thresholdSnapshot == InForce(thresholds, approval.scope)
  }

  /** A step that submits carries the thresholds of its own time. */
  lemma {:induction false} SubmissionIsFresh(s: State, op: Op, s': State, a: nat)
    requires Step(s, op) == Ok(s') && !op.OpDecide? && |s.approvals| <= a < |s'.approvals|
    ensures Fresh(s'.approvals[a], s.thresholds)
  {
    if op.OpPostTransfer? {
    } else if op.OpPostTake? {
    } else if op.OpCreateWastage? {
      WastageSubmissionIsFresh(s, op, s', a);
    } else if op.OpSubmitBudget? {
    } else {
      NothingSubmitted(s, op, s');
    }
  }

  lemma {:induction false} WastageSubmissionIsFresh(s: State, op: Op, s': State, a: nat)
    requires op.OpCreateWastage? && Step(s, op) == Ok(s') && |s.approvals| <= a < |s'.approvals|
    ensures Fresh(s'.approvals[a], s.thresholds)
  {
  }

  /** Only a decision changes an approval, and only its status. */
  lemma {:induction false} ApprovalKept(s: State, op: Op, a: nat)
    requires a < |s.approvals|
    ensures a < |Next(s, op).approvals|
    ensures Next(s, op).approvals[a] == s.approvals[a].(status := Next(s, op).approvals[a].status)
  {
    if Step(s, op).Ok? {
      if op.OpDecide? {
        DecideApprovals(s, op, Step(s, op).value);
      } else {
        StepSubmits(s, op, Step(s, op).value);
      }
    }
  }

  /** Call `i` submitted approval `a`, which still carries the threshold in force just before. */
  predicate SubmittedAt(factors: Factors, ops: seq<Op>, i: nat, a: nat, approval: Approval)
    requires i < |ops|
  {
    var s, s' := After(factors, ops[..i]), After(factors, ops[..i + 1]);
    && |s.approvals| <= a < |s'.approvals|
    && Fresh(s'.approvals[a], s.thresholds)
    && approval == s'.approvals[a].(status := approval.status)
  }

  /** Every approval was submitted by one call, and whatever happens to the thresholds later, it
      keeps its document, its scope and the threshold in force when it was submitted. */
  lemma {:induction false} SnapshotIsThresholdAtSubmission(factors: Factors, ops: seq<Op>, a: nat) returns (i: nat)
    requires a < |After(factors, ops).approvals|
    ensures i < |ops| && SubmittedAt(factors, ops, i, a, After(factors, ops).approvals[a])
  {
    var n := |ops| - 1;
    var s := After(factors, ops[..n]);
    assert ops[..n + 1] == ops;
    if a < |s.approvals| {
      i := SnapshotIsThresholdAtSubmission(factors, ops[..n], a);
      assert ops[..n][..i] == ops[..i] && ops[..n][..i + 1] == ops[..i + 1];
      ApprovalKept(s, ops[n], a);
    } else {
      i := n;
      if ops[n].OpDecide? && Step(s, ops[n]).Ok? {
        DecideApprovals(s, ops[n], Step(s, ops[n]).value);
      }
      SubmissionIsFresh(s, ops[n], After(factors, ops), a);
    }
  }

  // ----- budgets -----

  /** What a budget is while its approval has the given status. */
  function BudgetFor(status: ApprovalStatus): BudgetStatus {
    match status
    case Approved => BudgetApproved
    case Rejected => BudgetRejected
    case _ => BudgetSubmitted
  }

  predicate Unsubmitted(s: State, id: nat) {
    forall a: nat :: a < |s.approvals| ==> !About(s, OnBudget(id), a)
  }

  /** A budget is a draft iff it was never submitted; otherwise it has one approval, and its status
      says what became of that. */
  ghost predicate BudgetExact(s: State, id: nat)
    requires id < |s.budgets|
  {
    && AtMostOneApproval(s, OnBudget(id))
    && (s.budgets[id].status.BudgetDraft? <==> Unsubmitted(s, id))
    && forall a: nat :: About(s, OnBudget(id), a) ==> s.budgets[id].status == BudgetFor(s.approvals[a].status)
  }

  ghost predicate BudgetInv(s: State) {
    forall id :: 0 <= id < |s.budgets| ==> BudgetExact(s, id)
  }

  lemma {:induction false} BudgetFrame(s: State, s': State, id: nat)
    requires id < |s.budgets| && BudgetExact(s, id)
    requires id < |s'.budgets| && s'.budgets[id] == s.budgets[id] && SameApprovals(s, s', OnBudget(id))
    ensures BudgetExact(s', id)
  {
  }

  lemma {:induction false} NewBudgetKeeps(s: State, op: Op, s': State)
    requires op.OpCreateBudget? && Step(s, op) == Ok(s') && BudgetInv(s) && ApprovalInv(s)
    ensures BudgetInv(s')
  {
    forall id | 0 <= id < |s'.budgets|
      ensures BudgetExact(s', id)
    {
      if id < |s.budgets| {
        BudgetFrame(s, s', id);
      } else {
        forall a: nat | a < |s.approvals|
          ensures !About(s', OnBudget(id), a)
        {
          assert KnownSubject(s, s.approvals[a].subject);
        }
      }
    }
  }

  lemma {:induction false} SubmitBudgetKeeps(s: State, op: Op, s': State)
    requires op.OpSubmitBudget? && Step(s, op) == Ok(s') && BudgetInv(s)
    ensures BudgetInv(s')
  {
    forall id | 0 <= id < |s'.budgets|
      ensures BudgetExact(s', id)
    {
      assert BudgetExact(s, id);
      if id != op.id {
        BudgetFrame(s, s', id);
      } else {
        assert About(s', OnBudget(id), |s.approvals|);
      }
    }
  }

  lemma {:induction false} DecidedBudgetExact(s: State, a: nat, decision: ApprovalStatus, id: nat, s': State)
    requires id < |s.budgets| && BudgetExact(s, id) && About(s, OnBudget(id), a)
    requires s'.approvals == s.approvals[a := s.approvals[a].(status := decision)]
    requires id < |s'.budgets| && s'.budgets[id].status == BudgetFor(decision)
    ensures BudgetExact(s', id)
  {
    assert forall other: nat :: About(s', OnBudget(id), other) == About(s, OnBudget(id), other);
  }

  /** Deciding a budget's approval gives the budget the status that decision means. */
  lemma {:induction false} DecisionSetsBudget(s: State, op: Op, id: nat, s': State)
    requires op.OpDecide? && Step(s, op) == Ok(s')
    requires id < |s.budgets| && BudgetExact(s, id) && About(s, OnBudget(id), op.approval)
    ensures id < |s'.budgets| && s'.budgets[id].status == BudgetFor(op.decision)
  {
    DecideApprovals(s, op, s');
  }

  lemma {:induction false} DecideBudgetKeeps(s: State, op: Op, s': State)
    requires op.OpDecide? && Step(s, op) == Ok(s') && BudgetInv(s) && ApprovalInv(s)
    ensures BudgetInv(s')
  {
    var subject := s.approvals[op.approval].subject;
    DecideApprovals(s, op, s');
    DecideKeepsBudgets(s, op, s');
    assert KnownSubject(s, subject);
    forall id | 0 <= id < |s'.budgets|
      ensures BudgetExact(s', id)
    {
      assert BudgetExact(s, id);
      if subject == OnBudget(id) {
        DecisionSetsBudget(s, op, id, s');
        DecidedBudgetExact(s, op.approval, op.decision, id, s');
      } else {
        BudgetFrame(s, s', id);
      }
    }
  }

  lemma {:induction false} OtherStepKeepsBudgets(s: State, op: Op, s': State)
    requires Step(s, op) == Ok(s') && !BudgetStep(op) && BudgetInv(s)
    ensures BudgetInv(s')
  {
    BudgetsGrow(s, op, s');
    StepSubmits(s, op, s');
    forall id | 0 <= id < |s'.budgets|
      ensures BudgetExact(s', id)
    {
      BudgetFrame(s, s', id);
    }
  }

  lemma {:induction false} BudgetsKept(s: State, op: Op)
    requires BudgetInv(s) && ApprovalInv(s)
    ensures BudgetInv(Next(s, op))
  {
    if Step(s, op).Ok? {
      var s' := Step(s, op).value;
      if op.OpCreateBudget? {
        NewBudgetKeeps(s, op, s');
      } else if op.OpSubmitBudget? {
        SubmitBudgetKeeps(s, op, s');
      } else if op.OpDecide? {
        DecideBudgetKeeps(s, op, s');
      } else {
        OtherStepKeepsBudgets(s, op, s');
      }
    }
  }

  /** In every reachable state a budget is a draft iff it was never submitted, and otherwise its
      status is what its one approval says. */
  lemma {:induction false} BudgetsAreExact(factors: Factors, ops: seq<Op>)
    requires FactorsPositive(factors)
    ensures BudgetInv(After(factors, ops))
  {
    if ops != [] {
      var n := |ops| - 1;
      BudgetsAreExact(factors, ops[..n]);
      Reachable(factors, ops[..n]);
      BudgetsKept(After(factors, ops[..n]), ops[n]);
    }
  }

  /** A purchase order is only ever raised against a budget whose approval has been given. */
  lemma {:induction false} OrdersNeedApproval(factors: Factors, ops: seq<Op>, op: Op)
    requires FactorsPositive(factors) && op.OpCreatePo? && Step(After(factors, ops), op).Ok?
    ensures SignedOff(After(factors, ops), OnBudget(op.budget))
  {
    var s := After(factors, ops);
    BudgetsAreExact(factors, ops);
    assert BudgetExact(s, op.budget);
    var a: nat :| a < |s.approvals| && About(s, OnBudget(op.budget), a);
    assert s.approvals[a].status.Approved?;
  }
}
