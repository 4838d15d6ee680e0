/** What every step keeps about issue notes, transfers and stock-takes. */
module Documents {
  import opened Prelude
  import opened Ledger
  import opened Accounting
  import opened Model
  import opened Services
  import opened System
  import opened Effects

  predicate ValidMove(m: Move) {
    m.source != m.destination && ValidItems(m.lines)
  }

  /** An approval about a document that has been given. */
  predicate SignedOff(s: State, subject: Subject) {
    exists a :: 0 <= a < |s.approvals| && s.approvals[a].subject == subject && s.approvals[a].status.Approved?
  }

  /** An issue note is posted exactly when its rows are in the ledger. */
  ghost predicate IssueInv(s: State) {
    forall id :: 0 <= id < |s.issues| ==>
      ValidMove(s.issues[id]) && (s.issues[id].status.PostedDoc? <==> IsPosted(s.books, IssueDocument(id)))
  }

  /** A posted transfer has its rows in the ledger, and so has one whose approval was given. */
  predicate TransferSafe(s: State, id: nat)
    requires id < |s.transfers|
  {
    && ValidMove(s.transfers[id])
    && (s.transfers[id].status.PostedDoc? ==> IsPosted(s.books, TransferDocument(id)))
    && (SignedOff(s, OnTransfer(id)) ==> IsPosted(s.books, TransferDocument(id)))
  }

  ghost predicate TransferInv(s: State) {
    forall id :: 0 <= id < |s.transfers| ==> TransferSafe(s, id)
  }

  /** A stock-take not yet posted has no rows, and an approved one is posted. */
  predicate TakeSafe(s: State, id: nat)
    requires id < |s.takes|
  {
    && (forall i, j :: 0 <= i < j < |s.takes[id].lines| ==> s.takes[id].lines[i].product != s.takes[id].lines[j].product)
    && (IsPosted(s.books, TakeDocument(id)) ==> s.takes[id].status.PostedDoc?)
    && (SignedOff(s, OnTake(id)) ==> s.takes[id].status.PostedDoc?)
  }

  ghost predicate TakeInv(s: State) {
    && Distinct(s.activeProducts)
    && forall id :: 0 <= id < |s.takes| ==> TakeSafe(s, id)
  }

  /** Every approval and every posting is about a document that exists. */
  predicate KnownSubject(s: State, subject: Subject) {
    match subject
    case OnTransfer(id) => id < |s.transfers|
    case OnTake(id) => id < |s.takes|
    case OnWastage(id) => id < |s.wastage|
    case OnBudget(id) => id < |s.budgets|
  }

  ghost predicate ApprovalInv(s: State) {
    forall a :: 0 <= a < |s.approvals| ==> KnownSubject(s, s.approvals[a].subject)
  }

  ghost predicate BackedInv(s: State) {
    forall i :: 0 <= i < |s.books.outbox| ==> Backed(s, s.books.outbox[i].posting)
  }

  // ----- frames -----

  /** The step may submit approvals, but decides none. */
  predicate OnlySubmits(s: State, s': State) {
    && s.approvals <= s'.approvals
    && forall a :: |s.approvals| <= a < |s'.approvals| ==> s'.approvals[a].status.Undecided?
  }

  /** No new sign-off about `subject`. */
  predicate NoNewSignOff(s: State, s': State, subject: Subject) {
    SignedOff(s', subject) ==> SignedOff(s, subject)
  }

  lemma UnknownNotPosted(s: State, document: Document)
    requires BooksInv(s.books) && BackedInv(s)
    requires forall i :: 0 <= i < |s.books.outbox| ==> s.books.outbox[i].posting.document != document
    ensures !IsPosted(s.books, document)
  {
    OutboxMirrorsLedger(s.books, document);
  }

  /** The payload behind a posted document's rows. */
  lemma {:induction false} PayloadOf(s: State, document: Document) returns (posting: Posting)
    requires BooksInv(s.books) && BackedInv(s) && IsPosted(s.books, document)
    ensures posting.document == document && Backed(s, posting) && DocRows(s.books.ledger, document) == Rows(posting)
  {
    OutboxMirrorsLedger(s.books, document);
    var i :| 0 <= i < |s.books.outbox| && s.books.outbox[i].posting.document == document;
    posting := s.books.outbox[i].posting;
    assert Backed(s, posting);
  }

  /** A document that does not exist yet has no rows. */
  lemma FreshNotPosted(s: State)
    requires BooksInv(s.books) && BackedInv(s)
    ensures !IsPosted(s.books, IssueDocument(|s.issues|))
    ensures !IsPosted(s.books, TransferDocument(|s.transfers|))
    ensures !IsPosted(s.books, TakeDocument(|s.takes|))
    ensures !IsPosted(s.books, WastageDocument(|s.wastage|))
    ensures !IsPosted(s.books, OrderDocument(|s.sales|))
    ensures !IsPosted(s.books, GrnDocument(|s.grns|))
  {
    forall i | 0 <= i < |s.books.outbox|
      ensures var d := s.books.outbox[i].posting.document;
        && d != IssueDocument(|s.issues|) && d != TransferDocument(|s.transfers|) && d != TakeDocument(|s.takes|)
        && d != WastageDocument(|s.wastage|) && d != OrderDocument(|s.sales|) && d != GrnDocument(|s.grns|)
    {
      assert Backed(s, s.books.outbox[i].posting);
    }
    UnknownNotPosted(s, IssueDocument(|s.issues|));
    UnknownNotPosted(s, TransferDocument(|s.transfers|));
    UnknownNotPosted(s, TakeDocument(|s.takes|));
    UnknownNotPosted(s, WastageDocument(|s.wastage|));
    UnknownNotPosted(s, OrderDocument(|s.sales|));
    UnknownNotPosted(s, GrnDocument(|s.grns|));
  }

  lemma PostToPosts(s: State, posting: Posting, override: bool)
    requires PostTo(s, posting, override).Ok?
    ensures IsPosted(PostTo(s, posting, override).value.books, posting.document)
    ensures forall d :: d != posting.document ==>
      IsPosted(PostTo(s, posting, override).value.books, d) == IsPosted(s.books, d)
  {
    forall d: Document
      ensures d != posting.document ==>
        IsPosted(PostTo(s, posting, override).value.books, d) == IsPosted(s.books, d)
    {
      PostRows(s.books, posting, override, d);
    }
    PostRows(s.books, posting, override, posting.document);
  }

  // ----- issue notes -----

  lemma PostIssueKeeps(s: State, id: nat, override: bool, s': State)
    requires IssueInv(s) && PostIssue(s, id, override) == Ok(s')
    ensures IssueInv(s')
  {
    if s' != s {
      PostToPosts(s, Posting(IssueDocument(id), IssueLines(s.issues[id])), override);
    }
  }

  lemma {:induction false} NewIssueKeeps(s: State, note: Move)
    requires IssueInv(s) && ValidMove(note) && note.status.DraftDoc? && !IsPosted(s.books, IssueDocument(|s.issues|))
    ensures IssueInv(s.(issues := s.issues + [note]))
  {
    var issues' := s.issues + [note];
    forall id | 0 <= id < |issues'|
      ensures ValidMove(issues'[id]) && (issues'[id].status.PostedDoc? <==> IsPosted(s.books, IssueDocument(id)))
    {
      if id < |s.issues| {
        assert issues'[id] == s.issues[id];
      }
    }
  }

  lemma IssueFrame(s: State, s': State)
    requires IssueInv(s) && s'.issues == s.issues
    requires forall id :: 0 <= id < |s.issues| ==> IsPosted(s'.books, IssueDocument(id)) == IsPosted(s.books, IssueDocument(id))
    ensures IssueInv(s')
  {
  }

  // ----- transfers -----

  /** How posting leaves the transfer: unless it was routed, its rows are in the ledger. */
  predicate TransferMoved(s: State, id: nat, skip: bool, s': State, status: DocStatus) {
    && id < |s.transfers|
    && s'.transfers == SetTransfer(s, id, status).transfers
    && (skip ==> status.PostedDoc?)
    && (s.transfers[id].status.PostedDoc? ==> s' == s)
    && (status.PostedDoc? && s' != s ==> IsPosted(s'.books, TransferDocument(id)))
    && (s'.books == s.books || IsPosted(s'.books, TransferDocument(id)))
  }

  lemma PostTransferOutcome(s: State, id: nat, skip: bool, s': State)
    requires PostTransfer(s, id, skip) == Ok(s')
    ensures OnlySubmits(s, s')
    ensures exists status :: TransferMoved(s, id, skip, s', status)
  {
    if s.transfers[id].status.PostedDoc? {
      assert TransferMoved(s, id, skip, s', PostedDoc);
    } else if !skip && RequiresApproval(s.thresholds, TransferScope, TransferValue(s, id)) {
      assert TransferMoved(s, id, skip, s', PendingApproval);
    } else {
      PostToPosts(s, Posting(TransferDocument(id), TransferLines(s.transfers[id])), false);
      assert TransferMoved(s, id, skip, s', PostedDoc);
    }
  }

  lemma PostTransferKeeps(s: State, id: nat, skip: bool, s': State)
    requires PostTransfer(s, id, skip) == Ok(s')
    requires forall other :: 0 <= other < |s.transfers| && other != id ==> TransferSafe(s, other)
    requires ValidMove(s.transfers[id])
    requires s.transfers[id].status.PostedDoc? ==> IsPosted(s.books, TransferDocument(id))
    requires !skip ==> TransferSafe(s, id)
    ensures TransferInv(s')
    ensures skip ==> IsPosted(s'.books, TransferDocument(id))
  {
    PostTransferOutcome(s, id, skip, s');
    TransferEffect(s, id, skip);
    forall other | 0 <= other < |s'.transfers|
      ensures TransferSafe(s', other)
    {
      NewApprovalsUndecided(s, s', OnTransfer(other));
      if other != id {
        assert TransferSafe(s, other);
        RowsFrame(s, s', TransferDocument(id), false, TransferDocument(other));
      }
    }
  }

  /** Submitting adds an undecided approval, which signs nothing off. */
  lemma NewApprovalsUndecided(s: State, s': State, subject: Subject)
    requires OnlySubmits(s, s')
    ensures SignedOff(s', subject) ==> SignedOff(s, subject)
  {
    if SignedOff(s', subject) {
      var a :| 0 <= a < |s'.approvals| && s'.approvals[a].subject == subject && s'.approvals[a].status.Approved?;
      assert s.approvals[a] == s'.approvals[a];
    }
  }

  /** A decision only concerns its own subject. */
  lemma DecidedSignOff(s: State, a: nat, decision: ApprovalStatus, subject: Subject)
    requires a < |s.approvals| && !s.approvals[a].status.Approved?
    ensures s.approvals[a].subject != subject || !decision.Approved? ==>
      (SignedOff(Decided(s, a, decision), subject) ==> SignedOff(s, subject))
  {
    var s' := Decided(s, a, decision);
    if SignedOff(s', subject) && (s.approvals[a].subject != subject || !decision.Approved?) {
      var i :| 0 <= i < |s'.approvals| && s'.approvals[i].subject == subject && s'.approvals[i].status.Approved?;
      assert s.approvals[i] == s'.approvals[i];
    }
  }

  lemma TransferFrame(s: State, s': State)
    requires TransferInv(s) && s'.transfers == s.transfers
    requires forall id :: 0 <= id < |s.transfers| ==>
      && IsPosted(s'.books, TransferDocument(id)) == IsPosted(s.books, TransferDocument(id))
      && NoNewSignOff(s, s', OnTransfer(id))
    ensures TransferInv(s')
  {
    forall id | 0 <= id < |s'.transfers|
      ensures TransferSafe(s', id)
    {
      assert TransferSafe(s, id) && NoNewSignOff(s, s', OnTransfer(id));
    }
  }

  // ----- stock-takes -----

  /** How posting leaves the stock-take: unless it was routed, it is posted. */
  predicate TakeMoved(s: State, id: nat, skip: bool, s': State, status: DocStatus) {
    && id < |s.takes|
    && s'.takes == SetTake(s, id, status).takes
    && (skip || s'.approvals == s.approvals ==> status.PostedDoc?)
    && (status.PostedDoc? || s'.books == s.books)
  }

  lemma PostTakeOutcome(s: State, id: nat, skip: bool, s': State)
    requires PostTake(s, id, skip) == Ok(s')
    ensures s'.activeProducts == s.activeProducts && OnlySubmits(s, s')
    ensures exists status :: TakeMoved(s, id, skip, s', status)
  {
    if s.takes[id].status.PostedDoc? {
      assert TakeMoved(s, id, skip, s', PostedDoc);
    } else if Variant(s.takes[id].lines) == [] {
      assert TakeMoved(s, id, skip, s', PostedDoc);
    } else if !skip && RequiresApproval(s.thresholds, AdjustmentScope, TakeValue(s, id)) {
      assert TakeMoved(s, id, skip, s', PendingApproval);
    } else {
      assert TakeMoved(s, id, skip, s', PostedDoc);
    }
  }

  lemma PostTakeKeeps(s: State, id: nat, skip: bool, s': State)
    requires PostTake(s, id, skip) == Ok(s')
    requires Distinct(s.activeProducts)
    requires forall other :: 0 <= other < |s.takes| && other != id ==> TakeSafe(s, other)
    requires forall i, j :: 0 <= i < j < |s.takes[id].lines| ==> s.takes[id].lines[i].product != s.takes[id].lines[j].product
    requires IsPosted(s.books, TakeDocument(id)) ==> s.takes[id].status.PostedDoc?
    requires !skip ==> TakeSafe(s, id)
    ensures TakeInv(s')
    ensures skip ==> s'.takes[id].status.PostedDoc?
  {
    PostTakeOutcome(s, id, skip, s');
    TakeEffect(s, id, skip);
    forall other | 0 <= other < |s'.takes|
      ensures TakeSafe(s', other)
    {
      NewApprovalsUndecided(s, s', OnTake(other));
      if other != id {
        assert TakeSafe(s, other);
        RowsFrame(s, s', TakeDocument(id), true, TakeDocument(other));
      }
    }
  }

  lemma TakeFrame(s: State, s': State)
    requires TakeInv(s) && s'.takes == s.takes && Distinct(s'.activeProducts)
    requires forall id :: 0 <= id < |s.takes| ==>
      && IsPosted(s'.books, TakeDocument(id)) == IsPosted(s.books, TakeDocument(id))
      && NoNewSignOff(s, s', OnTake(id))
    ensures TakeInv(s')
  {
    forall id | 0 <= id < |s'.takes|
      ensures TakeSafe(s', id)
    {
      assert TakeSafe(s, id) && NoNewSignOff(s, s', OnTake(id));
    }
  }

  lemma OpenTakeKeeps(s: State, location: Location)
    requires TakeInv(s) && ApprovalInv(s) && BooksInv(s.books) && BackedInv(s)
    ensures TakeInv(OpenTake(s, location))
  {
    var s' := OpenTake(s, location);
    FreshNotPosted(s);
    forall id | 0 <= id < |s'.takes|
      ensures TakeSafe(s', id)
    {
      if id < |s.takes| {
        assert TakeSafe(s, id);
      }
    }
  }

  lemma RecordCountsKeeps(s: State, id: nat, counts: seq<ItemQty>, s': State)
    requires TakeInv(s) && RecordCounts(s, id, counts) == Ok(s')
    ensures TakeInv(s')
  {
    CountsTables(s, id, counts);
    forall other | 0 <= other < |s'.takes|
      ensures TakeSafe(s', other)
    {
      assert TakeSafe(s, other) && SameSheet(s.takes[other], s'.takes[other]);
    }
  }
}
