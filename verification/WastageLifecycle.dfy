/** The exact lifecycle of a wastage entry (backend/apps/wastage/services.py and models.py). */
module WastageLifecycle {
  import opened Prelude
  import opened Ledger
  import opened Accounting
  import opened Model
  import opened Services
  import opened System
  import opened Effects
  import opened Documents

  predicate Open(status: ApprovalStatus) { status.Undecided? || status.Investigation? }

  predicate About(s: State, subject: Subject, a: nat) {
    a < |s.approvals| && s.approvals[a].subject == subject
  }

  predicate AtMostOneApproval(s: State, subject: Subject) {
    forall a, b :: 0 <= a < |s.approvals| && 0 <= b < |s.approvals| && About(s, subject, a) && About(s, subject, b) ==> a == b
  }

  predicate HasApproval(s: State, subject: Subject, open: bool) {
    exists a :: 0 <= a < |s.approvals| && About(s, subject, a) &&
      if open then Open(s.approvals[a].status) else s.approvals[a].status.Rejected?
  }

  predicate AllApproved(s: State, subject: Subject) {
    forall a :: 0 <= a < |s.approvals| && About(s, subject, a) ==> s.approvals[a].status.Approved?
  }

  /** POSTED with its row and no open or rejected approval; PENDING with one open approval and
      no row; REJECTED with one rejected approval and no row. */
  predicate WastageExact(s: State, id: nat)
    requires id < |s.wastage|
  {
    && s.wastage[id].qty > 0
    && AtMostOneApproval(s, OnWastage(id))
    && match s.wastage[id].status
       case PostedDoc => IsPosted(s.books, WastageDocument(id)) && AllApproved(s, OnWastage(id))
       case PendingApproval => !IsPosted(s.books, WastageDocument(id)) && HasApproval(s, OnWastage(id), true)
       case RejectedDoc => !IsPosted(s.books, WastageDocument(id)) && HasApproval(s, OnWastage(id), false)
       case DraftDoc => false
  }

  ghost predicate WastageInv(s: State) {
    forall id :: 0 <= id < |s.wastage| ==> WastageExact(s, id)
  }

  /** The approvals about `subject` are the same in both states. */
  ghost predicate SameApprovals(s: State, s': State, subject: Subject) {
    && (forall a: nat :: About(s, subject, a) ==> About(s', subject, a) && s'.approvals[a] == s.approvals[a])
    && (forall a: nat :: About(s', subject, a) ==> About(s, subject, a))
  }

  lemma SameApprovalsKeep(s: State, s': State, id: nat)
    requires id < |s.wastage| && id < |s'.wastage| && s'.wastage[id] == s.wastage[id]
    requires IsPosted(s'.books, WastageDocument(id)) == IsPosted(s.books, WastageDocument(id))
    requires SameApprovals(s, s', OnWastage(id)) && WastageExact(s, id)
    ensures WastageExact(s', id)
  {
    var subject := OnWastage(id);
    forall open | HasApproval(s, subject, open)
      ensures HasApproval(s', subject, open)
    {
      var a :| 0 <= a < |s.approvals| && About(s, subject, a) &&
        if open then Open(s.approvals[a].status) else s.approvals[a].status.Rejected?;
      assert About(s', subject, a);
    }
  }

  lemma WastageFrame(s: State, s': State)
    requires WastageInv(s) && s'.wastage == s.wastage
    requires forall id :: 0 <= id < |s.wastage| ==>
      && IsPosted(s'.books, WastageDocument(id)) == IsPosted(s.books, WastageDocument(id))
      && SameApprovals(s, s', OnWastage(id))
    ensures WastageInv(s')
  {
    forall id | 0 <= id < |s'.wastage|
      ensures WastageExact(s', id)
    {
      assert WastageExact(s, id);
      SameApprovalsKeep(s, s', id);
    }
  }

  /** A new entry is pending with an undecided approval, or posted without any. */
  predicate Logged(s: State, op: Op, s': State)
    requires op.OpCreateWastage?
  {
    var id, logged := |s.wastage|, LoggedEntry(s, op);
    || (&& s'.wastage == SetWastage(logged, id, PendingApproval).wastage
        && s'.books == s.books
        && |s'.approvals| == |s.approvals| + 1
        && s.approvals <= s'.approvals
        && s'.approvals[|s.approvals|].subject == OnWastage(id)
        && s'.approvals[|s.approvals|].status.Undecided?)
    || (&& s'.wastage == SetWastage(logged, id, PostedDoc).wastage
        && s'.approvals == s.approvals
        && IsPosted(s'.books, WastageDocument(id)))
  }

  lemma CreateWastageOutcome(s: State, op: Op, s': State)
    requires op.OpCreateWastage? && Step(s, op) == Ok(s')
    ensures op.qty > 0 && Logged(s, op, s')
  {
    var id, logged := |s.wastage|, LoggedEntry(s, op);
    if !RequiresApproval(s.thresholds, WastageThreshold(op.entryType), logged.wastage[id].value) {
      PostToPosts(logged, Posting(WastageDocument(id), WastageLines(logged.wastage[id])), true);
    }
  }

  /** Logging an entry posts it at once or opens its single approval. */
  lemma CreateWastageKeeps(s: State, op: Op, s': State)
    requires op.OpCreateWastage? && Step(s, op) == Ok(s')
    requires WastageInv(s) && ApprovalInv(s) && BooksInv(s.books) && BackedInv(s)
    ensures WastageInv(s')
  {
    CreateWastageOutcome(s, op, s');
    CreateWastageEffect(s, op, s');
    FreshNotPosted(s);
    LoggedKeeps(s, op, s');
  }

  lemma LoggedKeeps(s: State, op: Op, s': State)
    requires op.OpCreateWastage? && op.qty > 0 && Logged(s, op, s')
    requires PostsOnly(s, s', WastageDocument(|s.wastage|), true) && !IsPosted(s.books, WastageDocument(|s.wastage|))
    requires WastageInv(s) && ApprovalInv(s)
    ensures WastageInv(s')
  {
    var id := |s.wastage|;
    forall a | 0 <= a < |s.approvals|
      ensures !About(s, OnWastage(id), a)
    {
      assert KnownSubject(s, s.approvals[a].subject);
    }
    forall other | 0 <= other < |s'.wastage|
      ensures WastageExact(s', other)
    {
      if other < id {
        assert WastageExact(s, other);
        RowsFrame(s, s', WastageDocument(id), true, WastageDocument(other));
        SameApprovalsKeep(s, s', other);
      } else if |s'.approvals| > |s.approvals| {
        assert About(s', OnWastage(id), |s.approvals|);
        assert HasApproval(s', OnWastage(id), true);
      }
    }
  }

  /** What a decision does to the entry and its row. */
  predicate WastageDecided(decided: State, id: nat, decision: ApprovalStatus, s': State)
    requires id < |decided.wastage|
  {
    && s'.approvals == decided.approvals
    && match decision
       case Approved =>
         && s'.wastage == SetWastage(decided, id, PostedDoc).wastage
         && (decided.wastage[id].status.PostedDoc? || IsPosted(s'.books, WastageDocument(id)))
       case Rejected => s'.wastage == SetWastage(decided, id, RejectedDoc).wastage && s'.books == decided.books
       case _ => s' == decided
  }

  lemma {:induction false} WastageDecision(decided: State, id: nat, decision: ApprovalStatus, s': State)
    requires id < |decided.wastage| && !decision.Undecided?
    requires Callback(decided, OnWastage(id), decision) == Ok(s')
    ensures WastageDecided(decided, id, decision, s')
    ensures PostsOnly(decided, s', WastageDocument(id), true)
  {
    CallbackEffect(decided, OnWastage(id), decision);
    if decision.Approved? {
      if decided.wastage[id].status.PostedDoc? {
        assert s'.wastage == SetWastage(decided, id, PostedDoc).wastage;
      } else {
        PostToPosts(decided, Posting(WastageDocument(id), WastageLines(decided.wastage[id])), true);
      }
    }
  }

  /** Deciding the entry's approval posts it, rejects it, or keeps it pending. */
  lemma DecideWastageKeeps(s: State, a: nat, decision: ApprovalStatus, id: nat, s': State)
    requires a < |s.approvals| && s.approvals[a].subject == OnWastage(id) && Open(s.approvals[a].status)
    requires !decision.Undecided? && id < |s.wastage|
    requires WastageDecided(Decided(s, a, decision), id, decision, s')
    requires PostsOnly(Decided(s, a, decision), s', WastageDocument(id), true)
    requires WastageInv(s)
    ensures WastageInv(s')
  {
    forall other | 0 <= other < |s.wastage| && other != id
      ensures WastageExact(s', other)
    {
      OtherEntryKept(s, a, decision, id, s', other);
    }
    DecidedEntryExact(s, a, decision, id, s');
  }

  lemma {:induction false} OtherEntryKept(s: State, a: nat, decision: ApprovalStatus, id: nat, s': State, other: nat)
    requires a < |s.approvals| && s.approvals[a].subject == OnWastage(id) && id < |s.wastage|
    requires WastageDecided(Decided(s, a, decision), id, decision, s')
    requires PostsOnly(Decided(s, a, decision), s', WastageDocument(id), true)
    requires other < |s.wastage| && other != id && WastageExact(s, other)
    ensures WastageExact(s', other)
  {
    RowsFrame(Decided(s, a, decision), s', WastageDocument(id), true, WastageDocument(other));
    SameApprovalsKeep(s, s', other);
  }

  lemma {:induction false} DecidedEntryExact(s: State, a: nat, decision: ApprovalStatus, id: nat, s': State)
    requires a < |s.approvals| && s.approvals[a].subject == OnWastage(id) && Open(s.approvals[a].status)
    requires !decision.Undecided? && id < |s.wastage| && WastageExact(s, id)
    requires WastageDecided(Decided(s, a, decision), id, decision, s')
    ensures WastageExact(s', id)
  {
    var subject := OnWastage(id);
    assert About(s, subject, a);
    assert forall b: nat :: About(s', subject, b) ==> About(s, subject, b);
    assert About(s', subject, a) && s'.approvals[a].status == decision;
  }

  /** POSTED iff the single row of minus its quantity is in the ledger, PENDING iff its only
      approval is undecided (or under investigation), REJECTED iff that approval was rejected;
      no other status, and no rows unless POSTED. */
  predicate StatusMeans(s: State, id: nat)
    requires id < |s.wastage|
  {
    var entry := s.wastage[id];
    && !entry.status.DraftDoc?
    && DocRows(s.books.ledger, WastageDocument(id)) ==
         (if entry.status.PostedDoc? then [Movement(entry.key, -entry.qty, Wastage, None, WastageDocument(id))] else [])
    && (entry.status.PendingApproval? <==> HasApproval(s, OnWastage(id), true))
    && (entry.status.RejectedDoc? <==> HasApproval(s, OnWastage(id), false))
    && AtMostOneApproval(s, OnWastage(id))
  }

  lemma WastageRow(entry: WastageEntry, document: Document)
    ensures Rows(Posting(document, WastageLines(entry))) == [Movement(entry.key, -entry.qty, Wastage, None, document)]
  {
    assert Round(-entry.qty * FINE) == -entry.qty;
  }

  lemma WastageStatusMeans(s: State, id: nat)
    requires WastageInv(s) && BooksInv(s.books) && BackedInv(s) && id < |s.wastage|
    ensures StatusMeans(s, id)
  {
    assert WastageExact(s, id);
    if s.wastage[id].status.PostedDoc? {
      PostedWastageRows(s, id);
    }
  }

  lemma PostedWastageRows(s: State, id: nat)
    requires BooksInv(s.books) && BackedInv(s) && id < |s.wastage| && IsPosted(s.books, WastageDocument(id))
    ensures var entry := s.wastage[id];
      DocRows(s.books.ledger, WastageDocument(id)) == [Movement(entry.key, -entry.qty, Wastage, None, WastageDocument(id))]
  {
    var posting := PayloadOf(s, WastageDocument(id));
    WastageRow(s.wastage[id], WastageDocument(id));
  }
}
