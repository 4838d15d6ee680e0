/** Safety over whole runs: what must have happened for the ledger to be as it is. */
module Runs {
  import opened Prelude
  import opened Ledger
  import opened Accounting
  import opened Deduction
  import opened Model
  import opened Services
  import opened System
  import opened Effects
  import opened Documents
  import opened WastageLifecycle
  import opened SalesLifecycle
  import opened Invariant

  lemma AfterStep(factors: Factors, ops: seq<Op>, i: nat)
    requires i < |ops|
    ensures After(factors, ops[..i + 1]) == Next(After(factors, ops[..i]), ops[i])
  {
    assert ops[..i + 1][..i] == ops[..i];
  }

  // ----- nothing is taken back -----

  /** Ledger rows are only appended, and a posted document is never written again. */
  ghost predicate RowsKept(b: Books, b': Books) {
    b.ledger <= b'.ledger && forall d :: IsPosted(b, d) ==> DocRows(b'.ledger, d) == DocRows(b.ledger, d)
  }

  lemma RowsKeptTransitive(b: Books, b1: Books, b2: Books)
    requires RowsKept(b, b1) && RowsKept(b1, b2)
    ensures RowsKept(b, b2)
  {
    forall d | IsPosted(b, d)
      ensures DocRows(b2.ledger, d) == DocRows(b.ledger, d)
    {
      assert IsPosted(b1, d);
    }
  }

  lemma {:induction false} NextEffect(s: State, op: Op)
    requires Inv(s)
    ensures Grows(s, Next(s, op)) && RowsKept(s.books, Next(s, op).books)
  {
    if Step(s, op).Ok? {
      var s' := Step(s, op).value;
      RefsOfSales(s);
      StepEffect(s, op, s');
      forall d | IsPosted(s.books, d)
        ensures DocRows(s'.books.ledger, d) == DocRows(s.books.ledger, d)
      {
        StepRows(s, op, s', d);
      }
    } else {
      GrowsReflexive(s);
    }
  }

  lemma GrowsTransitive(s: State, s1: State, s2: State)
    requires Grows(s, s1) && Grows(s1, s2)
    ensures Grows(s, s2)
  {
    forall i | 0 <= i < |s.issues| ensures SameMove(s.issues[i], s2.issues[i]) {
      assert SameMove(s.issues[i], s1.issues[i]) && SameMove(s1.issues[i], s2.issues[i]);
    }
    forall i | 0 <= i < |s.transfers| ensures SameMove(s.transfers[i], s2.transfers[i]) {
      assert SameMove(s.transfers[i], s1.transfers[i]) && SameMove(s1.transfers[i], s2.transfers[i]);
    }
    forall i | 0 <= i < |s.takes| ensures SameSheet(s.takes[i], s2.takes[i]) {
      assert SameSheet(s.takes[i], s1.takes[i]) && SameSheet(s1.takes[i], s2.takes[i]);
    }
    forall i | 0 <= i < |s.wastage| ensures SameEntry(s.wastage[i], s2.wastage[i]) {
      assert SameEntry(s.wastage[i], s1.wastage[i]) && SameEntry(s1.wastage[i], s2.wastage[i]);
    }
    forall i | 0 <= i < |s.sales| ensures SameSnapshots(s.sales[i], s2.sales[i]) {
      assert SameSnapshots(s.sales[i], s1.sales[i]) && SameSnapshots(s1.sales[i], s2.sales[i]);
    }
    forall i | 0 <= i < |s.orders| ensures SamePo(s.orders[i], s2.orders[i]) {
      assert SamePo(s.orders[i], s1.orders[i]) && SamePo(s1.orders[i], s2.orders[i]);
    }
  }

  /** Everything in `s` is still there in `s'`. */
  ghost predicate Continues(s: State, s': State) {
    Grows(s, s') && RowsKept(s.books, s'.books)
  }

  lemma ContinuesTransitive(s: State, s1: State, s2: State)
    requires Continues(s, s1) && Continues(s1, s2)
    ensures Continues(s, s2)
  {
    GrowsTransitive(s, s1, s2);
    RowsKeptTransitive(s.books, s1.books, s2.books);
  }

  lemma {:induction false} OneMoreCall(s: State, factors: Factors, ops: seq<Op>)
    requires FactorsPositive(factors) && ops != []
    requires Continues(s, After(factors, ops[..|ops| - 1]))
    ensures Continues(s, After(factors, ops))
  {
    var before, op := After(factors, ops[..|ops| - 1]), ops[|ops| - 1];
    Reachable(factors, ops[..|ops| - 1]);
    NextEffect(before, op);
    ContinuesTransitive(s, before, Next(before, op));
  }

  /** Ledger rows, document contents, recipe snapshots and received totals are never taken
      back: what held after the first `i` calls is contained in every later state. */
  lemma {:induction false} HistoryIsKept(factors: Factors, ops: seq<Op>, i: nat)
    requires FactorsPositive(factors) && i <= |ops|
    ensures Continues(After(factors, ops[..i]), After(factors, ops))
    decreases |ops|
  {
    if i == |ops| {
      assert ops[..i] == ops;
      GrowsReflexive(After(factors, ops));
    } else {
      var n := |ops| - 1;
      assert ops[..n][..i] == ops[..i];
      HistoryIsKept(factors, ops[..n], i);
      OneMoreCall(After(factors, ops[..i]), factors, ops);
    }
  }

  /** The call that first posted a document. */
  lemma {:induction false} FirstPosting(factors: Factors, ops: seq<Op>, document: Document) returns (i: nat)
    requires IsPosted(After(factors, ops).books, document)
    ensures i < |ops|
    ensures !IsPosted(After(factors, ops[..i]).books, document)
    ensures IsPosted(After(factors, ops[..i + 1]).books, document)
  {
    var n := |ops| - 1;
    if IsPosted(After(factors, ops[..n]).books, document) {
      i := FirstPosting(factors, ops[..n], document);
      assert ops[..n][..i] == ops[..i] && ops[..n][..i + 1] == ops[..i + 1];
    } else {
      i := n;
      assert ops[..n + 1] == ops;
    }
  }

  // ----- no above-threshold posting without sign-off -----

  function SubjectDocument(subject: Subject): Option<Document> {
    match subject
    case OnTransfer(id) => Some(TransferDocument(id))
    case OnTake(id) => Some(TakeDocument(id))
    case OnWastage(id) => Some(WastageDocument(id))
    case OnBudget(_) => None
  }

  /** The call routed the document at a value not above the threshold in force. */
  predicate RoutedBelow(s: State, op: Op, subject: Subject) {
    match op
    case OpPostTransfer(id) =>
      subject == OnTransfer(id) && id < |s.transfers| && !RequiresApproval(s.thresholds, TransferScope, TransferValue(s, id))
    case OpPostTake(id) =>
      subject == OnTake(id) && id < |s.takes| && !RequiresApproval(s.thresholds, AdjustmentScope, TakeValue(s, id))
    case OpCreateWastage(entryType, p, _, qty) =>
      && subject == OnWastage(|s.wastage|)
      && !RequiresApproval(s.thresholds, WastageThreshold(entryType), LatestUnitCost(s.books.ledger, p) * qty)
    case _ => false
  }

  /** The call approved an approval about the document. */
  predicate Approves(s: State, op: Op, subject: Subject) {
    op.OpDecide? && op.decision.Approved? && op.approval < |s.approvals| && s.approvals[op.approval].subject == subject
  }

  lemma {:induction false} PostingIsAuthorised(s: State, op: Op, s': State, subject: Subject)
    requires Inv(s) && Step(s, op) == Ok(s') && SubjectDocument(subject).Some?
    requires !IsPosted(s.books, SubjectDocument(subject).value) && IsPosted(s'.books, SubjectDocument(subject).value)
    ensures RoutedBelow(s, op, subject) || (Approves(s, op, subject) && SignedOff(s', subject))
  {
    var document := SubjectDocument(subject).value;
    RefsOfSales(s);
    StepRows(s, op, s', document);
    assert Writes(s, op) == Some(document);
    assert s'.books != s.books;
    if op.OpDecide? {
      DecidedPosting(s, op, s', subject);
    } else {
      DirectPosting(s, op, s', subject);
    }
  }

  lemma {:induction false} DecidedPosting(s: State, op: Op, s': State, subject: Subject)
    requires op.OpDecide? && Step(s, op) == Ok(s') && s'.books != s.books
    requires SubjectDocument(subject).Some? && Writes(s, op) == SubjectDocument(subject)
    ensures Approves(s, op, subject) && SignedOff(s', subject)
  {
    DecideApprovals(s, op, s');
    NonApprovalPostsNothing(s, op, s');
    assert s'.approvals[op.approval].subject == subject;
  }

  lemma {:induction false} DirectPosting(s: State, op: Op, s': State, subject: Subject)
    requires !op.OpDecide? && Step(s, op) == Ok(s') && s'.books != s.books
    requires SubjectDocument(subject).Some? && Writes(s, op) == SubjectDocument(subject)
    ensures RoutedBelow(s, op, subject)
  {
  }

  lemma NonApprovalPostsNothing(s: State, op: Op, s': State)
    requires op.OpDecide? && Step(s, op) == Ok(s')
    ensures op.decision.Approved? || s'.books == s.books
  {
  }

  /** Approvals given stay given. */
  lemma SignOffIsFinal(s: State, op: Op, subject: Subject)
    requires SignedOff(s, subject)
    ensures SignedOff(Next(s, op), subject)
  {
    var a :| 0 <= a < |s.approvals| && s.approvals[a].subject == subject && s.approvals[a].status.Approved?;
    if Step(s, op).Ok? {
      var s' := Step(s, op).value;
      if op.OpDecide? {
        DecideApprovals(s, op, s');
      } else {
        StepSubmits(s, op, s');
      }
      assert s'.approvals[a] == s.approvals[a];
    }
  }

  lemma {:induction false} SignOffKept(factors: Factors, ops: seq<Op>, i: nat, subject: Subject)
    requires i <= |ops| && SignedOff(After(factors, ops[..i]), subject)
    ensures SignedOff(After(factors, ops), subject)
  {
    if i == |ops| {
      assert ops[..i] == ops;
    } else {
      var n := |ops| - 1;
      assert ops[..n][..i] == ops[..i];
      SignOffKept(factors, ops[..n], i, subject);
      SignOffIsFinal(After(factors, ops[..n]), ops[n], subject);
    }
  }

  /** Call `i` is the one that wrote the document's rows. */
  predicate WroteAt(factors: Factors, ops: seq<Op>, i: nat, document: Document)
    requires i < |ops|
  {
    !IsPosted(After(factors, ops[..i]).books, document) && IsPosted(After(factors, ops[..i + 1]).books, document)
  }

  /** Call `i` wrote the document's rows, and either valued it at or below the threshold then in
      force (or none was set), or gave an approval about it that still stands. */
  predicate AuthorisedAt(factors: Factors, ops: seq<Op>, i: nat, subject: Subject, document: Document)
    requires i < |ops|
  {
    && WroteAt(factors, ops, i, document)
    && (|| RoutedBelow(After(factors, ops[..i]), ops[i], subject)
        || (Approves(After(factors, ops[..i]), ops[i], subject) && SignedOff(After(factors, ops), subject)))
  }

  /** Over every interleaving of calls, a transfer, stock-take or wastage entry has ledger rows
      only if the call that wrote them valued it at or below the threshold then in force (or none
      was set), or gave an approval about it that still stands. */
  lemma {:induction false} NoPostingWithoutSignOff(factors: Factors, ops: seq<Op>, subject: Subject)
    requires FactorsPositive(factors) && SubjectDocument(subject).Some?
    requires IsPosted(After(factors, ops).books, SubjectDocument(subject).value)
    ensures exists i :: 0 <= i < |ops| && AuthorisedAt(factors, ops, i, subject, SubjectDocument(subject).value)
  {
    var document := SubjectDocument(subject).value;
    var i := FirstPosting(factors, ops, document);
    AfterStep(factors, ops, i);
    Reachable(factors, ops[..i]);
    PostingIsAuthorised(After(factors, ops[..i]), ops[i], After(factors, ops[..i + 1]), subject);
    if SignedOff(After(factors, ops[..i + 1]), subject) {
      SignOffKept(factors, ops, i + 1, subject);
    }
    assert AuthorisedAt(factors, ops, i, subject, document);
  }

  /** An approval given about a transfer or a wastage entry means its rows are in the ledger;
      about a stock-take, that it is posted. */
  lemma {:induction false} SignedOffIsPosted(factors: Factors, ops: seq<Op>, subject: Subject)
    requires FactorsPositive(factors) && SignedOff(After(factors, ops), subject)
    ensures var s := After(factors, ops);
      match subject
      case OnTransfer(id) => IsPosted(s.books, TransferDocument(id))
      case OnWastage(id) => IsPosted(s.books, WastageDocument(id))
      case OnTake(id) => id < |s.takes| && s.takes[id].status.PostedDoc?
      case OnBudget(id) => true
  {
    var s := After(factors, ops);
    Reachable(factors, ops);
    var a :| 0 <= a < |s.approvals| && s.approvals[a].subject == subject && s.approvals[a].status.Approved?;
    assert KnownSubject(s, subject);
    match subject
    case OnTransfer(id) => assert TransferSafe(s, id);
    case OnTake(id) => assert TakeSafe(s, id);
    case OnWastage(id) =>
      assert WastageExact(s, id) && About(s, subject, a);
    case OnBudget(_) =>
  }

  // ----- transfers move stock at most once -----

  /** A transfer's ledger rows are none, or exactly one out/in pair per line; POSTED implies
      they are there, and rows once written are never written again. */
  lemma {:induction false} TransferMovesOnce(factors: Factors, ops: seq<Op>, i: nat, id: nat)
    requires FactorsPositive(factors) && i <= |ops| && id < |After(factors, ops[..i]).transfers|
    ensures var s, s' := After(factors, ops[..i]), After(factors, ops);
      var rows := DocRows(s'.books.ledger, TransferDocument(id));
      && id < |s'.transfers|
      && (rows == [] || rows == Rows(Posting(TransferDocument(id), TransferLines(s.transfers[id]))))
      && (s'.transfers[id].status.PostedDoc? ==> rows != [])
      && (IsPosted(s.books, TransferDocument(id)) ==> rows == DocRows(s.books.ledger, TransferDocument(id)))
  {
    HistoryIsKept(factors, ops, i);
    Reachable(factors, ops);
    var s, s' := After(factors, ops[..i]), After(factors, ops);
    assert TransferSafe(s', id) && SameMove(s.transfers[id], s'.transfers[id]);
    if IsPosted(s'.books, TransferDocument(id)) {
      var posting := PayloadOf(s', TransferDocument(id));
      assert posting.lines == TransferLines(s.transfers[id]);
    }
  }

  // ----- sales -----

  /** Each sale id has at most one event and order; the sale is INGESTED or REPLAYED iff every
      item has a recipe iff its deduction is in the ledger; rows once written and snapshots
      once taken stay as they are through any number of re-ingests and replays. */
  lemma SalesAreDeductedOnce(factors: Factors, ops: seq<Op>, i: nat, id: nat)
    requires FactorsPositive(factors) && i <= |ops| && id < |After(factors, ops[..i]).sales|
    ensures var s, s' := After(factors, ops[..i]), After(factors, ops);
      && id < |s'.sales|
      && SameSnapshots(s.sales[id], s'.sales[id])
      && (forall other :: 0 <= other < |s'.sales| && s'.sales[other].saleId == s.sales[id].saleId ==> other == id)
      && (!s'.sales[id].status.FlaggedUnknownItem? <==> Resolved(s'.sales[id].items))
      && (s'.sales[id].status.Ingested? <==> Resolved(s'.sales[id].items) && s'.sales[id].replays == 0)
      && (Resolved(s'.sales[id].items) <==> IsPosted(s'.books, OrderDocument(id)))
      && (IsPosted(s'.books, OrderDocument(id)) ==>
            DocRows(s'.books.ledger, OrderDocument(id)) == Rows(OrderPosting(s', id, s'.sales[id].items)))
      && (IsPosted(s.books, OrderDocument(id)) ==>
            DocRows(s'.books.ledger, OrderDocument(id)) == DocRows(s.books.ledger, OrderDocument(id)))
  {
    HistoryIsKept(factors, ops, i);
    Reachable(factors, ops);
    var s, s' := After(factors, ops[..i]), After(factors, ops);
    assert SameSnapshots(s.sales[id], s'.sales[id]);
    SaleStatusMeans(s', id);
  }

  // ----- negative stock is explained -----

  function LastRow(ledger: seq<Movement>, k: Key): (last: Option<nat>)
    ensures last.Some? ==> last.value < |ledger| && ledger[last.value].key == k
  {
    if ledger == [] then None
    else if ledger[|ledger| - 1].key == k then Some(|ledger| - 1)
    else LastRow(ledger[..|ledger| - 1], k)
  }

  lemma {:induction false} LastRowConcat(a: seq<Movement>, b: seq<Movement>, k: Key)
    ensures LastRow(b, k).Some? <==> exists i :: 0 <= i < |b| && b[i].key == k
    ensures LastRow(a + b, k) == if LastRow(b, k).Some? then Some(|a| + LastRow(b, k).value) else LastRow(a, k)
  {
    if b == [] {
      assert a + b == a;
    } else {
      var n := |b| - 1;
      assert (a + b)[..|a + b| - 1] == a + b[..n];
      LastRowConcat(a, b[..n], k);
      assert forall i :: 0 <= i < n ==> b[..n][i] == b[i];
    }
  }

  /** Call `i` wrote row `row`, and posted with `allow_negative`. */
  predicate OverrodeAt(factors: Factors, ops: seq<Op>, i: nat, row: nat)
    requires i < |ops|
  {
    && |After(factors, ops[..i]).books.ledger| <= row < |After(factors, ops[..i + 1]).books.ledger|
    && MayOverride(After(factors, ops[..i]), ops[i])
  }

  lemma OverrodeEarlier(factors: Factors, ops: seq<Op>, i: nat, row: nat)
    requires i < |ops| - 1 && OverrodeAt(factors, ops[..|ops| - 1], i, row)
    ensures OverrodeAt(factors, ops, i, row)
  {
    var n := |ops| - 1;
    assert ops[..n][..i] == ops[..i] && ops[..n][..i + 1] == ops[..i + 1];
  }

  /** A step either leaves a key's balance and last row alone, or writes a new last row. */
  lemma TouchOrKeep(b: Books, posting: Posting, override: bool, k: Key)
    requires Post(b, posting, override).Ok?
    ensures var b' := Post(b, posting, override).value;
      || (OnHand(b'.balances, k) == OnHand(b.balances, k) && LastRow(b'.ledger, k) == LastRow(b.ledger, k))
      || (LastRow(b'.ledger, k).Some? && |b.ledger| <= LastRow(b'.ledger, k).value && (OnHand(b'.balances, k) >= 0 || override))
  {
    if !IsPosted(b, posting.document) {
      var rows := Rows(posting);
      LastRowConcat(b.ledger, rows, k);
      if i :| 0 <= i < |rows| && rows[i].key == k {
        assert posting.lines[i].key == k;
        if !override {
          StrictNeverNegative(b.balances, posting.lines, k);
        }
      } else {
        forall i | 0 <= i < |rows|
          ensures posting.lines[i].key != k
        {
          assert rows[i].key == posting.lines[i].key;
        }
        UntouchedBalance(b.balances, posting.lines, k);
      }
    }
  }

  lemma {:induction false} UntouchedBalance(balances: map<Key, int>, lines: seq<Line>, k: Key)
    requires forall i :: 0 <= i < |lines| ==> lines[i].key != k
    ensures OnHand(Settle(balances, lines), k) == OnHand(balances, k)
  {
    if lines != [] {
      var n := |lines| - 1;
      assert forall i :: 0 <= i < n ==> lines[..n][i] == lines[i];
      UntouchedBalance(balances, lines[..n], k);
    }
  }

  /** In every reachable state, if a balance is negative then the latest ledger row of its key
      was written by a call that posts with `allow_negative`. */
  lemma {:induction false} NegativeStockIsExplained(factors: Factors, ops: seq<Op>, k: Key)
    requires FactorsPositive(factors) && OnHand(After(factors, ops).books.balances, k) < 0
    ensures var last := LastRow(After(factors, ops).books.ledger, k);
      last.Some? && exists i :: 0 <= i < |ops| && OverrodeAt(factors, ops, i, last.value)
  {
    var n := |ops| - 1;
    var s, op, s' := After(factors, ops[..n]), ops[n], After(factors, ops);
    assert ops[..n + 1] == ops;
    Reachable(factors, ops[..n]);
    StepTouches(s, op, k);
    if OnHand(s'.books.balances, k) == OnHand(s.books.balances, k) && LastRow(s'.books.ledger, k) == LastRow(s.books.ledger, k) {
      NegativeStockIsExplained(factors, ops[..n], k);
      var i :| 0 <= i < n && OverrodeAt(factors, ops[..n], i, LastRow(s.books.ledger, k).value);
      OverrodeEarlier(factors, ops, i, LastRow(s.books.ledger, k).value);
    } else {
      assert OverrodeAt(factors, ops, n, LastRow(s'.books.ledger, k).value);
    }
  }

  lemma {:induction false} StepTouches(s: State, op: Op, k: Key)
    requires Inv(s)
    ensures var b, b' := s.books, Next(s, op).books;
      || (OnHand(b'.balances, k) == OnHand(b.balances, k) && LastRow(b'.ledger, k) == LastRow(b.ledger, k))
      || (LastRow(b'.ledger, k).Some? && |b.ledger| <= LastRow(b'.ledger, k).value
          && (OnHand(b'.balances, k) >= 0 || MayOverride(s, op)))
  {
    if Step(s, op).Ok? {
      var s' := Step(s, op).value;
      RefsOfSales(s);
      StepEffect(s, op, s');
      if Writes(s, op).Some? && s'.books != s.books {
        var document := Writes(s, op).value;
        var lines :| PostedAs(s, s', Posting(document, lines), MayOverride(s, op));
        TouchOrKeep(s.books, Posting(document, lines), MayOverride(s, op), k);
      }
    }
  }
}
