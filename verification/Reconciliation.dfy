/** Delivery and reconciliation over whole runs (backend/apps/pastel/tasks.py). */
module Reconciliation {
  import opened Prelude
  import opened Ledger
  import opened Accounting
  import opened Deduction
  import opened Model
  import opened Services
  import opened System
  import opened Effects
  import opened Documents
  import opened SalesLifecycle
  import opened Invariant
  import opened Delivery
  import opened StockTables

  /** No call crashes after Pastel has already applied the payload. */
  predicate CrashFree(op: Op) {
    match op
    case OpDrain(_, answers) => forall i :: 0 <= i < |answers| ==> answers[i] != Crashed(true)
    case OpResend(_, answer) => answer != Crashed(true)
    case _ => true
  }

  ghost predicate AllAppliedOnce(outbox: seq<OutboxRecord>) {
    forall i :: 0 <= i < |outbox| ==> AppliedOnce(outbox[i].delivery)
  }

  /** A new record starts out unsent and unapplied. */
  lemma PostingAppliesNothing(b: Books, posting: Posting, override: bool)
    requires Post(b, posting, override).Ok? && AllAppliedOnce(b.outbox)
    ensures AllAppliedOnce(Post(b, posting, override).value.outbox)
  {
  }

  lemma {:induction false} WritingAppliesNothing(s: State, op: Op, s': State)
    requires Inv(s) && Step(s, op) == Ok(s') && Writes(s, op).Some? && AllAppliedOnce(s.books.outbox)
    ensures AllAppliedOnce(s'.books.outbox)
  {
    RefsOfSales(s);
    StepEffect(s, op, s');
    if s'.books != s.books {
      var lines :| PostedAs(s, s', Posting(Writes(s, op).value, lines), MayOverride(s, op));
      PostingAppliesNothing(s.books, Posting(Writes(s, op).value, lines), MayOverride(s, op));
    }
  }

  lemma {:induction false} StepAppliesOnce(s: State, op: Op)
    requires Inv(s) && CrashFree(op) && AllAppliedOnce(s.books.outbox)
    ensures AllAppliedOnce(Next(s, op).books.outbox)
  {
    if Step(s, op).Ok? {
      var s' := Step(s, op).value;
      if Writes(s, op).Some? {
        WritingAppliesNothing(s, op, s');
      } else if op.OpDecide? {
        BudgetDecisionQuiet(s, op, s');
      } else {
        QuietAppliesOnce(s, op, s');
      }
    }
  }

  lemma QuietAppliesOnce(s: State, op: Op, s': State)
    requires Step(s, op) == Ok(s') && Writes(s, op).None? && !op.OpDecide?
    requires CrashFree(op) && AllAppliedOnce(s.books.outbox)
    ensures AllAppliedOnce(s'.books.outbox)
  {
    if op.OpDrain? {
      forall i | 0 <= i < |s.books.outbox|
        ensures AppliedOnce(s'.books.outbox[i].delivery)
      {
        assert AppliedOnce(s.books.outbox[i].delivery);
        assert AnswerFor(op.answers, i) != Crashed(true);
      }
    } else if op.OpResend? {
      assert AppliedOnce(s.books.outbox[op.id].delivery);
    } else {
      QuietStep(s, op, s');
    }
  }

  lemma {:induction false} RunAppliesOnce(factors: Factors, ops: seq<Op>)
    requires FactorsPositive(factors) && forall i :: 0 <= i < |ops| ==> CrashFree(ops[i])
    ensures AllAppliedOnce(After(factors, ops).books.outbox)
  {
    if ops != [] {
      var n := |ops| - 1;
      assert forall i :: 0 <= i < n ==> ops[..n][i] == ops[i];
      RunAppliesOnce(factors, ops[..n]);
      Reachable(factors, ops[..n]);
      StepAppliesOnce(After(factors, ops[..n]), ops[n]);
    }
  }

  /** Over any mix of drains, batches, resends and other calls, with arbitrary answers: a record
      is SENT iff it has exactly one success log, never has two, its attempts are its failure
      logs, and ABANDONED means at least five of them. */
  lemma {:induction false} DeliveryAgreesWithLog(factors: Factors, ops: seq<Op>, i: nat)
    requires FactorsPositive(factors) && i < |After(factors, ops).books.outbox|
    ensures var d := After(factors, ops).books.outbox[i].delivery;
      && (d.status.Sent? <==> Count(d.log, LogSuccess) == 1)
      && Count(d.log, LogSuccess) <= 1
      && Count(d.log, LogFailed) == d.attempts
      && (d.status.Abandoned? ==> d.attempts >= MAX_ATTEMPTS)
  {
    Reachable(factors, ops);
    assert LogAgrees(After(factors, ops).books.outbox[i].delivery);
  }

  /** The figure is the net quantity in records not yet SENT plus what storage rounding has added
      to the balance: it is that net exactly when the rounding has cancelled out, which it has
      where all quantities have three decimals, and within half a thousandth per line otherwise. */
  predicate UnsentPlusError(figure: int, b: Books, k: Key) {
    var journal, unsent := Journal(Payloads(b.outbox)), UnsentNet(b.outbox, k);
    && figure == unsent + StorageError(map[], journal, k)
    && (figure == unsent <==> StorageError(map[], journal, k) == 0)
    && Abs(figure - unsent) <= HALF * Touches(journal, k)
    && ((forall i :: 0 <= i < |journal| && journal[i].key == k ==> OnGrid(journal[i].qty)) ==> figure == unsent)
  }

  lemma DivergenceWithoutSurplus(b: Books, k: Key)
    requires BooksInv(b) && AllAppliedOnce(b.outbox)
    ensures UnsentPlusError(Divergence(b, k), b, k)
  {
    NoSurplus(b.outbox, k);
    DivergenceExplained(b, k);
  }

  /** In crash-free runs Pastel lacks exactly the records not yet SENT: the divergence of a key is
      their net quantity plus the storage rounding of its balance. */
  lemma {:induction false} DivergenceIsUnsent(factors: Factors, ops: seq<Op>, k: Key)
    requires FactorsPositive(factors) && forall i :: 0 <= i < |ops| ==> CrashFree(ops[i])
    ensures UnsentPlusError(Divergence(After(factors, ops).books, k), After(factors, ops).books, k)
  {
    Reachable(factors, ops);
    RunAppliesOnce(factors, ops);
    DivergenceWithoutSurplus(After(factors, ops).books, k);
  }

  /** The report is a reconciliation of the books, and for the key of line `i` Pastel answers
      with what it has applied. */
  ghost predicate Truthful(b: Books, pastel: map<Key, int>, report: seq<ReconciliationLine>, i: nat)
    requires i < |report|
  {
    && Reconciles(b.balances, pastel, report, b.balances.Keys)
    && report[i].key in pastel
    && pastel[report[i].key] == PastelOnHand(b.outbox, report[i].key)
  }

  /** Every line of a reconciliation report, wherever Pastel answers with what it has applied,
      shows the net quantity in records not yet SENT plus the storage rounding of the balance. */
  lemma {:induction false} ReportShowsUnsent(factors: Factors, ops: seq<Op>, pastel: map<Key, int>, report: seq<ReconciliationLine>, i: nat)
    requires FactorsPositive(factors) && forall n :: 0 <= n < |ops| ==> CrashFree(ops[n])
    requires i < |report| && Truthful(After(factors, ops).books, pastel, report, i)
    ensures UnsentPlusError(report[i].divergence, After(factors, ops).books, report[i].key)
  {
    DivergenceIsUnsent(factors, ops, report[i].key);
    LineIsDivergence(After(factors, ops).books, pastel, report, i);
  }

  lemma LineIsDivergence(b: Books, pastel: map<Key, int>, report: seq<ReconciliationLine>, i: nat)
    requires i < |report| && Truthful(b, pastel, report, i)
    ensures report[i].divergence == Divergence(b, report[i].key)
  {
  }
}
