/** The stock tables and the code that writes them, step by step
    (backend/apps/inventory/services.py, backend/apps/pastel/tasks.py, adapter.py and views.py). */
module StockTables {
  import opened Prelude
  import opened Ledger
  import opened Accounting
  import D = Delivery

  /** One line of a reconciliation run, in units of 10^-12. */
  datatype ReconciliationLine = ReconciliationLine(key: Key, ourOnHand: int, pastelOnHand: int, divergence: int)

  /** Pastel's answer for a key; no answer counts as zero. */
  function Answered(pastel: map<Key, int>, k: Key): int {
    if k in pastel then pastel[k] else 0
  }

  /** One line for each of the keys, comparing the cache with Pastel's answers. */
  ghost predicate Reconciles(balances: map<Key, int>, pastel: map<Key, int>, lines: seq<ReconciliationLine>, keys: set<Key>) {
    && |lines| == |keys|
    && (forall i :: 0 <= i < |lines| ==> lines[i].key in keys)
    && (forall k :: k in keys ==> exists i :: 0 <= i < |lines| && lines[i].key == k)
    && forall i :: 0 <= i < |lines| ==>
         && lines[i].ourOnHand == OnHand(balances, lines[i].key) * FINE
         && lines[i].pastelOnHand == Answered(pastel, lines[i].key)
         && lines[i].divergence == lines[i].ourOnHand - lines[i].pastelOnHand
  }

  /** The first `n` lines of a posting have been accepted and stored on top of `b`. */
  predicate Stored(b: Books, posting: Posting, allowNegative: bool, n: nat,
                   ledger: seq<Movement>, balances: map<Key, int>, movements: seq<Movement>)
    requires n <= |posting.lines|
  {
    && movements == Rows(posting)[..n]
    && ledger == b.ledger + movements
    && balances == Settle(b.balances, posting.lines[..n])
    && FirstFault(b.balances, posting.lines[..n], allowNegative).None?
  }

  lemma OneMoreStored(b: Books, posting: Posting, allowNegative: bool, n: nat,
                      ledger: seq<Movement>, balances: map<Key, int>, movements: seq<Movement>)
    requires n < |posting.lines| && Stored(b, posting, allowNegative, n, ledger, balances, movements)
    ensures var line := posting.lines[n];
      var fault, row := LineFault(balances, line, allowNegative), Row(posting.document, line);
      if fault.None? then
        Stored(b, posting, allowNegative, n + 1, ledger + [row], StoreLine(balances, line), movements + [row])
      else FirstFault(b.balances, posting.lines, allowNegative) == fault
  {
    var lines := posting.lines;
    assert lines[..n + 1][..n] == lines[..n];
    assert Rows(posting)[..n + 1] == Rows(posting)[..n] + [Row(posting.document, lines[n])];
    if LineFault(balances, lines[n], allowNegative).Some? {
      FaultStays(b.balances, lines, allowNegative, n + 1);
    }
  }

  lemma AllStored(b: Books, posting: Posting, allowNegative: bool,
                  ledger: seq<Movement>, balances: map<Key, int>, movements: seq<Movement>)
    requires posting.lines != [] && !IsPosted(b, posting.document)
    requires Stored(b, posting, allowNegative, |posting.lines|, ledger, balances, movements)
    ensures Post(b, posting, allowNegative) == Ok(Books(ledger, balances, b.outbox + [OutboxRecord(posting, NewDelivery)]))
    ensures DocRows(ledger, posting.document) == movements
  {
    assert posting.lines[..|posting.lines|] == posting.lines;
    PostRows(b, posting, allowNegative, posting.document);
  }

  /** The first refused line decides the whole document. */
  lemma {:induction false} FaultStays(balances: map<Key, int>, lines: seq<Line>, allowNegative: bool, n: nat)
    requires n <= |lines| && FirstFault(balances, lines[..n], allowNegative).Some?
    ensures FirstFault(balances, lines, allowNegative) == FirstFault(balances, lines[..n], allowNegative)
  {
    if n == |lines| {
      assert lines[..n] == lines;
    } else {
      assert lines[..|lines| - 1][..n] == lines[..n];
      FaultStays(balances, lines[..|lines| - 1], allowNegative, n);
    }
  }

  /** The records among the first `n` that a batch picks up. */
  function Chosen(outbox: seq<OutboxRecord>, due: set<nat>, n: nat): set<nat>
    requires n <= |outbox|
  {
    set i: nat | i < n && D.Selected(outbox, due, i)
  }

  lemma OneMoreChosen(outbox: seq<OutboxRecord>, due: set<nat>, n: nat)
    requires n < |outbox|
    ensures |Chosen(outbox, due, n + 1)| == |Chosen(outbox, due, n)| + if D.Selected(outbox, due, n) then 1 else 0
  {
    assert Chosen(outbox, due, n + 1) == Chosen(outbox, due, n) + if D.Selected(outbox, due, n) then {n} else {};
  }

  /** The records among the first `n` of a batch whose processing raises, in order. */
  function Raised(outbox: seq<OutboxRecord>, due: set<nat>, answers: seq<D.Answer>, n: nat): seq<nat>
    requires n <= |outbox|
  {
    if n == 0 then []
    else
      Raised(outbox, due, answers, n - 1)
      + if D.Selected(outbox, due, n - 1) && D.AnswerFor(answers, n - 1).Crashed? then [n - 1] else []
  }

  class StockLedger {
    var ledger: seq<Movement>
    var balances: map<Key, int>
    var outbox: seq<OutboxRecord>

    constructor ()
      ensures Contents() == EmptyBooks
    {
      ledger, balances, outbox := [], map[], [];
    }

    ghost function Contents(): Books
      reads this
    {
      Books(ledger, balances, outbox)
    }

    /** The rows a document has already. */
    method Existing(document: Document) returns (rows: seq<Movement>)
      ensures rows == DocRows(ledger, document)
    {
      rows := [];
      for i := 0 to |ledger|
        invariant rows == DocRows(ledger[..i], document)
      {
        assert ledger[..i + 1][..i] == ledger[..i];
        if ledger[i].document == document {
          rows := rows + [ledger[i]];
        }
      }
      assert ledger[..|ledger|] == ledger;
    }

    /** `post_movements`: the sole writer of ledger rows. A refused line rolls everything back. */
    method PostMovements(document: Document, lines: seq<Line>, allowNegative: bool) returns (result: Result<seq<Movement>>)
      modifies this
      ensures match Post(old(Contents()), Posting(document, lines), allowNegative)
        case Ok(b) => Contents() == b && result == Ok(DocRows(b.ledger, document))
        case Err(error) => Contents() == old(Contents()) && result == Err(error)
    {
      if lines == [] {
        return Err(EmptyLines);
      }
      var existing := Existing(document);
      if existing != [] {
        return Ok(existing);
      }
      var savedLedger, savedBalances := ledger, balances;
      var movements := [];
      ghost var before, posting := Contents(), Posting(document, lines);
      for i := 0 to |lines|
        invariant outbox == before.outbox
        invariant Stored(before, posting, allowNegative, i, ledger, balances, movements)
      {
        OneMoreStored(before, posting, allowNegative, i, ledger, balances, movements);
        var refused := StoreMovement(document, lines[i], allowNegative);
        if refused.Some? {
          ledger, balances := savedLedger, savedBalances;
          return Err(refused.value);
        }
        movements := movements + [ledger[|ledger| - 1]];
      }
      AllStored(before, posting, allowNegative, ledger, balances, movements);
      outbox := outbox + [OutboxRecord(Posting(document, lines), NewDelivery)];
      return Ok(movements);
    }

    /** One line: guard, append the row, store the new balance. A refused line may leave an
        empty balance row behind for the caller to roll back. */
    method StoreMovement(document: Document, line: Line, allowNegative: bool) returns (refused: Option<Error>)
      modifies this`ledger, this`balances
      ensures refused == LineFault(old(balances), line, allowNegative)
      ensures refused.None? ==> ledger == old(ledger) + [Row(document, line)] && balances == StoreLine(old(balances), line)
    {
      if line.qty == 0 {
        return Some(ZeroQuantity);
      }
      if line.key !in balances {
        balances := balances[line.key := 0];
      }
      var newQty := balances[line.key] * FINE + line.qty;
      if newQty < 0 && !allowNegative {
        return Some(InsufficientStock);
      }
      var movement := Movement(line.key, Round(line.qty), line.kind, line.unitCost, document);
      if movement.qty == 0 {
        return Some(ConstraintViolation);
      }
      ledger := ledger + [movement];
      balances := balances[line.key := Round(newQty)];
      return None;
    }

    /** `send_to_pastel`: one log row per answered attempt. */
    method SendToPastel(i: nat, answer: D.Answer) returns (raised: bool, success: bool)
      requires i < |outbox|
      modifies this`outbox
      ensures outbox == old(outbox)[i := old(outbox)[i].(delivery := D.Sent(old(outbox)[i].delivery, answer))]
      ensures raised == answer.Crashed? && success == answer.Accepted?
    {
      var d := outbox[i].delivery;
      if answer.Accepted? || (answer.Crashed? && answer.applied) {
        d := d.(applied := d.applied + 1);
      }
      if answer.Accepted? {
        d := d.(log := d.log + [LogSuccess]);
      } else if answer.Refused? {
        d := d.(log := d.log + [LogFailed]);
      }
      outbox := outbox[i := outbox[i].(delivery := d)];
      return answer.Crashed?, answer.Accepted?;
    }

    method SetStatus(i: nat, status: SendStatus)
      requires i < |outbox|
      modifies this`outbox
      ensures outbox == old(outbox)[i := old(outbox)[i].(delivery := old(outbox)[i].delivery.(status := status))]
    {
      outbox := outbox[i := outbox[i].(delivery := outbox[i].delivery.(status := status))];
    }

    method CountFailure(i: nat)
      requires i < |outbox|
      modifies this`outbox
      ensures outbox == old(outbox)[i := old(outbox)[i].(delivery :=
                          old(outbox)[i].delivery.(attempts := old(outbox)[i].delivery.attempts + 1))]
    {
      outbox := outbox[i := outbox[i].(delivery := outbox[i].delivery.(attempts := outbox[i].delivery.attempts + 1))];
    }

    /** `_process_outbox_record`. An exception from the adapter leaves the record SENDING and
        is passed on to the caller. */
    method ProcessRecord(i: nat, answer: D.Answer) returns (raised: bool)
      requires i < |outbox|
      modifies this`outbox
      ensures raised == answer.Crashed?
      ensures outbox == old(outbox)[i := old(outbox)[i].(delivery := D.Processed(old(outbox)[i].delivery, answer))]
    {
      SetStatus(i, Sending);
      var success;
      raised, success := SendToPastel(i, answer);
      if raised {
        return;
      }
      if success {
        SetStatus(i, SendStatus.Sent);
        return;
      }
      CountFailure(i);
      if outbox[i].delivery.attempts >= D.MAX_ATTEMPTS {
        SetStatus(i, Abandoned);
      } else {
        SetStatus(i, Failed);
      }
    }

    /** `drain_outbox_records`: the records selected when the batch starts, one by one. A record
        whose processing raises is noted and skipped, and counts as attempted. */
    method DrainRecords(due: set<nat>, answers: seq<D.Answer>) returns (count: nat, skipped: seq<nat>)
      modifies this`outbox
      ensures outbox == D.Drain(old(outbox), due, answers)
      ensures count == |Chosen(old(outbox), due, |outbox|)|
      ensures skipped == Raised(old(outbox), due, answers, |outbox|)
    {
      count, skipped := 0, [];
      for i := 0 to |outbox|
        invariant outbox == D.DrainFirst(old(outbox), due, answers, i)
        invariant skipped == Raised(old(outbox), due, answers, i)
        invariant count == |Chosen(old(outbox), due, i)|
      {
        OneMoreChosen(old(outbox), due, i);
        if outbox[i].delivery.status.Pending? && i in due {
          var raised := ProcessRecord(i, D.AnswerFor(answers, i));
          if raised {
            skipped := skipped + [i];
          }
          count := count + 1;
        }
      }
    }

    /** `ResendOutboxView.post`. An exception from the adapter fails the request after the record
        has been saved as PENDING. */
    method Resend(i: nat, answer: D.Answer) returns (error: Option<Error>, raised: bool)
      modifies this`outbox
      ensures match D.Resend(old(outbox), i, answer)
        case Ok(after) => error.None? && outbox == after && raised == answer.Crashed?
        case Err(e) => error == Some(e) && outbox == old(outbox) && !raised
    {
      if i >= |outbox| {
        return Some(NotFound), false;
      }
      if outbox[i].delivery.status.Sent? {
        return Some(AlreadySent), false;
      }
      SetStatus(i, Pending);
      var success;
      raised, success := SendToPastel(i, answer);
      if raised {
        return None, true;
      }
      if success {
        SetStatus(i, SendStatus.Sent);
      } else {
        SetStatus(i, Failed);
        CountFailure(i);
      }
      return None, false;
    }

    /** `run_reconciliation_now`: one line per balance row. */
    method Reconcile(pastel: map<Key, int>) returns (lines: seq<ReconciliationLine>)
      ensures Reconciles(balances, pastel, lines, balances.Keys)
    {
      lines := [];
      var todo := balances.Keys;
      while todo != {}
        invariant todo <= balances.Keys
        invariant Reconciles(balances, pastel, lines, balances.Keys - todo)
        decreases |todo|
      {
        var k :| k in todo;
        var ourQty, pastelQty := balances[k] * FINE, Answered(pastel, k);
        var line := ReconciliationLine(k, ourQty, pastelQty, ourQty - pastelQty);
        ReconcilesAppend(balances, pastel, lines, balances.Keys - todo, line);
        assert balances.Keys - todo + {k} == balances.Keys - (todo - {k});
        lines, todo := lines + [line], todo - {k};
      }
      assert balances.Keys - todo == balances.Keys;
    }
  }

  lemma ReconcilesAppend(balances: map<Key, int>, pastel: map<Key, int>, lines: seq<ReconciliationLine>, keys: set<Key>,
                         line: ReconciliationLine)
    requires Reconciles(balances, pastel, lines, keys) && line.key !in keys
    requires line.ourOnHand == OnHand(balances, line.key) * FINE && line.pastelOnHand == Answered(pastel, line.key)
    requires line.divergence == line.ourOnHand - line.pastelOnHand
    ensures Reconciles(balances, pastel, lines + [line], keys + {line.key})
  {
    var longer := lines + [line];
    forall k | k in keys + {line.key}
      ensures exists i :: 0 <= i < |longer| && longer[i].key == k
    {
      if k in keys {
        var i :| 0 <= i < |lines| && lines[i].key == k;
        assert longer[i].key == k;
      } else {
        assert longer[|lines|].key == k;
      }
    }
  }
}
