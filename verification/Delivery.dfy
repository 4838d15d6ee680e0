/** Delivery of outbox records to Pastel, manual resend and reconciliation
    (backend/apps/pastel/tasks.py, adapter.py and views.py). */
module Delivery {
  import opened Prelude
  import opened Ledger
  import opened Accounting

  /** What one call to the adapter does: Pastel accepts, Pastel answers with an error, or the
      call raises anything else, in which case Pastel may or may not have applied it. */
  datatype Answer = Accepted | Refused | Crashed(applied: bool)

  const MAX_ATTEMPTS := 5

  /** The adapter's answer when record `i` is sent; unlisted records are refused. */
  function AnswerFor(answers: seq<Answer>, i: nat): Answer {
    if i < |answers| then answers[i] else Refused
  }

  /** `send_to_pastel`: one log row per answered attempt. */
  function Sent(d: Delivery, answer: Answer): Delivery {
    match answer
    case Accepted => d.(log := d.log + [LogSuccess], applied := d.applied + 1)
    case Refused => d.(log := d.log + [LogFailed])
    case Crashed(applied) => d.(applied := d.applied + if applied then 1 else 0)
  }

  /** `_process_outbox_record`, as seen after the batch loop has swallowed any exception. */
  function Processed(d: Delivery, answer: Answer): Delivery {
    var sent := Sent(d, answer);
    match answer
    case Accepted => sent.(status := SendStatus.Sent)
    case Refused =>
      sent.(attempts := d.attempts + 1, status := if d.attempts + 1 >= MAX_ATTEMPTS then Abandoned else Failed)
    case Crashed(_) => sent.(status := Sending)
  }

  /** `ResendOutboxView.post`. A failed resend is FAILED however many attempts there were. */
  function Resent(d: Delivery, answer: Answer): Result<Delivery> {
    if d.status.Sent? then Err(AlreadySent)
    else
      var sent := Sent(d, answer);
      match answer
      case Accepted => Ok(sent.(status := SendStatus.Sent))
      case Refused => Ok(sent.(attempts := d.attempts + 1, status := Failed))
      case Crashed(_) => Ok(sent.(status := Pending))
  }

  /** The records a batch picks up: pending, and due. The half-minute drain passes the records
      whose `next_attempt_at` has come; the nightly batch passes all of them. */
  predicate Selected(outbox: seq<OutboxRecord>, due: set<nat>, i: nat)
    requires i < |outbox|
  {
    outbox[i].delivery.status.Pending? && i in due
  }

  function DrainRecord(outbox: seq<OutboxRecord>, due: set<nat>, answers: seq<Answer>, i: nat): OutboxRecord
    requires i < |outbox|
  {
    if Selected(outbox, due, i)
    then outbox[i].(delivery := Processed(outbox[i].delivery, AnswerFor(answers, i)))
    else outbox[i]
  }

  /** The first `n` records of a batch, one after another. The batch was selected when it
      started; an exception raised for one record is caught before the next one is taken. */
  function DrainFirst(outbox: seq<OutboxRecord>, due: set<nat>, answers: seq<Answer>, n: nat): (outbox': seq<OutboxRecord>)
    requires n <= |outbox|
    ensures |outbox'| == |outbox|
    ensures forall i :: 0 <= i < |outbox| ==> outbox'[i] == if i < n then DrainRecord(outbox, due, answers, i) else outbox[i]
  {
    if n == 0 then outbox
    else
      var earlier := DrainFirst(outbox, due, answers, n - 1);
      if Selected(outbox, due, n - 1) then
        earlier[n - 1 := earlier[n - 1].(delivery := Processed(earlier[n - 1].delivery, AnswerFor(answers, n - 1)))]
      else earlier
  }

  /** A whole batch. */
  function Drain(outbox: seq<OutboxRecord>, due: set<nat>, answers: seq<Answer>): (outbox': seq<OutboxRecord>)
    ensures |outbox'| == |outbox|
    ensures forall i :: 0 <= i < |outbox| ==> outbox'[i] == DrainRecord(outbox, due, answers, i)
  {
    DrainFirst(outbox, due, answers, |outbox|)
  }

  function Resend(outbox: seq<OutboxRecord>, i: nat, answer: Answer): Result<seq<OutboxRecord>> {
    if i >= |outbox| then Err(NotFound)
    else
      var d := Resent(outbox[i].delivery, answer);
      if d.Err? then Err(d.error) else Ok(outbox[i := outbox[i].(delivery := d.value)])
  }

  // ----- agreement with the sync log -----

  function Count(log: seq<LogStatus>, status: LogStatus): nat {
    if log == [] then 0
    else Count(log[..|log| - 1], status) + if log[|log| - 1] == status then 1 else 0
  }

  /** A record is SENT iff it has exactly one success log, never has two, and its attempt
      counter is the number of its failure logs. */
  predicate LogAgrees(d: Delivery) {
    && Count(d.log, LogSuccess) == (if d.status.Sent? then 1 else 0)
    && Count(d.log, LogFailed) == d.attempts
    && (d.status.Abandoned? ==> d.attempts >= MAX_ATTEMPTS)
    && Count(d.log, LogSuccess) <= d.applied
  }

  lemma CountAppend(log: seq<LogStatus>, last: LogStatus, status: LogStatus)
    ensures Count(log + [last], status) == Count(log, status) + if last == status then 1 else 0
  {
    assert (log + [last])[..|log + [last]| - 1] == log;
  }

  lemma SentLogs(d: Delivery, answer: Answer)
    ensures Count(Sent(d, answer).log, LogSuccess) == Count(d.log, LogSuccess) + if answer.Accepted? then 1 else 0
    ensures Count(Sent(d, answer).log, LogFailed) == Count(d.log, LogFailed) + if answer.Refused? then 1 else 0
  {
    CountAppend(d.log, LogSuccess, LogSuccess);
    CountAppend(d.log, LogSuccess, LogFailed);
    CountAppend(d.log, LogFailed, LogSuccess);
    CountAppend(d.log, LogFailed, LogFailed);
  }

  lemma ProcessKeepsLog(d: Delivery, answer: Answer)
    requires LogAgrees(d) && !d.status.Sent?
    ensures LogAgrees(Processed(d, answer))
  {
    SentLogs(d, answer);
    match answer
    case Accepted => assert Processed(d, answer).status.Sent?;
    case Refused => assert Processed(d, answer).attempts == d.attempts + 1;
    case Crashed(_) => assert Processed(d, answer).status.Sending?;
  }

  lemma ResendKeepsLog(d: Delivery, answer: Answer)
    requires LogAgrees(d) && Resent(d, answer).Ok?
    ensures LogAgrees(Resent(d, answer).value)
  {
    SentLogs(d, answer);
  }

  ghost predicate DeliveryInv(outbox: seq<OutboxRecord>) {
    forall i :: 0 <= i < |outbox| ==> LogAgrees(outbox[i].delivery)
  }

  lemma DrainKeepsLogs(outbox: seq<OutboxRecord>, due: set<nat>, answers: seq<Answer>)
    requires DeliveryInv(outbox)
    ensures DeliveryInv(Drain(outbox, due, answers))
    ensures Payloads(Drain(outbox, due, answers)) == Payloads(outbox)
  {
    var outbox' := Drain(outbox, due, answers);
    forall i | 0 <= i < |outbox|
      ensures LogAgrees(outbox'[i].delivery)
    {
      if Selected(outbox, due, i) {
        ProcessKeepsLog(outbox[i].delivery, AnswerFor(answers, i));
      }
    }
  }

  lemma ResendKeepsLogs(outbox: seq<OutboxRecord>, i: nat, answer: Answer)
    requires DeliveryInv(outbox) && Resend(outbox, i, answer).Ok?
    ensures DeliveryInv(Resend(outbox, i, answer).value)
    ensures Payloads(Resend(outbox, i, answer).value) == Payloads(outbox)
  {
    ResendKeepsLog(outbox[i].delivery, answer);
  }

  /** One record's exception never stops the rest: whatever the adapter does for the other
      records, a selected record is processed with its own answer and others are left alone. */
  lemma DrainIsPointwise(outbox: seq<OutboxRecord>, due: set<nat>, answers: seq<Answer>, other: seq<Answer>, i: nat)
    requires i < |outbox| && AnswerFor(answers, i) == AnswerFor(other, i)
    ensures Drain(outbox, due, answers)[i] == Drain(outbox, due, other)[i]
    ensures Drain(outbox, due, answers)[i].delivery ==
      if Selected(outbox, due, i) then Processed(outbox[i].delivery, AnswerFor(answers, i)) else outbox[i].delivery
    ensures outbox[i].delivery.status.Sent? ==> Drain(outbox, due, answers)[i] == outbox[i]
  {
  }

  // ----- reconciliation -----

  /** Pastel's own quantity of a key, in units of 10^-12: every payload as often as it was applied. */
  function PastelOnHand(outbox: seq<OutboxRecord>, k: Key): int {
    if outbox == [] then 0
    else
      var last := outbox[|outbox| - 1];
      PastelOnHand(outbox[..|outbox| - 1], k) + last.delivery.applied * Net(last.posting.lines, k)
  }

  /** Net quantity of a key over the records selected by a status test. */
  function UnsentNet(outbox: seq<OutboxRecord>, k: Key): int {
    if outbox == [] then 0
    else
      var last := outbox[|outbox| - 1];
      UnsentNet(outbox[..|outbox| - 1], k) + if last.delivery.status.Sent? then 0 else Net(last.posting.lines, k)
  }

  /** What Pastel holds twice or more, or holds although the record is not SENT. */
  function SurplusNet(outbox: seq<OutboxRecord>, k: Key): int {
    if outbox == [] then 0
    else
      var last := outbox[|outbox| - 1];
      SurplusNet(outbox[..|outbox| - 1], k)
      + (last.delivery.applied - if last.delivery.status.Sent? then 1 else 0) * Net(last.posting.lines, k)
  }

  lemma {:induction false} PastelSplits(outbox: seq<OutboxRecord>, k: Key)
    ensures Net(Journal(Payloads(outbox)), k) - PastelOnHand(outbox, k) == UnsentNet(outbox, k) - SurplusNet(outbox, k)
  {
    if outbox != [] {
      var n := |outbox| - 1;
      PastelSplits(outbox[..n], k);
      var ps := Payloads(outbox);
      assert ps[..n] == Payloads(outbox[..n]);
      NetConcat(Journal(ps[..n]), ps[n].lines, k);
      OneRecordSplits(outbox[n].delivery, Net(outbox[n].posting.lines, k));
    }
  }

  lemma OneRecordSplits(d: Delivery, net: int)
    ensures net - d.applied * net == (if d.status.Sent? then 0 else net) - (d.applied - if d.status.Sent? then 1 else 0) * net
  {
    assert (d.applied - 1) * net == d.applied * net - net;
  }

  /** Each payload applied exactly when its record is SENT. */
  predicate AppliedOnce(d: Delivery) {
    d.applied == if d.status.Sent? then 1 else 0
  }

  lemma {:induction false} NoSurplus(outbox: seq<OutboxRecord>, k: Key)
    requires forall i :: 0 <= i < |outbox| ==> AppliedOnce(outbox[i].delivery)
    ensures SurplusNet(outbox, k) == 0
  {
    if outbox != [] {
      var n := |outbox| - 1;
      assert forall i :: 0 <= i < n ==> outbox[..n][i] == outbox[i];
      assert AppliedOnce(outbox[n].delivery);
      NoSurplus(outbox[..n], k);
    }
  }

  /** Divergence of a key as reconciliation reports it, in units of 10^-12. */
  function Divergence(b: Books, k: Key): int {
    OnHand(b.balances, k) * FINE - PastelOnHand(b.outbox, k)
  }

  /** Divergence is the net quantity in records not yet SENT, less what crashed calls left applied
      in Pastel, plus what storage rounding has added to the balance: at most half a thousandth
      per line, and nothing where all quantities have three decimals. */
  lemma DivergenceExplained(b: Books, k: Key)
    requires BooksInv(b)
    ensures var journal := Journal(Payloads(b.outbox));
      && Divergence(b, k) == UnsentNet(b.outbox, k) - SurplusNet(b.outbox, k) + StorageError(map[], journal, k)
      && Abs(StorageError(map[], journal, k)) <= HALF * Touches(journal, k)
      && ((forall i :: 0 <= i < |journal| && journal[i].key == k ==> OnGrid(journal[i].qty)) ==>
            StorageError(map[], journal, k) == 0)
  {
    PastelSplits(b.outbox, k);
    PayloadsRebuildCache(b, k);
  }
}
