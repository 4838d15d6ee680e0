/** What became of each outbox record, from the attempts made to send it
    (backend/apps/pastel/tasks.py, backend/apps/pastel/views.py, `ResendOutboxView`). */
module DeliveryStatus {
  import opened Prelude
  import opened Ledger
  import opened Accounting
  import opened Deduction
  import opened Model
  import opened Services
  import opened System
  import opened Effects
  import opened Documents
  import opened SalesLifecycle
  import opened Invariant
  import D = Delivery

  /** One attempt to send a record: by a batch or by a manual resend, and Pastel's answer. */
  datatype Attempt = Attempt(byBatch: bool, answer: D.Answer)

  /** The attempt a call makes on record `i`: a batch takes the pending records that are due, a resend
      its own record unless that is SENT. */
  function AttemptOn(s: State, op: Op, i: nat): Option<Attempt> {
    if i >= |s.books.outbox| then None
    else if op.OpDrain? && i in op.due && s.books.outbox[i].delivery.status == Pending
    then Some(Attempt(true, D.AnswerFor(op.answers, i)))
    else if op.OpResend? && op.id == i && s.books.outbox[i].delivery.status != SendStatus.Sent
    then Some(Attempt(false, op.answer))
    else None
  }

  /** All attempts on record `i`, oldest first. */
  function Attempts(factors: Factors, ops: seq<Op>, i: nat): seq<Attempt> {
    if ops == [] then []
    else
      var n := |ops| - 1;
      var last := AttemptOn(After(factors, ops[..n]), ops[n], i);
      Attempts(factors, ops[..n], i) + if last.Some? then [last.value] else []
  }

  // ----- what the attempts say -----

  /** One log row for every attempt that was answered. */
  function LogOf(attempts: seq<Attempt>): seq<LogStatus> {
    if attempts == [] then []
    else
      var last := attempts[|attempts| - 1].answer;
      LogOf(attempts[..|attempts| - 1])
      + if last.Accepted? then [LogSuccess] else if last.Refused? then [LogFailed] else []
  }

  /** How often Pastel has applied the payload. */
  function TimesApplied(attempts: seq<Attempt>): nat {
    if attempts == [] then 0
    else
      var last := attempts[|attempts| - 1].answer;
      TimesApplied(attempts[..|attempts| - 1]) + if last.Accepted? || last == D.Crashed(true) then 1 else 0
  }

  /** The status after a record's last attempt, `failures` of its attempts having been refused. */
  predicate StatusAfter(status: SendStatus, last: Attempt, failures: nat) {
    match last
    case Attempt(_, Accepted) => status == SendStatus.Sent
    case Attempt(true, Refused) => status == if failures >= 5 then Abandoned else Failed
    case Attempt(false, Refused) => status == Failed
    case Attempt(true, Crashed(_)) => status == Sending
    case Attempt(false, Crashed(_)) => status == Pending
  }

  /** The record's columns, its log and Pastel's side are what its attempts left. */
  predicate Follows(d: Delivery, attempts: seq<Attempt>) {
    && d.log == LogOf(attempts)
    && d.attempts == D.Count(d.log, LogFailed)
    && d.applied == TimesApplied(attempts)
    && if attempts == [] then d.status == Pending
       else StatusAfter(d.status, attempts[|attempts| - 1], D.Count(d.log, LogFailed))
  }

  /** Only the first attempt, or one right after a resend that crashed, is made by a batch. */
  predicate BatchesAfterCrashes(attempts: seq<Attempt>) {
    forall j :: 0 < j < |attempts| && attempts[j].byBatch ==> !attempts[j - 1].byBatch && attempts[j - 1].answer.Crashed?
  }

  // ----- one attempt -----

  lemma {:induction false} BatchAttempt(d: Delivery, attempts: seq<Attempt>, answer: D.Answer)
    requires Follows(d, attempts) && d.status == Pending && BatchesAfterCrashes(attempts)
    ensures Follows(D.Processed(d, answer), attempts + [Attempt(true, answer)])
    ensures BatchesAfterCrashes(attempts + [Attempt(true, answer)])
  {
    MoreLogs(attempts, Attempt(true, answer));
    BatchFollows(d, attempts, answer);
    BatchIsFirstOrAfterCrash(d, attempts, answer);
  }

  lemma {:induction false} MoreLogs(attempts: seq<Attempt>, last: Attempt)
    ensures LogOf(attempts + [last]) ==
      LogOf(attempts) + if last.answer.Accepted? then [LogSuccess] else if last.answer.Refused? then [LogFailed] else []
    ensures TimesApplied(attempts + [last]) ==
      TimesApplied(attempts) + if last.answer.Accepted? || last.answer == D.Crashed(true) then 1 else 0
  {
    assert (attempts + [last])[..|attempts|] == attempts;
  }

  lemma {:induction false} BatchFollows(d: Delivery, attempts: seq<Attempt>, answer: D.Answer)
    requires d.log == LogOf(attempts) && d.attempts == D.Count(d.log, LogFailed) && d.applied == TimesApplied(attempts)
    ensures Follows(D.Processed(d, answer), attempts + [Attempt(true, answer)])
  {
    MoreLogs(attempts, Attempt(true, answer));
    D.SentLogs(d, answer);
    var d' := D.Processed(d, answer);
    assert d'.log == LogOf(attempts + [Attempt(true, answer)]);
    assert StatusAfter(d'.status, Attempt(true, answer), D.Count(d'.log, LogFailed));
  }

  lemma {:induction false} BatchIsFirstOrAfterCrash(d: Delivery, attempts: seq<Attempt>, answer: D.Answer)
    requires d.status == Pending && BatchesAfterCrashes(attempts)
    requires attempts != [] ==> StatusAfter(d.status, attempts[|attempts| - 1], D.Count(d.log, LogFailed))
    ensures BatchesAfterCrashes(attempts + [Attempt(true, answer)])
  {
  }

  lemma {:induction false} ResendAttempt(d: Delivery, attempts: seq<Attempt>, answer: D.Answer)
    requires Follows(d, attempts) && d.status != SendStatus.Sent && BatchesAfterCrashes(attempts)
    ensures D.Resent(d, answer).Ok? && Follows(D.Resent(d, answer).value, attempts + [Attempt(false, answer)])
    ensures BatchesAfterCrashes(attempts + [Attempt(false, answer)])
  {
    MoreLogs(attempts, Attempt(false, answer));
    D.SentLogs(d, answer);
  }

  // ----- calls that attempt nothing -----

  /** Every other call leaves the records there are alone, and adds at most new ones. */
  lemma {:induction false} OtherCallKeepsRecords(s: State, op: Op, s': State)
    requires Inv(s) && Step(s, op) == Ok(s') && !op.OpDrain? && !op.OpResend?
    ensures s.books.outbox <= s'.books.outbox
    ensures forall i :: |s.books.outbox| <= i < |s'.books.outbox| ==> s'.books.outbox[i].delivery == NewDelivery
  {
    if Writes(s, op).Some? {
      RefsOfSales(s);
      StepEffect(s, op, s');
      PostingKeepsRecords(s, s', Writes(s, op).value, MayOverride(s, op));
    } else if op.OpDecide? {
      BudgetDecisionQuiet(s, op, s');
    } else {
      QuietStep(s, op, s');
    }
  }

  lemma PostingKeepsRecords(s: State, s': State, document: Document, override: bool)
    requires PostsOnly(s, s', document, override)
    ensures s.books.outbox <= s'.books.outbox
    ensures forall i :: |s.books.outbox| <= i < |s'.books.outbox| ==> s'.books.outbox[i].delivery == NewDelivery
  {
  }

  /** A record that does not exist has not been attempted. */
  lemma {:induction false} NoAttempts(factors: Factors, ops: seq<Op>, i: nat)
    requires FactorsPositive(factors) && |After(factors, ops).books.outbox| <= i
    ensures Attempts(factors, ops, i) == []
  {
    if ops != [] {
      var n := |ops| - 1;
      Reachable(factors, ops[..n]);
      RecordsStay(After(factors, ops[..n]), ops[n]);
      NoAttempts(factors, ops[..n], i);
    }
  }

  lemma {:induction false} RecordsStay(s: State, op: Op)
    requires Inv(s)
    ensures |s.books.outbox| <= |Next(s, op).books.outbox|
  {
    if op.OpDrain? || op.OpResend? {
      DeliveryCallsAddNothing(s, op);
    } else if Step(s, op).Ok? {
      OtherCallKeepsRecords(s, op, Step(s, op).value);
    }
  }

  lemma {:induction false} DeliveryCallsAddNothing(s: State, op: Op)
    requires op.OpDrain? || op.OpResend?
    ensures |Next(s, op).books.outbox| == |s.books.outbox|
  {
  }

  /** What a committed call does to one record. */
  predicate Attempted(d: Delivery, attempt: Option<Attempt>, d': Delivery) {
    match attempt
    case None => d' == d
    case Some(Attempt(true, answer)) => d.status == Pending && d' == D.Processed(d, answer)
    case Some(Attempt(false, answer)) => d.status != SendStatus.Sent && D.Resent(d, answer) == Ok(d')
  }

  lemma {:induction false} CallAttempts(s: State, op: Op, i: nat)
    requires Inv(s) && i < |s.books.outbox|
    ensures i < |Next(s, op).books.outbox|
    ensures Attempted(s.books.outbox[i].delivery, AttemptOn(s, op, i), Next(s, op).books.outbox[i].delivery)
  {
    if op.OpDrain? {
      BatchCallAttempts(s, op, i);
    } else if op.OpResend? {
      ResendCallAttempts(s, op, i);
    } else if Step(s, op).Ok? {
      OtherCallKeepsRecords(s, op, Step(s, op).value);
    }
  }

  lemma {:induction false} BatchCallAttempts(s: State, op: Op, i: nat)
    requires op.OpDrain? && i < |s.books.outbox|
    ensures |Next(s, op).books.outbox| == |s.books.outbox|
    ensures Attempted(s.books.outbox[i].delivery, AttemptOn(s, op, i), Next(s, op).books.outbox[i].delivery)
  {
  }

  lemma {:induction false} ResendCallAttempts(s: State, op: Op, i: nat)
    requires op.OpResend? && i < |s.books.outbox|
    ensures |Next(s, op).books.outbox| == |s.books.outbox|
    ensures Attempted(s.books.outbox[i].delivery, AttemptOn(s, op, i), Next(s, op).books.outbox[i].delivery)
  {
  }

  lemma {:induction false} FollowsOn(d: Delivery, attempts: seq<Attempt>, attempt: Option<Attempt>, d': Delivery)
    requires Follows(d, attempts) && BatchesAfterCrashes(attempts) && Attempted(d, attempt, d')
    ensures var more := attempts + if attempt.Some? then [attempt.value] else [];
      Follows(d', more) && BatchesAfterCrashes(more)
  {
    if attempt.None? {
      assert attempts + [] == attempts;
    } else if attempt.value.byBatch {
      BatchAttempt(d, attempts, attempt.value.answer);
    } else {
      ResendAttempt(d, attempts, attempt.value.answer);
    }
  }

  lemma {:induction false} NewRecords(s: State, op: Op, i: nat)
    requires Inv(s) && |s.books.outbox| <= i < |Next(s, op).books.outbox|
    ensures Next(s, op).books.outbox[i].delivery == NewDelivery
  {
    if op.OpDrain? || op.OpResend? {
      DeliveryCallsAddNothing(s, op);
    } else if Step(s, op).Ok? {
      OtherCallKeepsRecords(s, op, Step(s, op).value);
    }
  }

  /** Over any run of any calls a record's status, its attempt counter, its log and what Pastel has
      applied follow from the attempts made on it, and a batch attempts a record again only right after
      a resend that crashed: there is no automatic retry. */
  lemma {:induction false} RecordFollows(factors: Factors, ops: seq<Op>, i: nat)
    requires FactorsPositive(factors) && i < |After(factors, ops).books.outbox|
    ensures Follows(After(factors, ops).books.outbox[i].delivery, Attempts(factors, ops, i))
    ensures BatchesAfterCrashes(Attempts(factors, ops, i))
  {
    var n := |ops| - 1;
    var s := After(factors, ops[..n]);
    Reachable(factors, ops[..n]);
    if i < |s.books.outbox| {
      RecordFollows(factors, ops[..n], i);
      CallAttempts(s, ops[n], i);
      FollowsOn(s.books.outbox[i].delivery, Attempts(factors, ops[..n], i), AttemptOn(s, ops[n], i),
                After(factors, ops).books.outbox[i].delivery);
    } else {
      NoAttempts(factors, ops[..n], i);
      NewRecords(s, ops[n], i);
    }
  }

  // ----- what the log says -----

  predicate EndsWith(log: seq<LogStatus>, last: LogStatus) {
    log != [] && log[|log| - 1] == last
  }

  /** SENT iff the last attempt was accepted, FAILED or ABANDONED iff it was refused, ABANDONED iff moreover a
      batch made it and at least five attempts were refused, PENDING iff there was none or the last was a
      resend that crashed; a SENT record's last log row is a success, a FAILED or ABANDONED one's a failure. */
  predicate StatusTells(d: Delivery, attempts: seq<Attempt>) {
    if attempts == [] then d.status.Pending?
    else
      var last := attempts[|attempts| - 1];
      && (d.status.Sent? <==> last.answer.Accepted?)
      && (d.status.Failed? || d.status.Abandoned? <==> last.answer.Refused?)
      && (d.status.Abandoned? <==> last.byBatch && last.answer.Refused? && D.Count(d.log, LogFailed) >= 5)
      && (d.status.Pending? <==> !last.byBatch && last.answer.Crashed?)
      && (d.status.Sent? ==> EndsWith(d.log, LogSuccess))
      && (d.status.Failed? || d.status.Abandoned? ==> EndsWith(d.log, LogFailed))
  }

  /** In every reachable state a record's status says what became of the last attempt on it. */
  lemma {:induction false} StatusMeansLastAttempt(factors: Factors, ops: seq<Op>, i: nat)
    requires FactorsPositive(factors) && i < |After(factors, ops).books.outbox|
    ensures StatusTells(After(factors, ops).books.outbox[i].delivery, Attempts(factors, ops, i))
  {
    RecordFollows(factors, ops, i);
    FollowsMeans(After(factors, ops).books.outbox[i].delivery, Attempts(factors, ops, i));
  }

  lemma {:induction false} FollowsMeans(d: Delivery, attempts: seq<Attempt>)
    requires Follows(d, attempts)
    ensures StatusTells(d, attempts)
  {
    if attempts != [] {
      assert StatusAfter(d.status, attempts[|attempts| - 1], D.Count(d.log, LogFailed));
    }
  }

  /** At least five attempts, the last one a batch that was refused, right after a resend that crashed. */
  predicate GivenUpAfterCrash(attempts: seq<Attempt>) {
    && |attempts| >= 5
    && attempts[|attempts| - 1] == Attempt(true, D.Refused)
    && !attempts[|attempts| - 2].byBatch && attempts[|attempts| - 2].answer.Crashed?
  }

  /** ABANDONED takes a crash: some resend raised just before the batch that gave the record up. */
  lemma {:induction false} AbandonedTakesACrash(factors: Factors, ops: seq<Op>, i: nat)
    requires FactorsPositive(factors) && i < |After(factors, ops).books.outbox|
    requires After(factors, ops).books.outbox[i].delivery.status.Abandoned?
    ensures GivenUpAfterCrash(Attempts(factors, ops, i))
  {
    RecordFollows(factors, ops, i);
    AbandonedMeans(After(factors, ops).books.outbox[i].delivery, Attempts(factors, ops, i));
  }

  lemma {:induction false} AbandonedMeans(d: Delivery, attempts: seq<Attempt>)
    requires Follows(d, attempts) && BatchesAfterCrashes(attempts) && d.status.Abandoned?
    ensures GivenUpAfterCrash(attempts)
  {
    FollowsMeans(d, attempts);
    FailuresAreAttempts(attempts);
  }

  lemma {:induction false} CountsAtMost(log: seq<LogStatus>, status: LogStatus)
    ensures D.Count(log, status) <= |log|
  {
    if log != [] {
      CountsAtMost(log[..|log| - 1], status);
    }
  }

  lemma {:induction false} LogIsNotLonger(attempts: seq<Attempt>)
    ensures |LogOf(attempts)| <= |attempts|
  {
    if attempts != [] {
      LogIsNotLonger(attempts[..|attempts| - 1]);
    }
  }

  lemma {:induction false} FailuresAreAttempts(attempts: seq<Attempt>)
    ensures D.Count(LogOf(attempts), LogFailed) <= |attempts|
  {
    CountsAtMost(LogOf(attempts), LogFailed);
    LogIsNotLonger(attempts);
  }

  lemma {:induction false} AnsweredAreLogged(attempts: seq<Attempt>)
    requires forall j :: 0 <= j < |attempts| ==> !attempts[j].answer.Crashed?
    ensures |LogOf(attempts)| == |attempts|
  {
    if attempts != [] {
      var n := |attempts| - 1;
      assert forall j :: 0 <= j < n ==> attempts[..n][j] == attempts[j];
      AnsweredAreLogged(attempts[..n]);
    }
  }

  // ----- runs in which every attempt is answered -----

  /** No attempt the call makes goes unanswered. */
  predicate Answered(op: Op) {
    match op
    case OpDrain(_, answers) => forall i :: 0 <= i < |answers| ==> !answers[i].Crashed?
    case OpResend(_, answer) => !answer.Crashed?
    case _ => true
  }

  lemma {:induction false} AllAnswered(factors: Factors, ops: seq<Op>, i: nat)
    requires forall n :: 0 <= n < |ops| ==> Answered(ops[n])
    ensures forall j :: 0 <= j < |Attempts(factors, ops, i)| ==> !Attempts(factors, ops, i)[j].answer.Crashed?
  {
    if ops != [] {
      var n := |ops| - 1;
      assert forall j :: 0 <= j < n ==> ops[..n][j] == ops[j];
      AllAnswered(factors, ops[..n], i);
      AnsweredAttempt(After(factors, ops[..n]), ops[n], i);
    }
  }

  lemma {:induction false} AnsweredAttempt(s: State, op: Op, i: nat)
    requires Answered(op)
    ensures AttemptOn(s, op, i).Some? ==> !AttemptOn(s, op, i).value.answer.Crashed?
  {
  }

  /** PENDING iff nothing is logged, FAILED iff the last log row is a failure, SENT iff it is a
      success; there is no other status. */
  predicate StatusIsLog(d: Delivery) {
    && (d.status.Pending? <==> d.log == [])
    && (d.status.Failed? <==> EndsWith(d.log, LogFailed))
    && (d.status.Sent? <==> EndsWith(d.log, LogSuccess))
    && !d.status.Abandoned? && !d.status.Sending?
  }

  lemma {:induction false} AnsweredStatus(d: Delivery, attempts: seq<Attempt>)
    requires Follows(d, attempts) && BatchesAfterCrashes(attempts)
    requires forall j :: 0 <= j < |attempts| ==> !attempts[j].answer.Crashed?
    ensures StatusIsLog(d)
  {
    AnsweredAreLogged(attempts);
    FollowsMeans(d, attempts);
    if d.status.Abandoned? {
      AbandonedMeans(d, attempts);
    }
  }

  /** While every attempt is answered, a record's status says exactly what its log ends with, and no
      record is ever ABANDONED, however often Pastel refuses it. */
  lemma {:induction false} AnsweredRunStatus(factors: Factors, ops: seq<Op>, i: nat)
    requires FactorsPositive(factors) && i < |After(factors, ops).books.outbox|
    requires forall n :: 0 <= n < |ops| ==> Answered(ops[n])
    ensures StatusIsLog(After(factors, ops).books.outbox[i].delivery)
  {
    RecordFollows(factors, ops, i);
    AllAnswered(factors, ops, i);
    AnsweredStatus(After(factors, ops).books.outbox[i].delivery, Attempts(factors, ops, i));
  }

  /** After such a run no batch, whatever it is told is due, touches a record that was ever answered. */
  lemma {:induction false} BatchLeavesAnswered(factors: Factors, ops: seq<Op>, i: nat, due: set<nat>, answers: seq<D.Answer>)
    requires FactorsPositive(factors) && i < |After(factors, ops).books.outbox|
    requires forall n :: 0 <= n < |ops| ==> Answered(ops[n])
    requires After(factors, ops).books.outbox[i].delivery.log != []
    ensures Next(After(factors, ops), OpDrain(due, answers)).books.outbox[i] == After(factors, ops).books.outbox[i]
  {
    AnsweredRunStatus(factors, ops, i);
  }

  // ----- one refusal -----

  /** In every reachable state a batch that is refused a pending record logs a failure and makes the
      record ABANDONED iff that is at least its fifth, FAILED otherwise; a refused resend logs one and
      makes it FAILED however many there are. */
  lemma {:induction false} RefusalOutcome(factors: Factors, ops: seq<Op>, op: Op, i: nat)
    requires FactorsPositive(factors) && i < |After(factors, ops).books.outbox|
    requires AttemptOn(After(factors, ops), op, i).Some? && AttemptOn(After(factors, ops), op, i).value.answer.Refused?
    ensures i < |Next(After(factors, ops), op).books.outbox|
    ensures var d, d' := After(factors, ops).books.outbox[i].delivery, Next(After(factors, ops), op).books.outbox[i].delivery;
      && d'.log == d.log + [LogFailed]
      && d'.status == if op.OpDrain? && D.Count(d'.log, LogFailed) >= 5 then Abandoned else Failed
  {
    var s := After(factors, ops);
    Reachable(factors, ops);
    RecordFollows(factors, ops, i);
    CallAttempts(s, op, i);
    RefusedRecord(s.books.outbox[i].delivery, Attempts(factors, ops, i), AttemptOn(s, op, i).value,
                  Next(s, op).books.outbox[i].delivery);
  }

  lemma {:induction false} RefusedRecord(d: Delivery, attempts: seq<Attempt>, attempt: Attempt, d': Delivery)
    requires Follows(d, attempts) && BatchesAfterCrashes(attempts) && Attempted(d, Some(attempt), d') && attempt.answer.Refused?
    ensures d'.log == d.log + [LogFailed]
    ensures d'.status == if attempt.byBatch && D.Count(d'.log, LogFailed) >= 5 then Abandoned else Failed
  {
    var more := attempts + [attempt];
    FollowsOn(d, attempts, Some(attempt), d');
    assert more[..|more| - 1] == attempts;
    assert StatusAfter(d'.status, attempt, D.Count(d'.log, LogFailed));
  }

  /** A batch tries a record again iff it is due and the last attempt was a resend that crashed. */
  lemma {:induction false} RetriedIff(factors: Factors, ops: seq<Op>, i: nat, due: set<nat>, answers: seq<D.Answer>)
    requires FactorsPositive(factors) && i < |After(factors, ops).books.outbox| && Attempts(factors, ops, i) != []
    ensures var attempts := Attempts(factors, ops, i);
      Attempts(factors, ops + [OpDrain(due, answers)], i) ==
        if i in due && !attempts[|attempts| - 1].byBatch && attempts[|attempts| - 1].answer.Crashed?
        then attempts + [Attempt(true, D.AnswerFor(answers, i))] else attempts
  {
    var more := ops + [OpDrain(due, answers)];
    assert more[..|more| - 1] == ops;
    StatusMeansLastAttempt(factors, ops, i);
  }
}
