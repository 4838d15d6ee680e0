/** Concrete runs of a record that Pastel keeps refusing. */
module DeliveryWitnesses {
  import opened Prelude
  import opened Ledger
  import opened Accounting
  import opened Deduction
  import opened Model
  import opened Services
  import opened System
  import opened Witnesses
  import opened QueueWitnesses
  import D = Delivery

  /** The goods' one record, and what has been tried with it. */
  function Tried(status: SendStatus, failures: nat, log: seq<LogStatus>): State {
    Stocked().(books := Stocked().books.(outbox :=
      [OutboxRecord(Posting(GrnDocument(0), [RECEIVED]), Delivery(status, failures, log, 0))]))
  }

  const FAILURE := [LogFailed]
  const FIVE := [LogFailed, LogFailed, LogFailed, LogFailed, LogFailed]

  lemma {:induction false} BatchRefused(failures: nat, log: seq<LogStatus>)
    ensures Step(Tried(Pending, failures, log), OpDrain({0}, [D.Refused])) ==
      Ok(Tried(if failures + 1 >= 5 then Abandoned else Failed, failures + 1, log + FAILURE))
  {
    var s := Tried(Pending, failures, log);
    var s' := Tried(if failures + 1 >= 5 then Abandoned else Failed, failures + 1, log + FAILURE);
    assert D.Drain(s.books.outbox, {0}, [D.Refused]) == s'.books.outbox;
  }

  lemma {:induction false} ResendRefused(failures: nat, log: seq<LogStatus>)
    ensures Step(Tried(Failed, failures, log), OpResend(0, D.Refused)) == Ok(Tried(Failed, failures + 1, log + FAILURE))
  {
    var s := Tried(Failed, failures, log);
    assert s.books.outbox[0 := Tried(Failed, failures + 1, log + FAILURE).books.outbox[0]] ==
      Tried(Failed, failures + 1, log + FAILURE).books.outbox;
  }

  lemma {:induction false} ResendCrashed(failures: nat, log: seq<LogStatus>)
    ensures Step(Tried(Failed, failures, log), OpResend(0, D.Crashed(false))) == Ok(Tried(Pending, failures, log))
  {
    var s := Tried(Failed, failures, log);
    assert s.books.outbox[0 := Tried(Pending, failures, log).books.outbox[0]] == Tried(Pending, failures, log).books.outbox;
  }

  lemma {:induction false} BatchPassesBy(failures: nat, log: seq<LogStatus>)
    ensures Step(Tried(Failed, failures, log), OpDrain({0}, [D.Accepted])) == Ok(Tried(Failed, failures, log))
  {
    var s := Tried(Failed, failures, log);
    assert D.Drain(s.books.outbox, {0}, [D.Accepted]) == s.books.outbox;
  }

  /** After a batch that was refused, some refused resends. */
  function Resends(ops: seq<Op>, n: nat): seq<Op> {
    if n == 0 then ops else Resends(ops, n - 1) + [OpResend(0, D.Refused)]
  }

  function RefusedOps(n: nat): seq<Op> { Resends(GoodsOps() + [OpDrain({0}, [D.Refused])], n) }

  function Failures(n: nat): seq<LogStatus> { if n == 0 then [] else Failures(n - 1) + FAILURE }

  lemma {:induction false} NothingTried()
    ensures After(NONE, GoodsOps()) == Tried(Pending, 0, [])
  {
    GoodsRun();
    assert Stocked().books.outbox == Tried(Pending, 0, []).books.outbox;
  }

  lemma {:induction false} FirstRefusal(ops: seq<Op>)
    requires After(NONE, ops) == Tried(Pending, 0, [])
    ensures After(NONE, ops + [OpDrain({0}, [D.Refused])]) == Tried(Failed, 1, Failures(1))
  {
    assert Failures(0) + FAILURE == Failures(1);
    BatchRefused(0, []);
    OneMore(NONE, ops, OpDrain({0}, [D.Refused]), Tried(Pending, 0, []), Tried(Failed, 1, Failures(1)));
  }

  lemma {:induction false} AnotherRefusal(ops: seq<Op>, n: nat)
    requires After(NONE, ops) == Tried(Failed, n, Failures(n))
    ensures After(NONE, ops + [OpResend(0, D.Refused)]) == Tried(Failed, n + 1, Failures(n + 1))
  {
    ResendRefused(n, Failures(n));
    OneMore(NONE, ops, OpResend(0, D.Refused), Tried(Failed, n, Failures(n)), Tried(Failed, n + 1, Failures(n + 1)));
  }

  lemma {:induction false} RefusedRun(ops: seq<Op>, n: nat)
    requires After(NONE, ops) == Tried(Failed, 1, Failures(1))
    ensures After(NONE, Resends(ops, n)) == Tried(Failed, n + 1, Failures(n + 1))
  {
    if n > 0 {
      RefusedRun(ops, n - 1);
      AnotherRefusal(Resends(ops, n - 1), n);
    }
  }

  predicate OneRecord(s: State, delivery: Delivery) {
    |s.books.outbox| == 1 && s.books.outbox[0].delivery == delivery
  }

  /** After five refusals the record is FAILED, not ABANDONED, and a batch that would be accepted passes it
      by; only a resend that crashes puts it back in line, and the batch that is then refused gives it up. */
  lemma {:induction false} FiveRefusals()
    ensures OneRecord(After(NONE, RefusedOps(4)), Delivery(Failed, 5, FIVE, 0))
    ensures OneRecord(After(NONE, RefusedOps(4) + [OpDrain({0}, [D.Accepted])]), Delivery(Failed, 5, FIVE, 0))
    ensures OneRecord(After(NONE, RefusedOps(4) + [OpResend(0, D.Crashed(false))] + [OpDrain({0}, [D.Refused])]),
                      Delivery(Abandoned, 6, FIVE + FAILURE, 0))
  {
    NothingTried();
    FirstRefusal(GoodsOps());
    RefusedRun(GoodsOps() + [OpDrain({0}, [D.Refused])], 4);
    FiveFailures();
    PassedBy(RefusedOps(4));
    GivenUp(RefusedOps(4));
  }

  lemma {:induction false} PassedBy(ops: seq<Op>)
    requires After(NONE, ops) == Tried(Failed, 5, FIVE)
    ensures After(NONE, ops + [OpDrain({0}, [D.Accepted])]) == Tried(Failed, 5, FIVE)
  {
    BatchPassesBy(5, FIVE);
    OneMore(NONE, ops, OpDrain({0}, [D.Accepted]), Tried(Failed, 5, FIVE), Tried(Failed, 5, FIVE));
  }

  lemma {:induction false} GivenUp(ops: seq<Op>)
    requires After(NONE, ops) == Tried(Failed, 5, FIVE)
    ensures After(NONE, ops + [OpResend(0, D.Crashed(false))] + [OpDrain({0}, [D.Refused])]) == Tried(Abandoned, 6, FIVE + FAILURE)
  {
    ResendCrashed(5, FIVE);
    OneMore(NONE, ops, OpResend(0, D.Crashed(false)), Tried(Failed, 5, FIVE), Tried(Pending, 5, FIVE));
    BatchRefused(5, FIVE);
    OneMore(NONE, ops + [OpResend(0, D.Crashed(false))], OpDrain({0}, [D.Refused]), Tried(Pending, 5, FIVE),
            Tried(Abandoned, 6, FIVE + FAILURE));
  }

  lemma {:induction false} FiveFailures()
    ensures Failures(5) == FIVE
  {
    assert Failures(0) == [] && Failures(1) == FAILURE && Failures(2) == Failures(1) + FAILURE;
    assert Failures(3) == Failures(2) + FAILURE && Failures(4) == Failures(3) + FAILURE;
  }
}
