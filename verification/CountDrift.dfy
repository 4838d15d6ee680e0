/** Exactly when a stock-take leaves a product at its count plus the ledger rows posted since the
    count was opened (backend/apps/inventory/services.py, `open_stock_take` and `post_stock_take`). */
module CountDrift {
  import opened Prelude
  import opened Ledger
  import opened Accounting
  import opened Deduction
  import opened Model
  import opened Services
  import opened System
  import opened Effects
  import opened Documents
  import opened SalesLifecycle
  import opened Invariant
  import opened Runs
  import opened Reports
  import opened StockTakes

  // ----- payloads are only appended -----

  lemma {:induction false} StepKeepsPayloads(s: State, op: Op)
    requires Inv(s)
    ensures Payloads(s.books.outbox) <= Payloads(Next(s, op).books.outbox)
  {
    if Step(s, op).Ok? {
      var s' := Step(s, op).value;
      RefsOfSales(s);
      StepEffect(s, op, s');
      if Writes(s, op).Some? && s'.books != s.books {
        var lines :| PostedAs(s, s', Posting(Writes(s, op).value, lines), MayOverride(s, op));
        PostKeepsBooks(s.books, Posting(Writes(s, op).value, lines), MayOverride(s, op));
      }
    }
  }

  lemma {:induction false} PayloadsKept(factors: Factors, ops: seq<Op>, i: nat)
    requires FactorsPositive(factors) && i <= |ops|
    ensures Payloads(After(factors, ops[..i]).books.outbox) <= Payloads(After(factors, ops).books.outbox)
    decreases |ops|
  {
    if i == |ops| {
      assert ops[..i] == ops;
    } else {
      var n := |ops| - 1;
      assert ops[..n][..i] == ops[..i];
      PayloadsKept(factors, ops[..n], i);
      LastCallKeepsPayloads(factors, ops);
    }
  }

  lemma {:induction false} LastCallKeepsPayloads(factors: Factors, ops: seq<Op>)
    requires FactorsPositive(factors) && ops != []
    ensures Payloads(After(factors, ops[..|ops| - 1]).books.outbox) <= Payloads(After(factors, ops).books.outbox)
  {
    Reachable(factors, ops[..|ops| - 1]);
    StepKeepsPayloads(After(factors, ops[..|ops| - 1]), ops[|ops| - 1]);
  }

  lemma {:induction false} JournalGrows(ps: seq<Posting>, ps': seq<Posting>)
    requires ps <= ps'
    ensures Journal(ps) <= Journal(ps')
  {
    if |ps'| > |ps| {
      JournalGrows(ps, ps'[..|ps'| - 1]);
    } else {
      assert ps == ps';
    }
  }

  // ----- the gap over part of the journal -----

  /** Line `i` or a later one deducts an odd number of half-thousandths and leaves stock behind. */
  ghost predicate HalfSaleSince(journal: seq<Line>, m: nat, k: Key) {
    exists i :: m <= i < |journal| && HalfSaleLeavingStock(journal, i, k)
  }

  lemma LastHalfSale(journal: seq<Line>, m: nat, k: Key)
    requires m < |journal|
    ensures HalfSaleSince(journal, m, k) <==>
      HalfSaleSince(journal[..|journal| - 1], m, k) || HalfSaleLeavingStock(journal, |journal| - 1, k)
  {
    var n := |journal| - 1;
    var earlier := journal[..n];
    assert forall i :: 0 <= i < n ==> earlier[i] == journal[i] && earlier[..i] == journal[..i];
    assert forall i :: 0 <= i < n ==> HalfSaleLeavingStock(earlier, i, k) == HalfSaleLeavingStock(journal, i, k);
    if i :| m <= i < n && HalfSaleLeavingStock(earlier, i, k) {
      assert HalfSaleLeavingStock(journal, i, k);
    }
  }

  /** The gap never shrinks, and grows exactly when such a line is posted. */
  lemma {:induction false} GapGrows(journal: seq<Line>, m: nat, k: Key)
    requires m <= |journal| && forall i :: 0 <= i < |journal| ==> OffGridIsDeducted(journal[i])
    ensures Carries(map[], journal, k) >= Carries(map[], journal[..m], k)
    ensures Carries(map[], journal, k) == Carries(map[], journal[..m], k) <==> !HalfSaleSince(journal, m, k)
    decreases |journal|
  {
    if m == |journal| {
      assert journal[..m] == journal;
    } else {
      var n := |journal| - 1;
      var earlier := journal[..n];
      assert earlier[..m] == journal[..m];
      assert forall i :: 0 <= i < n ==> earlier[i] == journal[i];
      GapGrows(earlier, m, k);
      LastHalfSale(journal, m, k);
      assert OffGridIsDeducted(journal[n]);
      var last := if journal[n].key == k then Carry(OnHand(Settle(map[], earlier), k), journal[n].qty) else 0;
      assert Carries(map[], journal, k) == Carries(map[], earlier, k) + last;
      assert last == if HalfSaleLeavingStock(journal, n, k) then 1 else 0;
    }
  }

  /** Every line posted by the end of a run is on the grid or a deduction. */
  lemma {:induction false} ReachableDeducts(factors: Factors, ops: seq<Op>)
    requires FactorsPositive(factors)
    ensures var journal := Journal(Payloads(After(factors, ops).books.outbox));
      forall i :: 0 <= i < |journal| ==> OffGridIsDeducted(journal[i])
  {
    var s := After(factors, ops);
    Reachable(factors, ops);
    var ps := Payloads(s.books.outbox);
    assert forall i :: 0 <= i < |ps| ==> ps[i] == s.books.outbox[i].posting;
    JournalDeducts(s, ps);
  }

  /** What has been posted by call `i`, counted in lines. */
  ghost function PostedLines(factors: Factors, ops: seq<Op>, i: nat): nat
    requires i <= |ops|
  {
    |Journal(Payloads(After(factors, ops[..i]).books.outbox))|
  }

  /** Some half-thousandth deduction of the key that left stock behind was posted since call `i`. */
  ghost predicate DriftedSince(factors: Factors, ops: seq<Op>, i: nat, k: Key)
    requires i <= |ops|
  {
    HalfSaleSince(Journal(Payloads(After(factors, ops).books.outbox)), PostedLines(factors, ops, i), k)
  }

  /** Between any two points of a run the gap between cache and ledger never shrinks, and stays the
      same iff no half-thousandth deduction left stock behind in between. */
  lemma {:induction false} GapUnchangedIff(factors: Factors, ops: seq<Op>, i: nat, k: Key)
    requires FactorsPositive(factors) && i <= |ops|
    ensures Gap(After(factors, ops).books, k) >= Gap(After(factors, ops[..i]).books, k)
    ensures Gap(After(factors, ops).books, k) == Gap(After(factors, ops[..i]).books, k) <==> !DriftedSince(factors, ops, i, k)
  {
    var ps, ps' := Payloads(After(factors, ops[..i]).books.outbox), Payloads(After(factors, ops).books.outbox);
    PayloadsKept(factors, ops, i);
    JournalGrows(ps, ps');
    assert Journal(ps')[..|Journal(ps)|] == Journal(ps);
    ReachableDeducts(factors, ops);
    GapGrows(Journal(ps'), |Journal(ps)|, k);
  }

  /** A count opened at call `i` and posted by call `j` leaves each counted product at no less than
      its count plus the ledger rows posted at the location in between, and at exactly that iff no
      half-thousandth deduction of it left stock behind in between. */
  lemma {:induction false} CountPlusRowsSinceIff(factors: Factors, ops: seq<Op>, i: nat, j: nat, id: nat, l: nat)
    requires FactorsPositive(factors) && i < j < |ops| && ops[i].OpOpenTake?
    requires id == |After(factors, ops[..i]).takes|
    requires PostsTake(After(factors, ops[..j]), ops[j], id)
    requires l < |After(factors, ops[..j]).takes[id].lines|
    requires After(factors, ops[..j]).takes[id].lines[l].counted.Some?
    ensures var atOpen, before, after := After(factors, ops[..i]), After(factors, ops[..j]), After(factors, ops[..j + 1]);
      var k := Key(before.takes[id].lines[l].product, ops[i].location);
      && atOpen.books.ledger <= before.books.ledger
      && var expected := before.takes[id].lines[l].counted.value + LedgerSum(before.books.ledger[|atOpen.books.ledger|..], k);
      && OnHand(after.books.balances, k) >= expected
      && (OnHand(after.books.balances, k) == expected <==> !DriftedSince(factors, ops[..j], i, k))
  {
    var k := Key(After(factors, ops[..j]).takes[id].lines[l].product, ops[i].location);
    StockTakeCommutes(factors, ops, i, j, id, l);
    assert ops[..j][..i] == ops[..i];
    GapUnchangedIff(factors, ops[..j], i, k);
  }
}
