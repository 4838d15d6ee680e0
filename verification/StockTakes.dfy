/** Posting a stock-take commutes with trading (backend/apps/inventory/services.py, `open_stock_take`
    and `post_stock_take`). */
module StockTakes {
  import opened Prelude
  import opened Ledger
  import opened Accounting
  import opened Deduction
  import opened Model
  import opened Services
  import opened System
  import opened Effects
  import opened Documents
  import opened SalesLifecycle
  import opened Invariant
  import opened Runs

  predicate DistinctProducts(lines: seq<CountLine>) {
    forall i, j :: 0 <= i < j < |lines| ==> lines[i].product != lines[j].product
  }

  /** A non-zero variance of one of the counted lines. */
  predicate IsVariance(lines: seq<CountLine>, item: ItemQty) {
    exists i :: 0 <= i < |lines| && FromLine(lines[i], item)
  }

  predicate FromLine(line: CountLine, item: ItemQty) {
    line.counted.Some? && item == ItemQty(line.product, Variance(line)) && item.qty != 0
  }

  /** Every variance comes from one counted line, and every counted line with a variance gives one. */
  lemma {:induction false} VariantLines(lines: seq<CountLine>)
    requires DistinctProducts(lines)
    ensures forall item :: item in Variant(lines) <==> IsVariance(lines, item)
    ensures forall v, w :: 0 <= v < w < |Variant(lines)| ==> Variant(lines)[v].product != Variant(lines)[w].product
  {
    if lines != [] {
      var n := |lines| - 1;
      assert forall i :: 0 <= i < n ==> lines[..n][i] == lines[i];
      VariantLines(lines[..n]);
      forall item
        ensures item in Variant(lines) <==> IsVariance(lines, item)
        ensures item in Variant(lines[..n]) ==> item.product != lines[n].product
      {
        assert IsVariance(lines, item) <==> IsVariance(lines[..n], item) || FromLine(lines[n], item);
      }
    }
  }

  /** What the stock-take adjusts at a key: its variance where it was counted, else nothing. */
  function Adjustment(take: StockTake, k: Key): int {
    AdjustmentBy(take.location, take.lines, k)
  }

  function AdjustmentBy(location: Location, lines: seq<CountLine>, k: Key): int {
    if lines == [] then 0
    else
      var last := lines[|lines| - 1];
      if k == Key(last.product, location) && last.counted.Some? then Variance(last)
      else AdjustmentBy(location, lines[..|lines| - 1], k)
  }

  lemma {:induction false} AdjustmentAt(location: Location, lines: seq<CountLine>, k: Key)
    requires DistinctProducts(lines)
    ensures forall i :: 0 <= i < |lines| && lines[i].counted.Some? && k == Key(lines[i].product, location) ==>
      AdjustmentBy(location, lines, k) == Variance(lines[i])
    ensures (forall i :: 0 <= i < |lines| && lines[i].counted.Some? ==> k != Key(lines[i].product, location)) ==>
      AdjustmentBy(location, lines, k) == 0
  {
    if lines != [] {
      var n := |lines| - 1;
      assert forall i :: 0 <= i < n ==> lines[..n][i] == lines[i];
      AdjustmentAt(location, lines[..n], k);
    }
  }

  /** Storing the adjustments moves each key by its variance, whatever it held. */
  lemma SettleTake(balances: map<Key, int>, take: StockTake, k: Key)
    requires DistinctProducts(take.lines)
    ensures OnHand(Settle(balances, TakeLines(take)), k) == OnHand(balances, k) + Adjustment(take, k)
  {
    var variant, lines := Variant(take.lines), TakeLines(take);
    VariantLines(take.lines);
    AdjustmentAt(take.location, take.lines, k);
    SettleDistinct(balances, lines);
    if i :| 0 <= i < |take.lines| && ItemQty(k.product, Adjustment(take, k)) in variant
           && take.lines[i].counted.Some? && k == Key(take.lines[i].product, take.location) {
      var v :| 0 <= v < |variant| && variant[v] == ItemQty(k.product, Adjustment(take, k));
      assert lines[v].key == k;
      assert Exact(balances, lines[v]) == (OnHand(balances, k) + Adjustment(take, k)) * FINE;
      assert Round(Exact(balances, lines[v])) == OnHand(balances, k) + Adjustment(take, k);
    } else {
      forall v | 0 <= v < |lines|
        ensures lines[v].key != k
      {
        assert variant[v] in variant;
        var i :| 0 <= i < |take.lines| && FromLine(take.lines[i], variant[v]);
        assert lines[v].key == Key(take.lines[i].product, take.location);
      }
    }
  }

  /** The call that marks a stock-take posted moves every balance by exactly its adjustment:
      counted products by their variance (none where it is zero), others not at all. */
  lemma PostTakeAdjusts(s: State, id: nat, skip: bool, s': State, k: Key)
    requires PostTake(s, id, skip) == Ok(s') && !s.takes[id].status.PostedDoc? && s'.takes[id].status.PostedDoc?
    requires DistinctProducts(s.takes[id].lines) && !IsPosted(s.books, TakeDocument(id))
    ensures OnHand(s'.books.balances, k) == OnHand(s.books.balances, k) + Adjustment(s.takes[id], k)
  {
    SettleTake(s.books.balances, s.takes[id], k);
    if Variant(s.takes[id].lines) == [] {
      assert TakeLines(s.takes[id]) == [];
    }
  }

  /** The step at which the stock-take becomes posted, directly or through its approval. */
  predicate PostsTake(s: State, op: Op, id: nat) {
    && id < |s.takes|
    && !s.takes[id].status.PostedDoc?
    && Step(s, op).Ok?
    && id < |Next(s, op).takes|
    && Next(s, op).takes[id].status.PostedDoc?
  }

  lemma {:induction false} PostingStep(s: State, op: Op, id: nat, s': State, k: Key)
    requires Inv(s) && PostsTake(s, op, id) && Step(s, op) == Ok(s')
    ensures OnHand(s'.books.balances, k) == OnHand(s.books.balances, k) + Adjustment(s.takes[id], k)
  {
    assert TakeSafe(s, id);
    assert DistinctProducts(s.takes[id].lines);
    if op.OpPostTake? {
      assert op.id < |s.takes|;
      if op.id != id {
        PostTakeOutcome(s, op.id, false, s');
      } else {
        PostTakeAdjusts(s, id, false, s', k);
      }
    } else if op.OpDecide? {
      DecidedTakeAdjusts(s, op, id, s', k);
    } else {
      TakeStatusKept(s, op, id, s');
    }
  }

  lemma {:induction false} DecidedTakeAdjusts(s: State, op: Op, id: nat, s': State, k: Key)
    requires Inv(s) && op.OpDecide? && Step(s, op) == Ok(s')
    requires id < |s.takes| && !s.takes[id].status.PostedDoc? && id < |s'.takes| && s'.takes[id].status.PostedDoc?
    ensures OnHand(s'.books.balances, k) == OnHand(s.books.balances, k) + Adjustment(s.takes[id], k)
  {
    var subject, decided := s.approvals[op.approval].subject, Decided(s, op.approval, op.decision);
    assert TakeSafe(s, id);
    OtherDecision(s, op, s');
    if subject.OnTake? && subject.id < |s.takes| && op.decision.Approved? {
      if subject.id == id {
        PostTakeAdjusts(decided, id, true, s', k);
      } else {
        PostTakeOutcome(decided, subject.id, true, s');
      }
    }
  }

  lemma {:induction false} TakeStatusKept(s: State, op: Op, id: nat, s': State)
    requires Step(s, op) == Ok(s') && !op.OpPostTake? && !op.OpDecide? && id < |s.takes|
    ensures id < |s'.takes| && s'.takes[id].status == s.takes[id].status
  {
    StepTablesKept(s, op, s');
  }

  /** The count was opened at call `i`, freezing what was on hand then. */
  lemma {:induction false} OpenedSheet(factors: Factors, ops: seq<Op>, i: nat, id: nat)
    requires FactorsPositive(factors) && i < |ops| && ops[i].OpOpenTake?
    requires id == |After(factors, ops[..i]).takes|
    ensures var s, s' := After(factors, ops[..i]), After(factors, ops);
      && id < |s'.takes|
      && s'.takes[id].location == ops[i].location
      && forall l :: 0 <= l < |s'.takes[id].lines| ==>
           s'.takes[id].lines[l].systemQty == OnHand(s.books.balances, Key(s'.takes[id].lines[l].product, ops[i].location))
  {
    var atOpen, s' := After(factors, ops[..i + 1]), After(factors, ops);
    AfterStep(factors, ops, i);
    HistoryIsKept(factors, ops, i + 1);
    assert SameSheet(atOpen.takes[id], s'.takes[id]);
  }

  /** What moved at a key between two states of the books, by the ledger. */
  lemma MovedSince(earlier: Books, later: Books, k: Key)
    requires BooksInv(earlier) && BooksInv(later) && earlier.ledger <= later.ledger
    ensures OnHand(later.balances, k) - OnHand(earlier.balances, k) ==
      LedgerSum(later.ledger[|earlier.ledger|..], k) + Gap(later, k) - Gap(earlier, k)
  {
    var since := later.ledger[|earlier.ledger|..];
    CacheIsLedgerPlusGap(earlier, k);
    CacheIsLedgerPlusGap(later, k);
    assert later.ledger == earlier.ledger + since;
    LedgerSumConcat(earlier.ledger, since, k);
  }

  /** Stock-take commutes with trading: a count opened at call `i` and posted by call `j`,
      directly or through approval, leaves each counted product at the counted quantity plus
      everything that moved at that location in between, and every other key untouched. */
  lemma StockTakeCommutes(factors: Factors, ops: seq<Op>, i: nat, j: nat, id: nat, l: nat)
    requires FactorsPositive(factors) && i < j < |ops| && ops[i].OpOpenTake?
    requires id == |After(factors, ops[..i]).takes|
    requires PostsTake(After(factors, ops[..j]), ops[j], id)
    requires l < |After(factors, ops[..j]).takes[id].lines|
    requires After(factors, ops[..j]).takes[id].lines[l].counted.Some?
    ensures var atOpen, before, after := After(factors, ops[..i]), After(factors, ops[..j]), After(factors, ops[..j + 1]);
      var k := Key(before.takes[id].lines[l].product, ops[i].location);
      && atOpen.books.ledger <= before.books.ledger
      && OnHand(after.books.balances, k) ==
           before.takes[id].lines[l].counted.value
           + OnHand(before.books.balances, k) - OnHand(atOpen.books.balances, k)
      && OnHand(after.books.balances, k) ==
           before.takes[id].lines[l].counted.value
           + LedgerSum(before.books.ledger[|atOpen.books.ledger|..], k)
           + Gap(before.books, k) - Gap(atOpen.books, k)
  {
    var atOpen, before, after := After(factors, ops[..i]), After(factors, ops[..j]), After(factors, ops[..j + 1]);
    var take := before.takes[id];
    var k := Key(take.lines[l].product, ops[i].location);
    AfterStep(factors, ops, j);
    assert ops[..j][..i] == ops[..i] && ops[..j][i] == ops[i];
    OpenedSheet(factors, ops[..j], i, id);
    Reachable(factors, ops[..i]);
    Reachable(factors, ops[..j]);
    PostingStep(before, ops[j], id, after, k);
    assert TakeSafe(before, id);
    AdjustmentAt(take.location, take.lines, k);
    HistoryIsKept(factors, ops[..j], i);
    MovedSince(atOpen.books, before.books, k);
  }

  /** Keys the stock-take did not count are not touched by posting it. */
  lemma UncountedUntouched(factors: Factors, ops: seq<Op>, j: nat, id: nat, k: Key)
    requires FactorsPositive(factors) && j < |ops| && PostsTake(After(factors, ops[..j]), ops[j], id)
    requires var take := After(factors, ops[..j]).takes[id];
      forall l :: 0 <= l < |take.lines| && take.lines[l].counted.Some? ==> k != Key(take.lines[l].product, take.location)
    ensures OnHand(After(factors, ops[..j + 1]).books.balances, k) == OnHand(After(factors, ops[..j]).books.balances, k)
  {
    var before := After(factors, ops[..j]);
    AfterStep(factors, ops, j);
    Reachable(factors, ops[..j]);
    PostingStep(before, ops[j], id, After(factors, ops[..j + 1]), k);
    assert TakeSafe(before, id);
    AdjustmentAt(before.takes[id].location, before.takes[id].lines, k);
  }
}
