/** Counts edited while a stock-take waits for approval (backend/apps/inventory/views.py,
    `StockTakeLinesUpdateView`, which does not look at the status): when the rows posted in the
    end are the ones that were valued when the stock-take was routed. */
module Recounts {
  import opened Prelude
  import opened Ledger
  import opened Accounting
  import opened Deduction
  import opened Model
  import opened Services
  import opened System
  import opened Effects
  import opened Documents
  import opened SalesLifecycle
  import opened Invariant
  import opened Runs
  import opened StockTakes

  /** The count a line stands for: what was counted, or the system quantity while it is not. */
  function Shown(line: CountLine): int {
    if line.counted.Some? then line.counted.value else line.systemQty
  }

  /** The same sheet, possibly counted again. */
  predicate Recounted(lines: seq<CountLine>, lines': seq<CountLine>) {
    && |lines'| == |lines|
    && forall i :: 0 <= i < |lines| ==>
         lines'[i].product == lines[i].product && lines'[i].systemQty == lines[i].systemQty
  }

  predicate SameCounts(lines: seq<CountLine>, lines': seq<CountLine>)
    requires |lines'| == |lines|
  {
    forall i :: 0 <= i < |lines| ==> Shown(lines'[i]) == Shown(lines[i])
  }

  lemma LastVariant(lines: seq<CountLine>)
    requires lines != []
    ensures var last := lines[|lines| - 1];
      Variant(lines) == Variant(lines[..|lines| - 1])
        + if Shown(last) != last.systemQty then [ItemQty(last.product, Shown(last) - last.systemQty)] else []
  {
  }

  /** No variance of the earlier lines is about the last line's product. */
  lemma EarlierProducts(lines: seq<CountLine>, item: ItemQty)
    requires lines != [] && DistinctProducts(lines) && item in Variant(lines[..|lines| - 1])
    ensures item.product != lines[|lines| - 1].product
  {
    var earlier := lines[..|lines| - 1];
    assert forall i :: 0 <= i < |earlier| ==> earlier[i] == lines[i];
    VariantLines(earlier);
    assert IsVariance(earlier, item);
  }

  lemma {:induction false} SameCountsSameVariant(lines: seq<CountLine>, lines': seq<CountLine>)
    requires Recounted(lines, lines') && SameCounts(lines, lines')
    ensures Variant(lines') == Variant(lines)
  {
    if lines != [] {
      var n := |lines| - 1;
      assert forall i :: 0 <= i < n ==> lines[..n][i] == lines[i] && lines'[..n][i] == lines'[i];
      SameCountsSameVariant(lines[..n], lines'[..n]);
      LastVariant(lines);
      LastVariant(lines');
    }
  }

  lemma {:induction false} SameVariantSameCounts(lines: seq<CountLine>, lines': seq<CountLine>)
    requires Recounted(lines, lines') && DistinctProducts(lines) && Variant(lines') == Variant(lines)
    ensures SameCounts(lines, lines')
  {
    if lines != [] {
      var n := |lines| - 1;
      var earlier, earlier' := lines[..n], lines'[..n];
      assert forall i :: 0 <= i < n ==> earlier[i] == lines[i] && earlier'[i] == lines'[i];
      LastVariant(lines);
      LastVariant(lines');
      LastCountsAgree(lines, lines');
      assert Variant(earlier) == Variant(earlier') by {
        assert |Variant(earlier)| == |Variant(earlier')|;
        assert Variant(earlier) == Variant(lines)[..|Variant(earlier)|];
        assert Variant(earlier') == Variant(lines')[..|Variant(earlier)|];
      }
      SameVariantSameCounts(earlier, earlier');
    }
  }

  /** The last line's variance, if any, is the last of all variances. */
  lemma LastCountsAgree(lines: seq<CountLine>, lines': seq<CountLine>)
    requires lines != [] && Recounted(lines, lines') && DistinctProducts(lines) && Variant(lines') == Variant(lines)
    ensures Shown(lines[|lines| - 1]) == Shown(lines'[|lines| - 1])
  {
    var n := |lines| - 1;
    var variant := Variant(lines);
    LastVariant(lines);
    LastVariant(lines');
    var moved, moved' := Shown(lines[n]) != lines[n].systemQty, Shown(lines'[n]) != lines'[n].systemQty;
    if moved && moved' {
      assert variant[|variant| - 1] == ItemQty(lines[n].product, Shown(lines[n]) - lines[n].systemQty);
      assert variant[|variant| - 1] == ItemQty(lines[n].product, Shown(lines'[n]) - lines[n].systemQty);
    } else if moved {
      assert variant[|variant| - 1] in Variant(lines'[..n]);
      EarlierProducts(lines', variant[|variant| - 1]);
      assert false;
    } else if moved' {
      assert variant[|variant| - 1] in Variant(lines[..n]);
      EarlierProducts(lines, variant[|variant| - 1]);
      assert false;
    }
  }

  /** The call that posts a stock-take runs `post_stock_take` on its current counts. */
  lemma {:induction false} PostingCall(s: State, op: Op, id: nat, s': State) returns (before: State, skip: bool)
    requires Inv(s) && PostsTake(s, op, id) && Step(s, op) == Ok(s')
    ensures before.books == s.books && before.takes == s.takes && PostTake(before, id, skip) == Ok(s')
  {
    before, skip := s, false;
    if op.OpPostTake? {
      if op.id != id {
        PostTakeOutcome(s, op.id, false, s');
      }
    } else if op.OpDecide? {
      before, skip := Decided(s, op.approval, op.decision), true;
      DecisionPosts(s, op, id, s');
    } else {
      TakeStatusKept(s, op, id, s');
    }
  }

  lemma {:induction false} DecisionPosts(s: State, op: Op, id: nat, s': State)
    requires op.OpDecide? && Step(s, op) == Ok(s')
    requires id < |s.takes| && !s.takes[id].status.PostedDoc? && id < |s'.takes| && s'.takes[id].status.PostedDoc?
    ensures PostTake(Decided(s, op.approval, op.decision), id, true) == Ok(s')
  {
    var subject, decided := s.approvals[op.approval].subject, Decided(s, op.approval, op.decision);
    OtherDecision(s, op, s');
    if subject.OnTake? && subject.id != id && subject.id < |s.takes| && op.decision.Approved? {
      PostTakeOutcome(decided, subject.id, true, s');
    }
  }

  /** The rows a stock-take would get from its counts as they stand. */
  function TakeRows(id: nat, take: StockTake): seq<Movement> {
    Rows(Posting(TakeDocument(id), TakeLines(take)))
  }

  lemma {:induction false} PostedTakeRows(s: State, id: nat, skip: bool, s': State)
    requires PostTake(s, id, skip) == Ok(s') && !s.takes[id].status.PostedDoc? && s'.takes[id].status.PostedDoc?
    requires !IsPosted(s.books, TakeDocument(id))
    ensures DocRows(s'.books.ledger, TakeDocument(id)) == TakeRows(id, s.takes[id])
  {
    if Variant(s.takes[id].lines) == [] {
      assert TakeLines(s.takes[id]) == [];
    } else {
      PostRows(s.books, Posting(TakeDocument(id), TakeLines(s.takes[id])), true, TakeDocument(id));
    }
  }

  /** A row says which product it adjusts and by how much. */
  lemma RowsTellVariant(id: nat, take: StockTake, take': StockTake)
    requires take'.location == take.location
    ensures TakeRows(id, take') == TakeRows(id, take) <==> Variant(take'.lines) == Variant(take.lines)
  {
    var v, v' := Variant(take.lines), Variant(take'.lines);
    var rows, rows' := TakeRows(id, take), TakeRows(id, take');
    forall i | 0 <= i < |v|
      ensures rows[i] == Movement(Key(v[i].product, take.location), v[i].qty, StocktakeAdj, None, TakeDocument(id))
    {
      assert Round(v[i].qty * FINE) == v[i].qty;
    }
    forall i | 0 <= i < |v'|
      ensures rows'[i] == Movement(Key(v'[i].product, take.location), v'[i].qty, StocktakeAdj, None, TakeDocument(id))
    {
      assert Round(v'[i].qty * FINE) == v'[i].qty;
    }
    if rows' == rows {
      forall i | 0 <= i < |v|
        ensures v'[i] == v[i]
      {
        assert rows'[i] == rows[i];
      }
      assert v' == v;
    }
  }

  lemma RowsAreThoseOf(id: nat, valued: StockTake, posted: StockTake)
    requires posted.location == valued.location && Recounted(valued.lines, posted.lines) && DistinctProducts(valued.lines)
    ensures TakeRows(id, posted) == TakeRows(id, valued) <==> SameCounts(valued.lines, posted.lines)
  {
    RowsTellVariant(id, valued, posted);
    if SameCounts(valued.lines, posted.lines) {
      SameCountsSameVariant(valued.lines, posted.lines);
    } else if Variant(posted.lines) == Variant(valued.lines) {
      SameVariantSameCounts(valued.lines, posted.lines);
    }
  }

  /** A stock-take that stood as it was after call `i`, in particular one valued and routed to the
      Manager then, and is posted by call `j`, directly or by approval, gets exactly the rows it
      stood for iff no line has been given a different count in between (a line left uncounted
      standing for the system quantity). */
  lemma {:induction false} PostedRowsAreThoseValuedIff(factors: Factors, ops: seq<Op>, i: nat, j: nat, id: nat)
    requires FactorsPositive(factors) && i <= j < |ops| && id < |After(factors, ops[..i]).takes|
    requires PostsTake(After(factors, ops[..j]), ops[j], id)
    ensures var valued, posted := After(factors, ops[..i]).takes[id], After(factors, ops[..j]).takes[id];
      && |posted.lines| == |valued.lines|
      && (DocRows(After(factors, ops[..j + 1]).books.ledger, TakeDocument(id)) == TakeRows(id, valued) <==>
            SameCounts(valued.lines, posted.lines))
  {
    var earlier, s, s' := After(factors, ops[..i]), After(factors, ops[..j]), After(factors, ops[..j + 1]);
    AfterStep(factors, ops, j);
    Reachable(factors, ops[..i]);
    Reachable(factors, ops[..j]);
    assert ops[..j][..i] == ops[..i];
    HistoryIsKept(factors, ops[..j], i);
    assert TakeSafe(earlier, id) && TakeSafe(s, id) && SameSheet(earlier.takes[id], s.takes[id]);
    var before, skip := PostingCall(s, ops[j], id, s');
    PostedTakeRows(before, id, skip, s');
    RowsAreThoseOf(id, earlier.takes[id], s.takes[id]);
  }
}
