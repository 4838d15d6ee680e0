/** The loops that build document lines and sums, each proved against its specification
    (backend/apps/inventory/services.py and views.py, backend/apps/procurement/services.py). */
module Builders {
  import opened Prelude
  import opened Ledger
  import opened Model
  import opened Services
  import E = Effects

  /** One out/in pair per document line (issue notes and transfers). */
  method BuildPairs(m: Move, sides: Sides) returns (lines: seq<Line>)
    ensures lines == PairLines(m.source, m.destination, m.lines, sides)
  {
    lines := [];
    for i := 0 to |m.lines|
      invariant lines == PairLines(m.source, m.destination, m.lines[..i], sides)
    {
      var item := m.lines[i];
      assert m.lines[..i + 1][..i] == m.lines[..i];
      lines := lines + [Line(Key(item.product, m.source), -item.qty * FINE, sides.outKind, None)];
      lines := lines + [Line(Key(item.product, m.destination), item.qty * FINE, sides.inKind, None)];
    }
    assert m.lines[..|m.lines|] == m.lines;
  }

  /** The counted lines whose variance is not zero. */
  method BuildVariant(lines: seq<CountLine>) returns (variant: seq<ItemQty>)
    ensures variant == Variant(lines)
  {
    variant := [];
    for i := 0 to |lines|
      invariant variant == Variant(lines[..i])
    {
      assert lines[..i + 1][..i] == lines[..i];
      if lines[i].counted.Some? {
        var variance := lines[i].counted.value - lines[i].systemQty;
        if variance != 0 {
          variant := variant + [ItemQty(lines[i].product, variance)];
        }
      }
    }
    assert lines[..|lines|] == lines;
  }

  method BuildAdjustments(location: Location, variant: seq<ItemQty>) returns (lines: seq<Line>)
    ensures lines == AdjustmentLines(location, variant)
  {
    lines := [];
    for i := 0 to |variant|
      invariant lines == AdjustmentLines(location, variant)[..i]
    {
      lines := lines + [Line(Key(variant[i].product, location), variant[i].qty * FINE, StocktakeAdj, None)];
    }
  }

  /** The count sheet: what is on hand of every active product at the location. */
  method BuildSheet(products: seq<ProductId>, balances: map<Key, int>, location: Location) returns (lines: seq<CountLine>)
    ensures |lines| == |products|
    ensures forall i :: 0 <= i < |lines| ==> lines[i] == CountLine(products[i], OnHand(balances, Key(products[i], location)), None)
  {
    lines := [];
    for i := 0 to |products|
      invariant |lines| == i
      invariant forall j :: 0 <= j < i ==> lines[j] == CountLine(products[j], OnHand(balances, Key(products[j], location)), None)
    {
      lines := lines + [CountLine(products[i], OnHand(balances, Key(products[i], location)), None)];
    }
  }

  /** One submitted count, on the sheet line of its product. */
  method EnterCount(lines: seq<CountLine>, count: ItemQty) returns (lines': seq<CountLine>, found: bool)
    ensures found == OnSheet(lines, count.product) && |lines'| == |lines|
    ensures forall i :: 0 <= i < |lines| ==>
      lines'[i] == if lines[i].product == count.product then lines[i].(counted := Some(count.qty)) else lines[i]
  {
    lines', found := lines, false;
    for i := 0 to |lines|
      invariant |lines'| == |lines| && found == OnSheet(lines[..i], count.product)
      invariant forall j :: 0 <= j < i ==>
        lines'[j] == if lines[j].product == count.product then lines[j].(counted := Some(count.qty)) else lines[j]
      invariant forall j :: i <= j < |lines| ==> lines'[j] == lines[j]
    {
      assert lines[..i + 1] == lines[..i] + [lines[i]];
      if lines[i].product == count.product {
        lines', found := lines'[i := lines[i].(counted := Some(count.qty))], true;
      }
    }
    assert lines[..|lines|] == lines;
  }

  /** All submitted counts, the last one for a product winning; refused when one is off the sheet. */
  method EnterCounts(sheet: seq<CountLine>, counts: seq<ItemQty>) returns (lines: Option<seq<CountLine>>)
    ensures lines.Some? <==> forall n :: 0 <= n < |counts| ==> OnSheet(sheet, counts[n].product)
    ensures lines.Some? ==> |lines.value| == |sheet| && forall i :: 0 <= i < |sheet| ==> lines.value[i] == Recount(sheet[i], counts)
  {
    var entered := sheet;
    for n := 0 to |counts|
      invariant |entered| == |sheet| && forall i :: 0 <= i < |sheet| ==> entered[i] == Recount(sheet[i], counts[..n])
      invariant forall m :: 0 <= m < n ==> OnSheet(sheet, counts[m].product)
    {
      ghost var before := entered;
      var found;
      entered, found := EnterCount(entered, counts[n]);
      forall i | 0 <= i < |sheet|
        ensures before[i].product == sheet[i].product
        ensures entered[i] == Recount(sheet[i], counts[..n + 1])
      {
        assert counts[..n + 1][..n] == counts[..n];
        E.RecountKeepsSheet(sheet[i], counts[..n]);
      }
      SameProductsOnSheet(before, sheet, counts[n].product);
      if !found {
        return None;
      }
    }
    assert counts[..|counts|] == counts;
    return Some(entered);
  }

  lemma SameProductsOnSheet(lines: seq<CountLine>, sheet: seq<CountLine>, p: ProductId)
    requires |lines| == |sheet| && forall i :: 0 <= i < |sheet| ==> lines[i].product == sheet[i].product
    ensures OnSheet(lines, p) == OnSheet(sheet, p)
  {
    if i :| 0 <= i < |lines| && lines[i].product == p {
      assert sheet[i].product == p;
    }
    if i :| 0 <= i < |sheet| && sheet[i].product == p {
      assert lines[i].product == p;
    }
  }

  method BuildReceipts(po: PurchaseOrder, lines: seq<GrnLine>) returns (receipt: seq<Line>)
    requires LinesOfPo(po, lines)
    ensures receipt == ReceiptLines(po, lines)
  {
    receipt := [];
    for i := 0 to |lines|
      invariant receipt == ReceiptLines(po, lines)[..i]
    {
      var poLine := po.lines[lines[i].poLine];
      receipt := receipt + [Line(Key(poLine.product, Stores), lines[i].qty * FINE, GrnReceipt, Some(lines[i].unitCost))];
    }
  }

  method SumPo(lines: seq<PoLine>) returns (value: int)
    ensures value == PoValue(lines)
  {
    value := 0;
    for i := 0 to |lines|
      invariant value == PoValue(lines[..i])
    {
      assert lines[..i + 1][..i] == lines[..i];
      value := value + lines[i].qty * lines[i].unitPrice;
    }
    assert lines[..|lines|] == lines;
  }

  /** The nested sum over the order's GRNs and their lines. */
  method SumGrns(grns: seq<Grn>, po: nat) returns (value: int)
    ensures value == GrnValue(grns, po)
  {
    value := 0;
    for g := 0 to |grns|
      invariant value == GrnValue(grns[..g], po)
    {
      assert grns[..g + 1][..g] == grns[..g];
      if grns[g].po == po {
        var lines := grns[g].lines;
        for i := 0 to |lines|
          invariant value == GrnValue(grns[..g], po) + GrnLinesValue(lines[..i])
        {
          assert lines[..i + 1][..i] == lines[..i];
          value := value + lines[i].qty * lines[i].unitCost;
        }
        assert lines[..|lines|] == lines;
      }
    }
    assert grns[..|grns|] == grns;
  }

  lemma OneMoreFulfilled(lines: seq<PoLine>, received: seq<GrnLine>, n: nat)
    requires n < |received| && received[n].poLine < |lines|
    ensures var i, before := received[n].poLine, Fulfil(lines, received[..n]);
      Fulfil(lines, received[..n + 1]) == before[i := before[i].(fulfilled := before[i].fulfilled + received[n].qty)]
  {
    assert received[..n + 1][..n] == received[..n];
  }
}
