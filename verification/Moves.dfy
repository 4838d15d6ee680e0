/** When a transfer or issue commits, what it moves, and that it conserves every product. */
module Moves {
  import opened Prelude
  import opened Ledger
  import opened Accounting
  import opened Model
  import opened Services
  import opened Documents

  lemma {:induction false} PairAt(source: Location, destination: Location, items: seq<ItemQty>, sides: Sides)
    ensures var lines := PairLines(source, destination, items, sides);
      && |lines| == 2 * |items|
      && forall i :: 0 <= i < |items| ==>
           && lines[2 * i] == MoveLine(items[i], source, -1, sides.outKind)
           && lines[2 * i + 1] == MoveLine(items[i], destination, 1, sides.inKind)
  {
    if items != [] {
      var n := |items| - 1;
      PairAt(source, destination, items[..n], sides);
      forall i | 0 <= i < n
        ensures items[..n][i] == items[i]
      {
      }
    }
  }

  /** Each (product, location) is touched once: products are distinct and so are the locations. */
  lemma PairKeysDistinct(m: Move, sides: Sides)
    requires ValidMove(m)
    ensures DistinctKeys(PairLines(m.source, m.destination, m.lines, sides))
  {
    var lines := PairLines(m.source, m.destination, m.lines, sides);
    PairAt(m.source, m.destination, m.lines, sides);
    forall a, b | 0 <= a < b < |lines|
      ensures lines[a].key != lines[b].key
    {
      var i, j := a / 2, b / 2;
      assert lines[a] == lines[2 * i] || lines[a] == lines[2 * i + 1];
      assert lines[b] == lines[2 * j] || lines[b] == lines[2 * j + 1];
      if i == j {
        assert a == 2 * i && b == 2 * i + 1;
      }
    }
  }

  /** Source on-hand covers each line, and each destination ends at or above zero. */
  predicate Covered(balances: map<Key, int>, m: Move) {
    forall i :: 0 <= i < |m.lines| ==>
      && m.lines[i].qty <= OnHand(balances, Key(m.lines[i].product, m.source))
      && 0 <= OnHand(balances, Key(m.lines[i].product, m.destination)) + m.lines[i].qty
  }

  /** A transfer or issue is accepted with the guard on exactly when its stock covers it,
      whatever the order of its lines; with the override it is always accepted. */
  lemma PairFaultFreeIff(balances: map<Key, int>, m: Move, sides: Sides, override: bool)
    requires ValidMove(m)
    ensures FirstFault(balances, PairLines(m.source, m.destination, m.lines, sides), override).None? <==>
      override || Covered(balances, m)
  {
    var lines := PairLines(m.source, m.destination, m.lines, sides);
    PairAt(m.source, m.destination, m.lines, sides);
    PairKeysDistinct(m, sides);
    DistinctFaultFree(balances, lines, override);
    forall i | 0 <= i < |m.lines|
      ensures LineFault(balances, lines[2 * i], override).None? <==>
        override || m.lines[i].qty <= OnHand(balances, Key(m.lines[i].product, m.source))
      ensures LineFault(balances, lines[2 * i + 1], override).None? <==>
        override || 0 <= OnHand(balances, Key(m.lines[i].product, m.destination)) + m.lines[i].qty
    {
    }
    if override || Covered(balances, m) {
      forall a | 0 <= a < |lines|
        ensures LineFault(balances, lines[a], override).None?
      {
        var i := a / 2;
        assert lines[a] == lines[2 * i] || lines[a] == lines[2 * i + 1];
      }
    }
  }

  /** The routing check sends the transfer to the Manager. */
  predicate Routed(s: State, id: nat, skip: bool)
    requires id < |s.transfers|
  {
    !skip && RequiresApproval(s.thresholds, TransferScope, TransferValue(s, id))
  }

  /** Posting a transfer succeeds exactly when it is posted already, or it has lines and is
      routed to approval, has its rows, or is covered: source on-hand covers each line and each
      destination ends non-negative. */
  lemma TransferCommitsIff(s: State, id: nat, skip: bool)
    requires TransferInv(s) && id < |s.transfers|
    ensures PostTransfer(s, id, skip).Ok? <==>
      || s.transfers[id].status.PostedDoc?
      || (s.transfers[id].lines != [] &&
            (Routed(s, id, skip) || IsPosted(s.books, TransferDocument(id)) || Covered(s.books.balances, s.transfers[id])))
  {
    var m := s.transfers[id];
    assert TransferSafe(s, id);
    PairFaultFreeIff(s.books.balances, m, Sides(TransferOut, TransferIn), false);
    PairAt(m.source, m.destination, m.lines, Sides(TransferOut, TransferIn));
  }

  /** Posting an issue note succeeds exactly when it is posted already, or it has lines and
      either the override is given or its stock covers it. */
  lemma IssueCommitsIff(s: State, id: nat, override: bool)
    requires IssueInv(s) && id < |s.issues|
    ensures PostIssue(s, id, override).Ok? <==>
      s.issues[id].status.PostedDoc? ||
      (s.issues[id].lines != [] && (override || Covered(s.books.balances, s.issues[id])))
  {
    var m := s.issues[id];
    PairFaultFreeIff(s.books.balances, m, Sides(IssueOut, IssueIn), override);
    PairAt(m.source, m.destination, m.lines, Sides(IssueOut, IssueIn));
  }

  /** Quantity the document takes out of, or brings into, a key. */
  function MovedQty(m: Move, k: Key): int {
    MovedBy(m, m.lines, k)
  }

  function MovedBy(m: Move, items: seq<ItemQty>, k: Key): int {
    if items == [] then 0
    else
      var last := items[|items| - 1];
      MovedBy(m, items[..|items| - 1], k)
      + (if Key(last.product, m.destination) == k then last.qty else 0)
      - (if Key(last.product, m.source) == k then last.qty else 0)
  }

  lemma {:induction false} PairNet(m: Move, items: seq<ItemQty>, sides: Sides, k: Key)
    ensures Net(PairLines(m.source, m.destination, items, sides), k) == MovedBy(m, items, k) * FINE
    ensures forall i :: 0 <= i < |PairLines(m.source, m.destination, items, sides)| ==>
      OnGrid(PairLines(m.source, m.destination, items, sides)[i].qty)
  {
    if items != [] {
      var n := |items| - 1;
      PairNet(m, items[..n], sides, k);
      var outLine, inLine := MoveLine(items[n], m.source, -1, sides.outKind), MoveLine(items[n], m.destination, 1, sides.inKind);
      NetConcat(PairLines(m.source, m.destination, items[..n], sides), [outLine, inLine], k);
      assert [outLine, inLine][..1] == [outLine] && [outLine][..0] == [];
      assert Net([outLine], k) == if outLine.key == k then outLine.qty else 0;
    }
  }

  /** Posting a transfer or issue moves each key by exactly what the document says. */
  lemma PairMoves(balances: map<Key, int>, m: Move, sides: Sides, k: Key)
    ensures OnHand(Settle(balances, PairLines(m.source, m.destination, m.lines, sides)), k) ==
      OnHand(balances, k) + MovedQty(m, k)
  {
    PairNet(m, m.lines, sides, k);
    SettleOnGrid(balances, PairLines(m.source, m.destination, m.lines, sides), k);
  }

  /** On hand of a product summed over the three locations. */
  function TotalOnHand(balances: map<Key, int>, p: ProductId): int {
    OnHand(balances, Key(p, Stores)) + OnHand(balances, Key(p, Kitchen)) + OnHand(balances, Key(p, Unit))
  }

  lemma {:induction false} MovesCancel(m: Move, items: seq<ItemQty>, p: ProductId)
    ensures MovedBy(m, items, Key(p, Stores)) + MovedBy(m, items, Key(p, Kitchen)) + MovedBy(m, items, Key(p, Unit)) == 0
  {
    if items != [] {
      MovesCancel(m, items[..|items| - 1], p);
      assert m.source == Stores || m.source == Kitchen || m.source == Unit;
      assert m.destination == Stores || m.destination == Kitchen || m.destination == Unit;
    }
  }

  /** Whether it posts, is routed, is repeated or comes from an approval, posting a transfer
      never changes any product's total over the locations. */
  lemma {:induction false} TransferConservesProduct(s: State, id: nat, skip: bool, s': State, p: ProductId)
    requires PostTransfer(s, id, skip) == Ok(s')
    ensures TotalOnHand(s'.books.balances, p) == TotalOnHand(s.books.balances, p)
  {
    var m := s.transfers[id];
    if s'.books != s.books {
      PairMoves(s.books.balances, m, Sides(TransferOut, TransferIn), Key(p, Stores));
      PairMoves(s.books.balances, m, Sides(TransferOut, TransferIn), Key(p, Kitchen));
      PairMoves(s.books.balances, m, Sides(TransferOut, TransferIn), Key(p, Unit));
      MovesCancel(m, m.lines, p);
    }
  }
}
