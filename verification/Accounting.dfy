/** Run-wide accounting facts about the books: the outbox determines the ledger and the
    balance cache, and exactly how far rounding lets those three drift apart. */
module Accounting {
  import opened Prelude
  import opened Ledger

  // ----- what the outbox determines -----

  function Payloads(outbox: seq<OutboxRecord>): (ps: seq<Posting>)
    ensures |ps| == |outbox|
  {
    seq(|outbox|, i requires 0 <= i < |outbox| => outbox[i].posting)
  }

  function AllRows(ps: seq<Posting>): seq<Movement> {
    if ps == [] then [] else AllRows(ps[..|ps| - 1]) + Rows(ps[|ps| - 1])
  }

  /** Every line ever posted, oldest first. */
  function Journal(ps: seq<Posting>): seq<Line> {
    if ps == [] then [] else Journal(ps[..|ps| - 1]) + ps[|ps| - 1].lines
  }

  predicate SoundLines(lines: seq<Line>) {
    lines != [] && forall i :: 0 <= i < |lines| ==> lines[i].qty != 0 && Round(lines[i].qty) != 0
  }

  /** The books are what replaying the outbox payloads from empty stock would give, and each
      document has at most one payload. */
  ghost predicate BooksInv(b: Books) {
    var ps := Payloads(b.outbox);
    && b.ledger == AllRows(ps)
    && b.balances == Settle(map[], Journal(ps))
    && (forall i, j :: 0 <= i < j < |ps| ==> ps[i].document != ps[j].document)
    && (forall i :: 0 <= i < |ps| ==> SoundLines(ps[i].lines))
  }

  lemma {:induction false} SettleConcat(balances: map<Key, int>, first: seq<Line>, second: seq<Line>)
    ensures Settle(balances, first + second) == Settle(Settle(balances, first), second)
  {
    if second == [] {
      assert first + second == first;
    } else {
      var n := |second| - 1;
      assert (first + second)[..|first + second| - 1] == first + second[..n];
      SettleConcat(balances, first, second[..n]);
    }
  }

  lemma {:induction false} FaultFreeIsSound(balances: map<Key, int>, lines: seq<Line>, allowNegative: bool)
    requires lines != [] && FirstFault(balances, lines, allowNegative).None?
    ensures SoundLines(lines)
  {
    FaultFreePrefixes(balances, lines, allowNegative);
    forall i | 0 <= i < |lines|
      ensures lines[i].qty != 0 && Round(lines[i].qty) != 0
    {
      assert AcceptedAt(balances, lines, allowNegative, i);
    }
  }

  /** A document has ledger rows exactly when one of the payloads is its own, and its rows are
      then that payload's lines in order. */
  lemma {:induction false} RowsMirrorPayload(ps: seq<Posting>, document: Document)
    requires forall i, j :: 0 <= i < j < |ps| ==> ps[i].document != ps[j].document
    ensures forall i :: 0 <= i < |ps| && ps[i].document == document ==> DocRows(AllRows(ps), document) == Rows(ps[i])
    ensures (forall i :: 0 <= i < |ps| ==> ps[i].document != document) ==> DocRows(AllRows(ps), document) == []
  {
    if ps != [] {
      var n := |ps| - 1;
      var earlier := ps[..n];
      assert forall i :: 0 <= i < n ==> earlier[i] == ps[i];
      RowsMirrorPayload(earlier, document);
      assert DocRows(AllRows(ps), document) ==
        DocRows(AllRows(earlier), document) + (if ps[n].document == document then Rows(ps[n]) else []) by {
        DocRowsConcat(AllRows(earlier), Rows(ps[n]), document);
        DocRowsUniform(Rows(ps[n]), document, ps[n].document);
      }
      forall i | 0 <= i < |ps| && ps[i].document == document
        ensures DocRows(AllRows(ps), document) == Rows(ps[i])
      {
        if i < n {
          assert earlier[i].document == document;
        } else {
          assert DocRows(AllRows(earlier), document) == [];
        }
      }
    }
  }

  /** A posted document has exactly one outbox record, and the record lists exactly the
      document's ledger rows, in order; an unposted one has none. */
  ghost predicate Mirrored(b: Books, document: Document) {
    && (IsPosted(b, document) <==> exists i :: 0 <= i < |b.outbox| && b.outbox[i].posting.document == document)
    && forall i :: 0 <= i < |b.outbox| && b.outbox[i].posting.document == document ==>
         && DocRows(b.ledger, document) == Rows(b.outbox[i].posting)
         && forall j :: 0 <= j < |b.outbox| && b.outbox[j].posting.document == document ==> j == i
  }

  lemma OutboxMirrorsLedger(b: Books, document: Document)
    requires BooksInv(b)
    ensures Mirrored(b, document)
  {
    var ps := Payloads(b.outbox);
    RowsMirrorPayload(ps, document);
    forall i | 0 <= i < |b.outbox| && b.outbox[i].posting.document == document
      ensures Rows(ps[i]) != []
      ensures forall j :: 0 <= j < |b.outbox| && b.outbox[j].posting.document == document ==> j == i
    {
      assert SoundLines(ps[i].lines);
      forall j | 0 <= j < |b.outbox| && b.outbox[j].posting.document == document
        ensures j == i
      {
        assert ps[j].document == ps[i].document;
      }
    }
  }

  lemma PostKeepsBooks(b: Books, posting: Posting, allowNegative: bool)
    requires BooksInv(b) && Post(b, posting, allowNegative).Ok?
    ensures BooksInv(Post(b, posting, allowNegative).value)
    ensures var b' := Post(b, posting, allowNegative).value;
      Payloads(b'.outbox) ==
        if IsPosted(b, posting.document) then Payloads(b.outbox) else Payloads(b.outbox) + [posting]
  {
    var b' := Post(b, posting, allowNegative).value;
    if !IsPosted(b, posting.document) {
      var ps, ps' := Payloads(b.outbox), Payloads(b'.outbox);
      assert ps' == ps + [posting];
      assert ps'[..|ps' | - 1] == ps;
      SettleConcat(map[], Journal(ps), posting.lines);
      FaultFreeIsSound(b.balances, posting.lines, allowNegative);
      OutboxMirrorsLedger(b, posting.document);
      assert forall i :: 0 <= i < |ps| ==> b.outbox[i].posting == ps[i];
    }
  }

  // ----- sums per key -----

  /** Stored quantity of a key over ledger rows: the ledger's own on-hand figure. */
  function LedgerSum(ledger: seq<Movement>, k: Key): int {
    if ledger == [] then 0
    else
      var last := ledger[|ledger| - 1];
      LedgerSum(ledger[..|ledger| - 1], k) + if last.key == k then last.qty else 0
  }

  /** Exact quantity of a key over lines, in units of 10^-12. */
  function Net(lines: seq<Line>, k: Key): int {
    if lines == [] then 0
    else
      var last := lines[|lines| - 1];
      Net(lines[..|lines| - 1], k) + if last.key == k then last.qty else 0
  }

  /** How many lines touch a key. */
  function Touches(lines: seq<Line>, k: Key): nat {
    if lines == [] then 0
    else Touches(lines[..|lines| - 1], k) + if lines[|lines| - 1].key == k then 1 else 0
  }

  /** How many lines for a key lie exactly halfway between two thousandths. */
  function Ties(lines: seq<Line>, k: Key): nat {
    if lines == [] then 0
    else
      var last := lines[|lines| - 1];
      Ties(lines[..|lines| - 1], k) + if last.key == k && Tie(last.qty) then 1 else 0
  }

  /** What rounding the balance gives beyond rounding the row. A tie rounds away from zero, so
      a deduction that leaves stock rounds the balance up while its row rounds down. */
  function Carry(onHand: int, qty: int): int {
    if Tie(qty) && qty < 0 < onHand * FINE + qty then 1
    else if Tie(qty) && onHand * FINE + qty < 0 < qty then -1
    else 0
  }

  function Carries(balances: map<Key, int>, lines: seq<Line>, k: Key): int {
    if lines == [] then 0
    else
      var prefix, last := lines[..|lines| - 1], lines[|lines| - 1];
      Carries(balances, prefix, k)
      + if last.key == k then Carry(OnHand(Settle(balances, prefix), k), last.qty) else 0
  }

  lemma RoundCarry(onHand: int, qty: int)
    ensures Round(onHand * FINE + qty) == onHand + Round(qty) + Carry(onHand, qty)
  {
    var total := onHand * FINE + qty;
    var r := Round(qty);
    assert -HALF <= (onHand + r) * FINE - total <= HALF;
    assert total % FINE == qty % FINE;
  }

  lemma {:induction false} LedgerSumConcat(a: seq<Movement>, b: seq<Movement>, k: Key)
    ensures LedgerSum(a + b, k) == LedgerSum(a, k) + LedgerSum(b, k)
  {
    if b == [] {
      assert a + b == a;
    } else {
      var n := |b| - 1;
      assert (a + b)[..|a + b| - 1] == a + b[..n];
      LedgerSumConcat(a, b[..n], k);
    }
  }

  lemma {:induction false} NetConcat(a: seq<Line>, b: seq<Line>, k: Key)
    ensures Net(a + b, k) == Net(a, k) + Net(b, k)
  {
    if b == [] {
      assert a + b == a;
    } else {
      var n := |b| - 1;
      assert (a + b)[..|a + b| - 1] == a + b[..n];
      NetConcat(a, b[..n], k);
    }
  }

  /** One document: the cache moves by the document's rows plus its carries. */
  lemma {:induction false} SettleMoves(balances: map<Key, int>, posting: Posting, k: Key)
    ensures OnHand(Settle(balances, posting.lines), k) ==
      OnHand(balances, k) + LedgerSum(Rows(posting), k) + Carries(balances, posting.lines, k)
    decreases |posting.lines|
  {
    var lines := posting.lines;
    if lines != [] {
      var n := |lines| - 1;
      var shorter := posting.(lines := lines[..n]);
      SettleMoves(balances, shorter, k);
      assert Rows(posting)[..n] == Rows(shorter);
      var before := Settle(balances, lines[..n]);
      RoundCarry(OnHand(before, lines[n].key), lines[n].qty);
    }
  }

  lemma {:induction false} CarriesConcat(balances: map<Key, int>, a: seq<Line>, b: seq<Line>, k: Key)
    ensures Carries(balances, a + b, k) == Carries(balances, a, k) + Carries(Settle(balances, a), b, k)
  {
    if b == [] {
      assert a + b == a;
    } else {
      var n := |b| - 1;
      assert (a + b)[..|a + b| - 1] == a + b[..n];
      CarriesConcat(balances, a, b[..n], k);
      SettleConcat(balances, a, b[..n]);
    }
  }

  lemma {:induction false} RowsSettle(ps: seq<Posting>, k: Key)
    ensures OnHand(Settle(map[], Journal(ps)), k) ==
      LedgerSum(AllRows(ps), k) + Carries(map[], Journal(ps), k)
  {
    if ps != [] {
      var n := |ps| - 1;
      RowsSettle(ps[..n], k);
      var before := Settle(map[], Journal(ps[..n]));
      SettleMoves(before, ps[n], k);
      SettleConcat(map[], Journal(ps[..n]), ps[n].lines);
      LedgerSumConcat(AllRows(ps[..n]), Rows(ps[n]), k);
      CarriesConcat(map[], Journal(ps[..n]), ps[n].lines, k);
    }
  }

  /** How far the cached on-hand of a key is from the sum of its ledger rows. */
  ghost function Gap(b: Books, k: Key): int {
    Carries(map[], Journal(Payloads(b.outbox)), k)
  }

  /** The cached on-hand is the ledger sum plus one thousandth for every half-thousandth
      deduction that left stock behind (and minus one for every half-thousandth receipt that
      left stock negative). */
  lemma CacheIsLedgerPlusGap(b: Books, k: Key)
    requires BooksInv(b)
    ensures OnHand(b.balances, k) == LedgerSum(b.ledger, k) + Gap(b, k)
    ensures Abs(Gap(b, k)) <= Ties(Journal(Payloads(b.outbox)), k)
  {
    var ps := Payloads(b.outbox);
    RowsSettle(ps, k);
    CarriesBound(map[], Journal(ps), k);
  }

  lemma {:induction false} CarriesBound(balances: map<Key, int>, lines: seq<Line>, k: Key)
    ensures Abs(Carries(balances, lines, k)) <= Ties(lines, k)
  {
    if lines != [] {
      CarriesBound(balances, lines[..|lines| - 1], k);
    }
  }

  /** Against the exact payloads, the cache is off by at most half a thousandth per line. */
  lemma {:induction false} SettleNearNet(balances: map<Key, int>, lines: seq<Line>, k: Key)
    ensures Abs(OnHand(Settle(balances, lines), k) * FINE - OnHand(balances, k) * FINE - Net(lines, k))
      <= HALF * Touches(lines, k)
  {
    if lines != [] {
      SettleNearNet(balances, lines[..|lines| - 1], k);
    }
  }

  /** What storing one line adds to the exact balance, in units of 10^-12. */
  function LineError(onHand: int, qty: int): int {
    Round(onHand * FINE + qty) * FINE - (onHand * FINE + qty)
  }

  /** What storage rounding has added to a key's balance over the lines. */
  function StorageError(balances: map<Key, int>, lines: seq<Line>, k: Key): int {
    if lines == [] then 0
    else
      var prefix, last := lines[..|lines| - 1], lines[|lines| - 1];
      StorageError(balances, prefix, k)
      + if last.key == k then LineError(OnHand(Settle(balances, prefix), k), last.qty) else 0
  }

  /** The cache is the exact net plus the storage error. */
  lemma {:induction false} SettleIsNetPlusError(balances: map<Key, int>, lines: seq<Line>, k: Key)
    ensures OnHand(Settle(balances, lines), k) * FINE ==
      OnHand(balances, k) * FINE + Net(lines, k) + StorageError(balances, lines, k)
  {
    if lines != [] {
      SettleIsNetPlusError(balances, lines[..|lines| - 1], k);
    }
  }

  /** Lines with three decimals settle without any rounding. */
  lemma {:induction false} SettleOnGrid(balances: map<Key, int>, lines: seq<Line>, k: Key)
    requires forall i :: 0 <= i < |lines| && lines[i].key == k ==> OnGrid(lines[i].qty)
    ensures OnHand(Settle(balances, lines), k) * FINE == OnHand(balances, k) * FINE + Net(lines, k)
  {
    if lines != [] {
      var n := |lines| - 1;
      assert forall i :: 0 <= i < n ==> lines[..n][i] == lines[i];
      SettleOnGrid(balances, lines[..n], k);
    }
  }

  /** Folding every payload from empty stock rebuilds the cache: exactly where all quantities
      have three decimals, and to within half a thousandth per line otherwise. */
  lemma PayloadsRebuildCache(b: Books, k: Key)
    requires BooksInv(b)
    ensures var journal := Journal(Payloads(b.outbox));
      && OnHand(b.balances, k) * FINE == Net(journal, k) + StorageError(map[], journal, k)
      && Abs(StorageError(map[], journal, k)) <= HALF * Touches(journal, k)
      && ((forall i :: 0 <= i < |journal| && journal[i].key == k ==> OnGrid(journal[i].qty)) ==>
            StorageError(map[], journal, k) == 0 && Gap(b, k) == 0)
  {
    var journal := Journal(Payloads(b.outbox));
    SettleIsNetPlusError(map[], journal, k);
    SettleNearNet(map[], journal, k);
    if forall i :: 0 <= i < |journal| && journal[i].key == k ==> OnGrid(journal[i].qty) {
      SettleOnGrid(map[], journal, k);
      OnGridNoTies(journal, k);
      CarriesBound(map[], journal, k);
    }
  }

  lemma {:induction false} OnGridNoTies(lines: seq<Line>, k: Key)
    requires forall i :: 0 <= i < |lines| && lines[i].key == k ==> OnGrid(lines[i].qty)
    ensures Ties(lines, k) == 0
  {
    if lines != [] {
      var n := |lines| - 1;
      assert forall i :: 0 <= i < n ==> lines[..n][i] == lines[i];
      OnGridNoTies(lines[..n], k);
    }
  }

  /** A document of one acceptable line commits. */
  lemma SingleLinePosts(b: Books, document: Document, line: Line, allowNegative: bool)
    requires !IsPosted(b, document) && LineFault(b.balances, line, allowNegative).None?
    ensures var posting := Posting(document, [line]);
      Post(b, posting, allowNegative) ==
        Ok(Books(b.ledger + [Row(document, line)], StoreLine(b.balances, line), b.outbox + [OutboxRecord(posting, NewDelivery)]))
    ensures LedgerSum(b.ledger + [Row(document, line)], line.key) == LedgerSum(b.ledger, line.key) + Round(line.qty)
  {
    var lines := [line];
    assert lines[..0] == [];
    assert FirstFault(b.balances, lines[..0], allowNegative).None? && Settle(b.balances, lines[..0]) == b.balances;
    assert Rows(Posting(document, lines)) == [Row(document, line)];
    assert (b.ledger + [Row(document, line)])[..|b.ledger|] == b.ledger;
  }

  /** Half a thousandth taken from positive stock is not stored in the cache, but is in the ledger. */
  lemma HalfThousandthRounds(onHand: int)
    ensures onHand > 0 ==> Round(onHand * FINE - HALF) == onHand
    ensures Round(-HALF) == -1
  {
  }
}
