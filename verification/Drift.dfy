/** How far a cached balance can drift from the sum of its rows when both columns keep three
    decimals, whatever rounding the database uses (backend/apps/inventory/services.py,
    `post_movements`). */
module Drift {
  import opened Prelude
  import opened Ledger
  import opened Accounting

  /** `stored` is a nearest thousandth of `exact`. */
  predicate NearestTo(stored: int, exact: int) {
    -HALF <= stored * FINE - exact <= HALF
  }

  function Sum(rows: seq<int>): int {
    if rows == [] then 0 else Sum(rows[..|rows| - 1]) + rows[|rows| - 1]
  }

  /** How many quantities are exactly halfway between two thousandths. */
  function TieCount(qs: seq<int>): nat {
    if qs == [] then 0 else TieCount(qs[..|qs| - 1]) + if Tie(qs[|qs| - 1]) then 1 else 0
  }

  /** Each row stores its exact quantity, and each cached value the one before it plus the exact
      quantity, to a nearest thousandth. A tie may go either way, each time anew. */
  predicate StoredNearest(qs: seq<int>, rows: seq<int>, cached: seq<int>) {
    && |rows| == |qs|
    && |cached| == |qs| + 1
    && (forall i :: 0 <= i < |qs| ==> NearestTo(rows[i], qs[i]))
    && (forall i :: 0 <= i < |qs| ==> NearestTo(cached[i + 1], cached[i] * FINE + qs[i]))
  }

  /** One quantity stored twice: off a tie both columns move alike, on a tie they differ by at most one. */
  lemma OneRow(before: int, after: int, row: int, q: int)
    requires NearestTo(row, q) && NearestTo(after, before * FINE + q)
    ensures Abs(after - before - row) <= if Tie(q) then 1 else 0
  {
    var apart := after - before - row;
    assert -2 * HALF <= apart * FINE <= 2 * HALF;
    if apart == 1 {
      assert q == row * FINE + HALF;
    } else if apart == -1 {
      assert q == (row - 1) * FINE + HALF;
    }
  }

  /** Under any round-to-nearest store the cache and the sum of the rows drift apart by at most one
      thousandth for each quantity that is halfway between two thousandths. */
  lemma {:induction false} StoreDrift(qs: seq<int>, rows: seq<int>, cached: seq<int>)
    requires StoredNearest(qs, rows, cached)
    ensures Abs(cached[|qs|] - cached[0] - Sum(rows)) <= TieCount(qs)
  {
    if qs != [] {
      var n := |qs| - 1;
      StoreDrift(qs[..n], rows[..n], cached[..n + 1]);
      OneRow(cached[n], cached[n + 1], rows[n], qs[n]);
    }
  }

  // ----- a store that is a function -----

  ghost predicate Nearest(round: int -> int) {
    forall x :: NearestTo(round(x), x)
  }

  /** The cached value after storing all quantities in order, from zero. */
  function Cached(round: int -> int, qs: seq<int>): int {
    if qs == [] then 0
    else round(Cached(round, qs[..|qs| - 1]) * FINE + qs[|qs| - 1])
  }

  /** The sum of the stored rows. */
  function Recorded(round: int -> int, qs: seq<int>): int {
    if qs == [] then 0 else Recorded(round, qs[..|qs| - 1]) + round(qs[|qs| - 1])
  }

  /** For every rounding function, however it breaks ties: the drift is at most the number of ties,
      so where no quantity is halfway the cache is the sum of the rows. */
  lemma {:induction false} RoundingDrift(round: int -> int, qs: seq<int>)
    requires Nearest(round)
    ensures Abs(Cached(round, qs) - Recorded(round, qs)) <= TieCount(qs)
  {
    if qs != [] {
      var n := |qs| - 1;
      var before := Cached(round, qs[..n]);
      RoundingDrift(round, qs[..n]);
      assert NearestTo(round(qs[n]), qs[n]) && NearestTo(round(before * FINE + qs[n]), before * FINE + qs[n]);
      OneRow(before, round(before * FINE + qs[n]), round(qs[n]), qs[n]);
    }
  }

  lemma OneMoreQuantity(round: int -> int, qs: seq<int>, q: int)
    ensures Cached(round, qs + [q]) == round(Cached(round, qs) * FINE + q)
    ensures Recorded(round, qs + [q]) == Recorded(round, qs) + round(q)
    ensures TieCount(qs + [q]) == TieCount(qs) + if Tie(q) then 1 else 0
  {
    assert (qs + [q])[..|qs|] == qs;
  }

  // ----- the ledger's own quantities -----

  /** The exact quantities posted for a key, oldest first. */
  function Quantities(lines: seq<Line>, k: Key): seq<int> {
    if lines == [] then []
    else
      var last := lines[|lines| - 1];
      Quantities(lines[..|lines| - 1], k) + if last.key == k then [last.qty] else []
  }

  lemma {:induction false} QuantitiesConcat(a: seq<Line>, b: seq<Line>, k: Key)
    ensures Quantities(a + b, k) == Quantities(a, k) + Quantities(b, k)
  {
    if b == [] {
      assert a + b == a;
    } else {
      var n := |b| - 1;
      assert (a + b)[..|a + b| - 1] == a + b[..n];
      QuantitiesConcat(a, b[..n], k);
    }
  }

  lemma {:induction false} RecordedConcat(round: int -> int, a: seq<int>, b: seq<int>)
    ensures Recorded(round, a + b) == Recorded(round, a) + Recorded(round, b)
  {
    if b == [] {
      assert a + b == a;
    } else {
      var n := |b| - 1;
      assert (a + b)[..|a + b| - 1] == a + b[..n];
      RecordedConcat(round, a, b[..n]);
    }
  }

  /** The cache folds the key's quantities through the store. */
  lemma {:induction false} CacheFolds(lines: seq<Line>, k: Key)
    ensures OnHand(Settle(map[], lines), k) == Cached(Round, Quantities(lines, k))
    ensures TieCount(Quantities(lines, k)) == Ties(lines, k)
  {
    if lines != [] {
      var n := |lines| - 1;
      CacheFolds(lines[..n], k);
      if lines[n].key == k {
        OneMoreQuantity(Round, Quantities(lines[..n], k), lines[n].qty);
      } else {
        assert Quantities(lines, k) == Quantities(lines[..n], k);
      }
    }
  }

  /** The rows of one document record the key's quantities. */
  lemma {:induction false} RowsRecord(posting: Posting, k: Key)
    ensures LedgerSum(Rows(posting), k) == Recorded(Round, Quantities(posting.lines, k))
    decreases |posting.lines|
  {
    var lines := posting.lines;
    if lines != [] {
      var n := |lines| - 1;
      var shorter := posting.(lines := lines[..n]);
      RowsRecord(shorter, k);
      assert Rows(posting)[..n] == Rows(shorter);
      assert Rows(posting)[n] == Row(posting.document, lines[n]);
      if lines[n].key == k {
        OneMoreQuantity(Round, Quantities(lines[..n], k), lines[n].qty);
      } else {
        assert Quantities(lines, k) == Quantities(lines[..n], k);
      }
    }
  }

  /** The ledger records the quantities of all payloads. */
  lemma {:induction false} LedgerRecords(ps: seq<Posting>, k: Key)
    ensures LedgerSum(AllRows(ps), k) == Recorded(Round, Quantities(Journal(ps), k))
  {
    if ps != [] {
      var n := |ps| - 1;
      LedgerRecords(ps[..n], k);
      RowsRecord(ps[n], k);
      LedgerSumConcat(AllRows(ps[..n]), Rows(ps[n]), k);
      QuantitiesConcat(Journal(ps[..n]), ps[n].lines, k);
      RecordedConcat(Round, Quantities(Journal(ps[..n]), k), Quantities(ps[n].lines, k));
    }
  }
}
