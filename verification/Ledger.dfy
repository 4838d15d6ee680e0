/** The append-only stock ledger, its balance cache and its outbox
    (backend/apps/inventory/services.py, `post_movements`). */
module Ledger {
  import opened Prelude

  type ProductId = nat

  /** `Location.kind` is unique, so there is at most one location of each kind. */
  datatype Location = Stores | Kitchen | Unit

  datatype Key = Key(product: ProductId, location: Location)

  datatype MovementType =
    | SaleDeduction | ExtraUsage | GrnReceipt | IssueOut | IssueIn
    | TransferOut | TransferIn | Wastage | StocktakeAdj | OverrideAdj

  datatype DocKind = GrnDoc | IssueDoc | TransferDoc | TakeDoc | WastageDoc | OrderDoc

  datatype Document = Document(kind: DocKind, id: nat)

  /** A requested entry. `qty` is exact, in units of 10^-12 (a recipe quantity times a
      conversion factor times a sold quantity has twelve decimals). `unitCost` is in cents. */
  datatype Line = Line(key: Key, qty: int, kind: MovementType, unitCost: Option<int>)

  /** A stored ledger row. The column keeps three decimals: `qty` is in thousandths. */
  datatype Movement = Movement(key: Key, qty: int, kind: MovementType, unitCost: Option<int>, document: Document)

  /** An outbox payload: the document and its lines with their exact quantities. */
  datatype Posting = Posting(document: Document, lines: seq<Line>)

  datatype SendStatus = Pending | Sending | Sent | Failed | Abandoned

  datatype LogStatus = LogSuccess | LogFailed

  /** Delivery columns of an outbox record, with its sync-log rows. `applied` is Pastel's own
      side: how many times it has applied this record's payload. */
  datatype Delivery = Delivery(status: SendStatus, attempts: nat, log: seq<LogStatus>, applied: nat)

  datatype OutboxRecord = OutboxRecord(posting: Posting, delivery: Delivery)

  datatype Books = Books(ledger: seq<Movement>, balances: map<Key, int>, outbox: seq<OutboxRecord>)

  const EmptyBooks := Books([], map[], [])

  const NewDelivery := Delivery(Pending, 0, [], 0)

  // ----- storage rounding -----

  /** 10^-12 units in one stored thousandth. */
  const FINE: int := 1_000_000_000

  const HALF: int := 500_000_000

  /** PostgreSQL `numeric(12,3)`: nearest thousandth, ties away from zero. */
  function Round(x: int): (r: int)
    ensures -HALF <= r * FINE - x <= HALF
    ensures x % FINE == 0 ==> r * FINE == x
  {
    if x >= 0 then (x + HALF) / FINE else -((-x + HALF) / FINE)
  }

  predicate OnGrid(x: int) { x % FINE == 0 }

  /** Exactly halfway between two thousandths. */
  predicate Tie(x: int) { x % FINE == HALF }

  // ----- posting -----

  function OnHand(balances: map<Key, int>, k: Key): int {
    if k in balances then balances[k] else 0
  }

  /** On hand before rounding, if `line` were applied. */
  function Exact(balances: map<Key, int>, line: Line): int {
    OnHand(balances, line.key) * FINE + line.qty
  }

  function StoreLine(balances: map<Key, int>, line: Line): map<Key, int> {
    balances[line.key := Round(Exact(balances, line))]
  }

  /** The cache after storing all `lines` in order. */
  function Settle(balances: map<Key, int>, lines: seq<Line>): map<Key, int> {
    if lines == [] then balances
    else StoreLine(Settle(balances, lines[..|lines| - 1]), lines[|lines| - 1])
  }

  /** Why one line is refused: zero quantity, the negative-stock guard, or the check
      constraint on the stored (rounded) quantity. */
  function LineFault(balances: map<Key, int>, line: Line, allowNegative: bool): Option<Error> {
    if line.qty == 0 then Some(ZeroQuantity)
    else if Exact(balances, line) < 0 && !allowNegative then Some(InsufficientStock)
    else if Round(line.qty) == 0 then Some(ConstraintViolation)
    else None
  }

  /** The first line refused when lines are stored one after another. */
  function FirstFault(balances: map<Key, int>, lines: seq<Line>, allowNegative: bool): Option<Error> {
    if lines == [] then None
    else
      var prefix := lines[..|lines| - 1];
      var fault := FirstFault(balances, prefix, allowNegative);
      if fault.Some? then fault
      else LineFault(Settle(balances, prefix), lines[|lines| - 1], allowNegative)
  }

  function Row(document: Document, line: Line): Movement {
    Movement(line.key, Round(line.qty), line.kind, line.unitCost, document)
  }

  function Rows(posting: Posting): (rows: seq<Movement>)
    ensures |rows| == |posting.lines|
  {
    seq(|posting.lines|, i requires 0 <= i < |posting.lines| => Row(posting.document, posting.lines[i]))
  }

  /** The ledger rows of one document, oldest first. */
  function DocRows(ledger: seq<Movement>, document: Document): seq<Movement> {
    if ledger == [] then []
    else
      var last := ledger[|ledger| - 1];
      DocRows(ledger[..|ledger| - 1], document) + if last.document == document then [last] else []
  }

  predicate IsPosted(b: Books, document: Document) {
    DocRows(b.ledger, document) != []
  }

  /** What `post_movements` does to the books. */
  function Post(b: Books, posting: Posting, allowNegative: bool): Result<Books> {
    if posting.lines == [] then Err(EmptyLines)
    else if IsPosted(b, posting.document) then Ok(b)
    else
      var fault := FirstFault(b.balances, posting.lines, allowNegative);
      if fault.Some? then Err(fault.value)
      else Ok(Books(b.ledger + Rows(posting),
                    Settle(b.balances, posting.lines),
                    b.outbox + [OutboxRecord(posting, NewDelivery)]))
  }

  // ----- document rows -----

  lemma {:induction false} DocRowsConcat(a: seq<Movement>, b: seq<Movement>, document: Document)
    ensures DocRows(a + b, document) == DocRows(a, document) + DocRows(b, document)
  {
    if b == [] {
      assert a + b == a;
    } else {
      var n := |b| - 1;
      assert (a + b)[..|a + b| - 1] == a + b[..n];
      DocRowsConcat(a, b[..n], document);
    }
  }

  lemma {:induction false} DocRowsUniform(rows: seq<Movement>, document: Document, owner: Document)
    requires forall i :: 0 <= i < |rows| ==> rows[i].document == owner
    ensures DocRows(rows, document) == if document == owner then rows else []
  {
    if rows != [] {
      var n := |rows| - 1;
      DocRowsUniform(rows[..n], document, owner);
      assert rows[..n] + [rows[n]] == rows;
    }
  }

  /** Posting appends exactly the document's own rows and touches no other document's. */
  lemma PostRows(b: Books, posting: Posting, allowNegative: bool, document: Document)
    requires Post(b, posting, allowNegative).Ok?
    ensures var b' := Post(b, posting, allowNegative).value;
      DocRows(b'.ledger, document) ==
        if document == posting.document && !IsPosted(b, document) then Rows(posting)
        else DocRows(b.ledger, document)
    ensures IsPosted(Post(b, posting, allowNegative).value, posting.document)
  {
    if !IsPosted(b, posting.document) {
      DocRowsConcat(b.ledger, Rows(posting), document);
      DocRowsConcat(b.ledger, Rows(posting), posting.document);
      DocRowsUniform(Rows(posting), document, posting.document);
      DocRowsUniform(Rows(posting), posting.document, posting.document);
    }
  }

  // ----- when a posting succeeds -----

  /** Line `i` is accepted in the cache left by the lines before it. */
  predicate AcceptedAt(balances: map<Key, int>, lines: seq<Line>, allowNegative: bool, i: nat)
    requires i < |lines|
  {
    LineFault(Settle(balances, lines[..i]), lines[i], allowNegative).None?
  }

  lemma {:induction false} FaultFreePrefixes(balances: map<Key, int>, lines: seq<Line>, allowNegative: bool)
    ensures FirstFault(balances, lines, allowNegative).None? <==>
      forall i :: 0 <= i < |lines| ==> AcceptedAt(balances, lines, allowNegative, i)
  {
    if lines != [] {
      var n := |lines| - 1;
      FaultFreePrefixes(balances, lines[..n], allowNegative);
      forall i | 0 <= i < n
        ensures AcceptedAt(balances, lines[..n], allowNegative, i) == AcceptedAt(balances, lines, allowNegative, i)
      {
        assert lines[..n][..i] == lines[..i];
      }
      assert FirstFault(balances, lines, allowNegative).None? <==>
        FirstFault(balances, lines[..n], allowNegative).None? && AcceptedAt(balances, lines, allowNegative, n);
    }
  }

  /** With `allow_negative` off, a fresh non-empty document commits exactly when every prefix
      of it leaves the touched balance at or above zero (and every line stores non-zero). */
  lemma StrictPostSucceedsIff(b: Books, posting: Posting)
    requires posting.lines != [] && !IsPosted(b, posting.document)
    ensures Post(b, posting, false).Ok? <==>
      forall i :: 0 <= i < |posting.lines| ==>
        && 0 <= Exact(Settle(b.balances, posting.lines[..i]), posting.lines[i])
        && Round(posting.lines[i].qty) != 0
  {
    FaultFreePrefixes(b.balances, posting.lines, false);
    forall i | 0 <= i < |posting.lines|
      ensures AcceptedAt(b.balances, posting.lines, false, i) <==>
        0 <= Exact(Settle(b.balances, posting.lines[..i]), posting.lines[i]) && Round(posting.lines[i].qty) != 0
    {
    }
  }

  predicate DistinctKeys(lines: seq<Line>) {
    forall i, j :: 0 <= i < j < |lines| ==> lines[i].key != lines[j].key
  }

  /** Lines that touch each key once settle independently of each other and of their order. */
  lemma {:induction false} SettleDistinct(balances: map<Key, int>, lines: seq<Line>)
    requires DistinctKeys(lines)
    ensures forall i :: 0 <= i < |lines| ==>
      OnHand(Settle(balances, lines), lines[i].key) == Round(Exact(balances, lines[i]))
    ensures forall k :: (forall i :: 0 <= i < |lines| ==> lines[i].key != k) ==>
      OnHand(Settle(balances, lines), k) == OnHand(balances, k)
  {
    if lines != [] {
      var n := |lines| - 1;
      SettleDistinct(balances, lines[..n]);
      assert forall i :: 0 <= i < n ==> lines[..n][i] == lines[i];
    }
  }

  /** With distinct keys the guard only looks at the balances before the document, so the
      outcome does not depend on the order of the lines. */
  lemma DistinctFaultFree(balances: map<Key, int>, lines: seq<Line>, allowNegative: bool)
    requires DistinctKeys(lines)
    ensures FirstFault(balances, lines, allowNegative).None? <==>
      forall i :: 0 <= i < |lines| ==> LineFault(balances, lines[i], allowNegative).None?
  {
    FaultFreePrefixes(balances, lines, allowNegative);
    forall i | 0 <= i < |lines|
      ensures AcceptedAt(balances, lines, allowNegative, i) == LineFault(balances, lines[i], allowNegative).None?
    {
      SettleDistinct(balances, lines[..i]);
    }
  }

  /** A strict posting never leaves a key it touches below zero. */
  lemma {:induction false} StrictNeverNegative(balances: map<Key, int>, lines: seq<Line>, k: Key)
    requires FirstFault(balances, lines, false).None?
    requires exists i :: 0 <= i < |lines| && lines[i].key == k
    ensures OnHand(Settle(balances, lines), k) >= 0
  {
    var n := |lines| - 1;
    if lines[n].key != k {
      assert forall i :: 0 <= i < n ==> lines[..n][i] == lines[i];
      StrictNeverNegative(balances, lines[..n], k);
    }
  }
}
