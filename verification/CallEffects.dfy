/** When single calls commit and what they leave behind, told by their effects: on the balances, on the
    ledger rows, on the counts of a sheet, on the recipe a version stands for, on the status after a
    decision. */
module CallEffects {
  import opened Prelude
  import opened Ledger
  import opened Accounting
  import opened Recipes
  import opened Deduction
  import opened Model
  import opened Services
  import opened System
  import opened Effects
  import opened Documents
  import opened WastageLifecycle
  import opened SalesLifecycle
  import opened Purchasing
  import opened Invariant
  import opened Moves
  import opened Runs
  import opened ApprovalQueue

  // ----- moving goods (inventory/services.py) -----

  /** Every quantity has left the source and arrived at the destination, and nothing else moved. */
  ghost predicate GoodsMoved(before: map<Key, int>, source: Location, destination: Location, items: seq<ItemQty>, after: map<Key, int>) {
    && (forall i :: 0 <= i < |items| ==>
          && OnHand(after, Key(items[i].product, source)) == OnHand(before, Key(items[i].product, source)) - items[i].qty
          && OnHand(after, Key(items[i].product, destination)) == OnHand(before, Key(items[i].product, destination)) + items[i].qty)
    && (forall k :: Elsewhere(k, source, destination, items) ==> OnHand(after, k) == OnHand(before, k))
  }

  /** The document is not about this key. */
  predicate Elsewhere(k: Key, source: Location, destination: Location, items: seq<ItemQty>) {
    || (k.location != source && k.location != destination)
    || forall i :: 0 <= i < |items| ==> items[i].product != k.product
  }

  lemma {:induction false} MovedAt(m: Move, items: seq<ItemQty>, k: Key)
    requires m.source != m.destination && ValidItems(items)
    ensures forall i :: 0 <= i < |items| && k == Key(items[i].product, m.source) ==> MovedBy(m, items, k) == -items[i].qty
    ensures forall i :: 0 <= i < |items| && k == Key(items[i].product, m.destination) ==> MovedBy(m, items, k) == items[i].qty
    ensures Elsewhere(k, m.source, m.destination, items) ==> MovedBy(m, items, k) == 0
  {
    if items != [] {
      var n := |items| - 1;
      assert forall i :: 0 <= i < n ==> items[..n][i] == items[i];
      MovedAt(m, items[..n], k);
    }
  }

  lemma {:induction false} PairMovesGoods(balances: map<Key, int>, m: Move, sides: Sides)
    requires ValidMove(m)
    ensures GoodsMoved(balances, m.source, m.destination, m.lines,
                       Settle(balances, PairLines(m.source, m.destination, m.lines, sides)))
  {
    var after := Settle(balances, PairLines(m.source, m.destination, m.lines, sides));
    forall k: Key
      ensures OnHand(after, k) == OnHand(balances, k) + MovedBy(m, m.lines, k)
      ensures Elsewhere(k, m.source, m.destination, m.lines) ==> MovedBy(m, m.lines, k) == 0
    {
      PairMoves(balances, m, sides, k);
      MovedAt(m, m.lines, k);
    }
    forall i | 0 <= i < |m.lines|
      ensures MovedBy(m, m.lines, Key(m.lines[i].product, m.source)) == -m.lines[i].qty
      ensures MovedBy(m, m.lines, Key(m.lines[i].product, m.destination)) == m.lines[i].qty
    {
      MovedAt(m, m.lines, Key(m.lines[i].product, m.source));
      MovedAt(m, m.lines, Key(m.lines[i].product, m.destination));
    }
  }

  /** The goods are at the source, and no destination stays below zero. */
  predicate Available(balances: map<Key, int>, source: Location, destination: Location, items: seq<ItemQty>) {
    forall i :: 0 <= i < |items| ==>
      && items[i].qty <= OnHand(balances, Key(items[i].product, source))
      && 0 <= OnHand(balances, Key(items[i].product, destination)) + items[i].qty
  }

  /** Creating an issue note or a transfer between two places and posting it at once. */
  function IssueAtOnce(s: State, source: Location, destination: Location, items: seq<ItemQty>, override: bool): State {
    Next(Next(s, OpCreateIssue(source, destination, items)), OpPostIssue(|s.issues|, override))
  }

  function TransferAtOnce(s: State, source: Location, destination: Location, items: seq<ItemQty>): State {
    Next(Next(s, OpCreateTransfer(source, destination, items)), OpPostTransfer(|s.transfers|))
  }

  /** In every reachable state an issue note of distinct products in positive quantities, created and
      posted, moves its goods exactly when they are available or the override is given. */
  lemma {:induction false} IssueMovesGoods(factors: Factors, ops: seq<Op>, source: Location, destination: Location,
                                           items: seq<ItemQty>, override: bool)
    requires FactorsPositive(factors) && source != destination && items != [] && ValidItems(items)
    ensures var s := After(factors, ops);
      var s' := IssueAtOnce(s, source, destination, items, override);
      && |s'.issues| == |s.issues| + 1
      && (s'.issues[|s.issues|].status.PostedDoc? <==> override || Available(s.books.balances, source, destination, items))
      && if s'.issues[|s.issues|].status.PostedDoc?
         then GoodsMoved(s.books.balances, source, destination, items, s'.books.balances)
         else s'.books == s.books
  {
    var s := After(factors, ops);
    Reachable(factors, ops);
    NextKeeps(s, OpCreateIssue(source, destination, items));
    FreshNotPosted(s);
    var created := Next(s, OpCreateIssue(source, destination, items));
    NewNoteMoves(created, |s.issues|, Move(source, destination, items, DraftDoc), override);
  }

  lemma {:induction false} NewNoteMoves(s: State, id: nat, m: Move, override: bool)
    requires IssueInv(s) && |s.issues| == id + 1 && s.issues[id] == m
    requires m.status.DraftDoc? && m.lines != [] && ValidMove(m)
    ensures var s' := Next(s, OpPostIssue(id, override));
      && |s'.issues| == id + 1
      && (s'.issues[id].status.PostedDoc? <==> override || Available(s.books.balances, m.source, m.destination, m.lines))
      && if s'.issues[id].status.PostedDoc?
         then GoodsMoved(s.books.balances, m.source, m.destination, m.lines, s'.books.balances)
         else s'.books == s.books
  {
    IssueCommitsIff(s, id, override);
    PairMovesGoods(s.books.balances, m, Sides(IssueOut, IssueIn));
    assert !IsPosted(s.books, IssueDocument(id));
  }

  /** The same for a transfer worth no more than the threshold, without an override. */
  lemma {:induction false} TransferMovesGoods(factors: Factors, ops: seq<Op>, source: Location, destination: Location, items: seq<ItemQty>)
    requires FactorsPositive(factors) && source != destination && items != [] && ValidItems(items)
    requires !RequiresApproval(After(factors, ops).thresholds, TransferScope, LinesValue(After(factors, ops).books.ledger, items))
    ensures var s := After(factors, ops);
      var s' := TransferAtOnce(s, source, destination, items);
      && |s'.transfers| == |s.transfers| + 1
      && (s'.transfers[|s.transfers|].status.PostedDoc? <==> Available(s.books.balances, source, destination, items))
      && if s'.transfers[|s.transfers|].status.PostedDoc?
         then GoodsMoved(s.books.balances, source, destination, items, s'.books.balances)
         else s'.books == s.books
  {
    Reachable(factors, ops);
    NextKeeps(After(factors, ops), OpCreateTransfer(source, destination, items));
    FreshNotPosted(After(factors, ops));
    DraftedTransferMoves(After(factors, ops), source, destination, items);
  }

  lemma {:induction false} DraftedTransferMoves(s: State, source: Location, destination: Location, items: seq<ItemQty>)
    requires source != destination && items != [] && ValidItems(items)
    requires !RequiresApproval(s.thresholds, TransferScope, LinesValue(s.books.ledger, items))
    requires TransferInv(Next(s, OpCreateTransfer(source, destination, items))) && !IsPosted(s.books, TransferDocument(|s.transfers|))
    ensures var s' := TransferAtOnce(s, source, destination, items);
      && |s'.transfers| == |s.transfers| + 1
      && (s'.transfers[|s.transfers|].status.PostedDoc? <==> Available(s.books.balances, source, destination, items))
      && if s'.transfers[|s.transfers|].status.PostedDoc?
         then GoodsMoved(s.books.balances, source, destination, items, s'.books.balances)
         else s'.books == s.books
  {
    NewTransferMoves(Next(s, OpCreateTransfer(source, destination, items)), |s.transfers|, Move(source, destination, items, DraftDoc));
  }

  lemma {:induction false} NewTransferMoves(s: State, id: nat, m: Move)
    requires TransferInv(s) && |s.transfers| == id + 1 && s.transfers[id] == m && !IsPosted(s.books, TransferDocument(id))
    requires m.status.DraftDoc? && m.lines != [] && ValidMove(m) && !Routed(s, id, false)
    ensures var s' := Next(s, OpPostTransfer(id));
      && |s'.transfers| == id + 1
      && (s'.transfers[id].status.PostedDoc? <==> Available(s.books.balances, m.source, m.destination, m.lines))
      && if s'.transfers[id].status.PostedDoc?
         then GoodsMoved(s.books.balances, m.source, m.destination, m.lines, s'.books.balances)
         else s'.books == s.books
  {
    TransferCommitsIff(s, id, false);
    PairMovesGoods(s.books.balances, m, Sides(TransferOut, TransferIn));
  }

  /** A move is only recorded with lines between two different places; when a line breaks a constraint
      the header stays without lines. */
  predicate Recorded(moves: seq<Move>, source: Location, destination: Location, items: seq<ItemQty>, moves': seq<Move>) {
    && |moves'| == |moves| + 1 && moves'[..|moves|] == moves
    && var m := moves'[|moves|];
       && m.source == source && m.destination == destination && m.status.DraftDoc?
       && (m.lines == items || (m.lines == [] && !ValidItems(items)))
       && ValidItems(m.lines)
  }

  lemma {:induction false} MovesAreRecorded(s: State, source: Location, destination: Location, items: seq<ItemQty>)
    ensures CreateIssue(s, source, destination, items).Ok? <==> items != [] && source != destination
    ensures CreateTransfer(s, source, destination, items).Ok? <==> items != [] && source != destination
    ensures items != [] && source != destination ==>
      Recorded(s.issues, source, destination, items, Next(s, OpCreateIssue(source, destination, items)).issues)
    ensures items != [] && source != destination ==>
      Recorded(s.transfers, source, destination, items, Next(s, OpCreateTransfer(source, destination, items)).transfers)
  {
  }

  // ----- receipts in the ledger (procurement/services.py) -----

  /** In every reachable state the rows of a GRN are its lines, in order: each product into Stores, in its
      quantity, at its own unit cost. */
  lemma {:induction false} ReceiptRowsAre(factors: Factors, ops: seq<Op>, g: nat, i: nat)
    requires FactorsPositive(factors) && g < |After(factors, ops).grns| && i < |After(factors, ops).grns[g].lines|
    ensures var s := After(factors, ops);
      var rows, line := DocRows(s.books.ledger, GrnDocument(g)), s.grns[g].lines[i];
      && |rows| == |s.grns[g].lines|
      && s.grns[g].po < |s.orders| && line.poLine < |s.orders[s.grns[g].po].lines|
      && rows[i].key == Key(s.orders[s.grns[g].po].lines[line.poLine].product, Stores)
      && rows[i].qty == line.qty
      && rows[i].unitCost == Some(line.unitCost)
  {
    Reachable(factors, ops);
    GrnRows(After(factors, ops), g, i);
  }

  lemma {:induction false} GrnRows(s: State, g: nat, i: nat)
    requires PurchasingInv(s) && BooksInv(s.books) && BackedInv(s) && g < |s.grns| && i < |s.grns[g].lines|
    ensures var rows, line := DocRows(s.books.ledger, GrnDocument(g)), s.grns[g].lines[i];
      && |rows| == |s.grns[g].lines|
      && s.grns[g].po < |s.orders| && line.poLine < |s.orders[s.grns[g].po].lines|
      && rows[i].key == Key(s.orders[s.grns[g].po].lines[line.poLine].product, Stores)
      && rows[i].qty == line.qty
      && rows[i].unitCost == Some(line.unitCost)
  {
    assert GrnSound(s, g);
    var posting := PayloadOf(s, GrnDocument(g));
    assert posting.lines[i] == ReceiptLine(s.orders[s.grns[g].po], s.grns[g].lines[i]);
    assert Round(s.grns[g].lines[i].qty * FINE) == s.grns[g].lines[i].qty;
  }

  // ----- recipes (menu/services.py) -----

  /** A recipe with lines, each ingredient once and in a positive quantity, becomes the item's next version:
      a draft that stands for exactly those lines, while every other version stays as it was. */
  lemma {:induction false} RecipeIsDrafted(s: State, posCode: string, lines: seq<RecipeLine>)
    ensures CreateRecipe(s, posCode, lines).Ok? <==>
      && posCode in s.menu && lines != []
      && (forall i, j :: 0 <= i < j < |lines| ==> lines[i].product != lines[j].product)
      && (forall i :: 0 <= i < |lines| ==> lines[i].qtyPerServing > 0)
    ensures CreateRecipe(s, posCode, lines).Ok? ==>
      var s', n := CreateRecipe(s, posCode, lines).value, |s.menu[posCode]|;
      && s' == s.(menu := s'.menu) && s'.menu.Keys == s.menu.Keys
      && |s'.menu[posCode]| == n + 1
      && RecipeLines(s'.menu, RecipeRef(posCode, n)) == lines
      && s'.menu[posCode][n].status.Draft? && s'.menu[posCode][n].from.None? && s'.menu[posCode][n].to.None?
      && s'.menu[posCode][..n] == s.menu[posCode]
      && forall other :: other in s.menu && other != posCode ==> s'.menu[other] == s.menu[other]
  {
  }

  /** Submitting moves a draft to review and changes nothing else; publishing gives a version its start
      and closes the version it replaces on that day, and no recipe's lines ever change. */
  lemma {:induction false} RecipeMovesOn(s: State, posCode: string, version: nat, effectiveFrom: Option<Date>)
    requires posCode in s.menu && Chain(s.menu[posCode])
    ensures SubmitRecipe(s, posCode, version).Ok? <==> version < |s.menu[posCode]| && s.menu[posCode][version].status.Draft?
    ensures SubmitRecipe(s, posCode, version).Ok? ==>
      SubmitRecipe(s, posCode, version).value ==
        s.(menu := s.menu[posCode := s.menu[posCode][version := s.menu[posCode][version].(status := Review)]])
    ensures PublishRecipe(s, posCode, version, effectiveFrom).Ok? ==>
      var s' := PublishRecipe(s, posCode, version, effectiveFrom).value;
      && effectiveFrom.Some? && version < |s.menu[posCode]|
      && s' == s.(menu := s.menu[posCode := s'.menu[posCode]])
      && Published(s.menu[posCode], version, effectiveFrom.value, s'.menu[posCode])
  {
    if PublishRecipe(s, posCode, version, effectiveFrom).Ok? {
      PublishOutcome(s.menu[posCode], version, effectiveFrom);
    }
  }

  /** The version is published from the day on; the one published before it ends on that day. */
  predicate Published(vs: History, i: nat, from: Date, vs': History) {
    && i < |vs| == |vs'|
    && vs'[i] == Version(VersionStatus.Published, Some(from), None, vs[i].lines)
    && forall j :: 0 <= j < |vs| && j != i ==>
         vs'[j] == if vs[j].status.Published? then Version(Retired, vs[j].from, Some(from), vs[j].lines) else vs[j]
  }

  lemma {:induction false} PublishOutcome(vs: History, i: nat, effectiveFrom: Option<Date>)
    requires Chain(vs) && Publish(vs, i, effectiveFrom).Ok?
    ensures Published(vs, i, effectiveFrom.value, Publish(vs, i, effectiveFrom).value)
  {
    var current := CurrentPublished(vs, i);
    forall j | 0 <= j < |vs| && j != i && vs[j].status.Published?
      ensures current == Some(j)
    {
      OnePublished(vs, j, current.value);
    }
  }

  // ----- counting (inventory/services.py, inventory/views.py) -----

  /** Opening a stock-take puts every active product on its sheet, with its on-hand there and no count. */
  lemma {:induction false} SheetIsOpened(s: State, location: Location)
    ensures var s' := Next(s, OpOpenTake(location));
      && s' == s.(takes := s'.takes)
      && |s'.takes| == |s.takes| + 1 && s'.takes[..|s.takes|] == s.takes
      && var take := s'.takes[|s.takes|];
         && take.location == location && take.status.DraftDoc?
         && |take.lines| == |s.activeProducts|
         && forall i :: 0 <= i < |take.lines| ==>
              && take.lines[i].product == s.activeProducts[i]
              && take.lines[i].systemQty == OnHand(s.books.balances, Key(take.lines[i].product, location))
              && take.lines[i].counted.None?
  {
  }

  /** Count `c` is the last one submitted for the product. */
  predicate LastCount(counts: seq<ItemQty>, p: ProductId, c: nat) {
    c < |counts| && counts[c].product == p && forall d :: c < d < |counts| ==> counts[d].product != p
  }

  /** The line carries the last count submitted for its product, or what it carried before. */
  ghost predicate CountedLine(line: CountLine, counts: seq<ItemQty>, line': CountLine) {
    && (forall c: nat :: LastCount(counts, line.product, c) ==> line' == line.(counted := Some(counts[c].qty)))
    && ((forall c :: 0 <= c < |counts| ==> counts[c].product != line.product) ==> line' == line)
  }

  ghost predicate Counted(lines: seq<CountLine>, counts: seq<ItemQty>, lines': seq<CountLine>) {
    |lines'| == |lines| && forall i :: 0 <= i < |lines| ==> CountedLine(lines[i], counts, lines'[i])
  }

  lemma {:induction false} RecountIsLast(line: CountLine, counts: seq<ItemQty>, c: nat)
    requires LastCount(counts, line.product, c)
    ensures Recount(line, counts) == line.(counted := Some(counts[c].qty))
  {
    var n := |counts| - 1;
    if c < n {
      assert forall d :: 0 <= d < n ==> counts[..n][d] == counts[d];
      RecountIsLast(line, counts[..n], c);
    }
  }

  lemma {:induction false} UncountedStays(line: CountLine, counts: seq<ItemQty>)
    requires forall c :: 0 <= c < |counts| ==> counts[c].product != line.product
    ensures Recount(line, counts) == line
  {
    if counts != [] {
      var n := |counts| - 1;
      assert forall d :: 0 <= d < n ==> counts[..n][d] == counts[d];
      UncountedStays(line, counts[..n]);
    }
  }

  lemma {:induction false} LineIsCounted(line: CountLine, counts: seq<ItemQty>)
    ensures CountedLine(line, counts, Recount(line, counts))
  {
    forall c: nat | LastCount(counts, line.product, c)
      ensures Recount(line, counts) == line.(counted := Some(counts[c].qty))
    {
      RecountIsLast(line, counts, c);
    }
    if forall c :: 0 <= c < |counts| ==> counts[c].product != line.product {
      UncountedStays(line, counts);
    }
  }

  /** Counts are taken, whatever the status of the stock-take, iff it exists, there are some, none is negative
      and every product is on the sheet; the last count of a product is the one that stays. */
  lemma {:induction false} CountsAreTaken(s: State, id: nat, counts: seq<ItemQty>)
    ensures RecordCounts(s, id, counts).Ok? <==>
      && id < |s.takes| && counts != []
      && forall c :: 0 <= c < |counts| ==> counts[c].qty >= 0 && OnSheet(s.takes[id].lines, counts[c].product)
    ensures RecordCounts(s, id, counts).Ok? ==>
      var s' := RecordCounts(s, id, counts).value;
      && s' == s.(takes := s.takes[id := s'.takes[id]])
      && s'.takes[id] == s.takes[id].(lines := s'.takes[id].lines)
      && Counted(s.takes[id].lines, counts, s'.takes[id].lines)
  {
    if RecordCounts(s, id, counts).Ok? {
      var lines := s.takes[id].lines;
      forall i | 0 <= i < |lines|
        ensures CountedLine(lines[i], counts, Recount(lines[i], counts))
      {
        LineIsCounted(lines[i], counts);
      }
    }
  }

  /** A stock-take without a variance is closed at once: no row, no approval. */
  lemma {:induction false} NothingToAdjust(s: State, id: nat)
    requires id < |s.takes|
    requires forall i :: 0 <= i < |s.takes[id].lines| ==>
      s.takes[id].lines[i].counted.Some? ==> s.takes[id].lines[i].counted.value == s.takes[id].lines[i].systemQty
    ensures Step(s, OpPostTake(id)) == Ok(s.(takes := s.takes[id := s.takes[id].(status := PostedDoc)]))
  {
    NoVariance(s.takes[id].lines);
    if s.takes[id].status.PostedDoc? {
      assert s.takes[id := s.takes[id].(status := PostedDoc)] == s.takes;
    }
  }

  lemma {:induction false} NoVariance(lines: seq<CountLine>)
    requires forall i :: 0 <= i < |lines| && lines[i].counted.Some? ==> lines[i].counted.value == lines[i].systemQty
    ensures Variant(lines) == []
  {
    if lines != [] {
      var n := |lines| - 1;
      assert forall i :: 0 <= i < n ==> lines[..n][i] == lines[i];
      NoVariance(lines[..n]);
    }
  }

  // ----- wastage (wastage/services.py) -----

  /** An entry is about the product at the place named, or at Stores when none is; a call without a
      positive quantity, or without a place while Stores is not configured, changes nothing. */
  lemma {:induction false} WastageIsLogged(s: State, op: Op)
    requires op.OpCreateWastage?
    ensures op.qty <= 0 || (op.where.None? && !s.storesConfigured) ==> Step(s, op).Err?
    ensures Step(s, op).Ok? ==>
      var s', id := Step(s, op).value, |s.wastage|;
      && |s'.wastage| == id + 1 && s'.wastage[..id] == s.wastage
      && s'.wastage[id].entryType == op.entryType
      && s'.wastage[id].qty == op.qty
      && s'.wastage[id].key.product == op.product
      && (op.where.Some? ==> s'.wastage[id].key.location == op.where.value)
      && (op.where.None? ==> s'.wastage[id].key.location == Stores)
  {
    if Step(s, op).Ok? {
      CreateWastageOutcome(s, op, Step(s, op).value);
    }
  }

  // ----- decisions (core/services.py) -----

  /** What a decision makes of a document of the given status; asking to investigate leaves it. */
  function StatusAfter(status: DocStatus, decision: ApprovalStatus): DocStatus {
    match decision
    case Approved => PostedDoc
    case Rejected => RejectedDoc
    case _ => status
  }

  /** The decided document: a transfer or wastage entry is posted or rejected, a stock-take is posted or
      left as it was, a budget follows its approval. */
  predicate DecidedDocument(s: State, subject: Subject, decision: ApprovalStatus, s': State) {
    match subject
    case OnTransfer(id) =>
      id < |s.transfers| == |s'.transfers| && s'.transfers[id].status == StatusAfter(s.transfers[id].status, decision)
    case OnWastage(id) =>
      id < |s.wastage| == |s'.wastage| && s'.wastage[id].status == StatusAfter(s.wastage[id].status, decision)
    case OnTake(id) =>
      && id < |s.takes| == |s'.takes|
      && s'.takes[id].status == if decision.Approved? then PostedDoc else s.takes[id].status
    case OnBudget(id) => id < |s.budgets| == |s'.budgets| && s'.budgets[id].status == BudgetFor(decision)
  }

  /** In every reachable state a committed decision records itself on its approval and nothing on any
      other, and settles its document; only an approval can move stock, so rejecting a transfer whose
      rows a second posting has written leaves them in the ledger. */
  lemma {:induction false} DecisionSettles(factors: Factors, ops: seq<Op>, op: Op, s': State)
    requires FactorsPositive(factors) && op.OpDecide? && Step(After(factors, ops), op) == Ok(s')
    ensures var s := After(factors, ops);
      && op.approval < |s.approvals|
      && s'.approvals == s.approvals[op.approval := s.approvals[op.approval].(status := op.decision)]
      && DecidedDocument(s, s.approvals[op.approval].subject, op.decision, s')
      && (!op.decision.Approved? ==> s'.books == s.books)
  {
    var s := After(factors, ops);
    Reachable(factors, ops);
    assert KnownSubject(s, s.approvals[op.approval].subject);
    BudgetsAreExact(factors, ops);
    DecideApprovals(s, op, s');
    NonApprovalPostsNothing(s, op, s');
    DocumentIsDecided(s, op, s');
  }

  lemma {:induction false} DocumentIsDecided(s: State, op: Op, s': State)
    requires op.OpDecide? && Step(s, op) == Ok(s') && BudgetInv(s) && WastageInv(s)
    requires KnownSubject(s, s.approvals[op.approval].subject)
    ensures DecidedDocument(s, s.approvals[op.approval].subject, op.decision, s')
  {
    var decided := Decided(s, op.approval, op.decision);
    match s.approvals[op.approval].subject
    case OnTransfer(id) => TransferIsDecided(decided, id, op.decision, s');
    case OnWastage(id) => WastageIsDecided(decided, id, op.decision, s');
    case OnTake(id) => TakeIsDecided(decided, id, op.decision, s');
    case OnBudget(id) =>
      assert BudgetExact(s, id) && About(s, OnBudget(id), op.approval);
      DecisionSetsBudget(s, op, id, s');
      DecideKeepsBudgets(s, op, s');
  }

  lemma {:induction false} TransferIsDecided(s: State, id: nat, decision: ApprovalStatus, s': State)
    requires id < |s.transfers| && Callback(s, OnTransfer(id), decision) == Ok(s')
    ensures |s'.transfers| == |s.transfers| && s'.transfers[id].status == StatusAfter(s.transfers[id].status, decision)
  {
  }

  lemma {:induction false} WastageIsDecided(s: State, id: nat, decision: ApprovalStatus, s': State)
    requires id < |s.wastage| && Callback(s, OnWastage(id), decision) == Ok(s')
    ensures |s'.wastage| == |s.wastage| && s'.wastage[id].status == StatusAfter(s.wastage[id].status, decision)
  {
  }

  lemma {:induction false} TakeIsDecided(s: State, id: nat, decision: ApprovalStatus, s': State)
    requires id < |s.takes| && Callback(s, OnTake(id), decision) == Ok(s')
    ensures |s'.takes| == |s.takes|
    ensures s'.takes[id].status == if decision.Approved? then PostedDoc else s.takes[id].status
  {
    if decision.Approved? {
      PostTakeOutcome(s, id, true, s');
    }
  }

  // ----- orders (procurement/services.py) -----

  /** An order is raised iff its budget is approved and covers every product, and its lines, at least one,
      name each product once in a positive quantity at a price that is not negative, with nothing received
      yet; it is stored as asked for. */
  lemma {:induction false} OrdersAreRaised(s: State, budget: nat, supplier: nat, lines: seq<PoLine>)
    ensures CreatePo(s, budget, supplier, lines).Ok? <==>
      && budget < |s.budgets| && s.budgets[budget].status.BudgetApproved? && lines != []
      && (forall i, j :: 0 <= i < j < |lines| ==> lines[i].product != lines[j].product)
      && forall i :: 0 <= i < |lines| ==>
           && lines[i].product in s.budgets[budget].products
           && lines[i].qty > 0 && lines[i].unitPrice >= 0 && lines[i].fulfilled == 0
    ensures CreatePo(s, budget, supplier, lines).Ok? ==>
      CreatePo(s, budget, supplier, lines).value == s.(orders := s.orders + [PurchaseOrder(supplier, lines, Created)])
  {
    var ps := PoProducts(lines);
    assert forall i :: 0 <= i < |lines| ==> ps[i] == lines[i].product;
    assert Distinct(ps) <==> forall i, j :: 0 <= i < j < |lines| ==> lines[i].product != lines[j].product;
  }

  /** Sending marks an order as sent iff its supplier has an address, and for manual contact otherwise. */
  lemma {:induction false} SendingNeedsAddress(s: State, po: nat, hasEmail: bool)
    ensures SendPo(s, po, hasEmail).Ok? <==> po < |s.orders|
    ensures po < |s.orders| ==>
      var order := SendPo(s, po, hasEmail).value.orders[po];
      (order.status.SentToSupplier? <==> hasEmail) && (order.status.ManualContact? <==> !hasEmail)
  {
  }
}
