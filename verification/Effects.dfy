/** What a step can do to the tables: rows are only appended, a document's content is final,
    and the ledger is written only for the step's own document. */
module Effects {
  import opened Prelude
  import opened Ledger
  import opened Accounting
  import opened Recipes
  import opened Deduction
  import opened Model
  import opened Services
  import opened System

  // ----- what a step may do to the ledger -----

  /** The only document a step can write ledger rows for. */
  function Writes(s: State, op: Op): Option<Document> {
    match op
    case OpPostIssue(id, _) => Some(IssueDocument(id))
    case OpPostTransfer(id) => Some(TransferDocument(id))
    case OpPostTake(id) => Some(TakeDocument(id))
    case OpCreateWastage(_, _, _, _) => Some(WastageDocument(|s.wastage|))
    case OpDecide(a, _, _) =>
      if a >= |s.approvals| then None
      else (match s.approvals[a].subject
            case OnTransfer(id) => Some(TransferDocument(id))
            case OnTake(id) => Some(TakeDocument(id))
            case OnWastage(id) => Some(WastageDocument(id))
            case OnBudget(_) => None)
    case OpIngest(_, _, _) => Some(OrderDocument(|s.sales|))
    case OpReplay(id) => Some(OrderDocument(id))
    case OpPostGrn(_, _) => Some(GrnDocument(|s.grns|))
    case _ => None
  }

  predicate FlagsShortage(s: State, r: Result<State>) {
    r.Ok? && |r.value.sales| > |s.sales| && r.value.sales[|s.sales|].insufficient
  }

  /** Whether a step may post with `allow_negative`. Ingestion uses it only after the strict
      posting has failed, and then flags the order. */
  predicate MayOverride(s: State, op: Op) {
    match op
    case OpPostIssue(_, override) => override
    case OpPostTake(_) => true
    case OpCreateWastage(_, _, _, _) => true
    case OpDecide(a, _, _) => a < |s.approvals| && !s.approvals[a].subject.OnTransfer?
    case OpIngest(saleId, soldOn, raw) => FlagsShortage(s, Ingest(s, saleId, soldOn, raw))
    case OpReplay(_) => true
    case _ => false
  }

  // ----- documents behind ledger rows -----

  predicate ValidRef(menu: Menu, ref: RecipeRef) {
    ref.posCode in menu && ref.version < |menu[ref.posCode]|
  }

  predicate ValidRefs(menu: Menu, items: seq<OrderItem>) {
    forall i :: 0 <= i < |items| && items[i].recipe.Some? ==> ValidRef(menu, items[i].recipe.value)
  }

  predicate Adjustments(location: Location, lines: seq<Line>) {
    forall i :: 0 <= i < |lines| ==>
      lines[i].key.location == location && lines[i].kind.StocktakeAdj? && OnGrid(lines[i].qty) && lines[i].unitCost.None?
  }

  /** The posting is what its document asks for. Counts may be edited after a stock-take has
      posted, so of a stock-take only the shape of its adjustments is fixed. */
  predicate Backed(s: State, posting: Posting) {
    var id := posting.document.id;
    match posting.document.kind
    case IssueDoc => id < |s.issues| && posting.lines == IssueLines(s.issues[id])
    case TransferDoc => id < |s.transfers| && posting.lines == TransferLines(s.transfers[id])
    case TakeDoc => id < |s.takes| && Adjustments(s.takes[id].location, posting.lines)
    case WastageDoc => id < |s.wastage| && posting.lines == WastageLines(s.wastage[id])
    case OrderDoc =>
      && id < |s.sales|
      && Resolved(s.sales[id].items)
      && ValidRefs(s.menu, s.sales[id].items)
      && posting == OrderPosting(s, id, s.sales[id].items)
    case GrnDoc =>
      && id < |s.grns|
      && s.grns[id].po < |s.orders|
      && LinesOfPo(s.orders[s.grns[id].po], s.grns[id].lines)
      && posting.lines == ReceiptLines(s.orders[s.grns[id].po], s.grns[id].lines)
  }

  predicate SameMove(m: Move, m': Move) {
    m'.source == m.source && m'.destination == m.destination && m'.lines == m.lines
  }

  predicate SameEntry(w: WastageEntry, w': WastageEntry) { w' == w.(status := w'.status) }

  predicate SameSheet(t: StockTake, t': StockTake) {
    && t'.location == t.location
    && |t'.lines| == |t.lines|
    && forall i :: 0 <= i < |t.lines| ==>
         t'.lines[i].product == t.lines[i].product && t'.lines[i].systemQty == t.lines[i].systemQty
  }

  /** A snapshot, once taken, is never changed. */
  predicate SameSnapshots(sale: Sale, sale': Sale) {
    && sale'.saleId == sale.saleId
    && sale'.soldOn == sale.soldOn
    && |sale'.items| == |sale.items|
    && forall i :: 0 <= i < |sale.items| ==>
         && sale'.items[i] == sale.items[i].(recipe := sale'.items[i].recipe)
         && (sale.items[i].recipe.Some? ==> sale'.items[i].recipe == sale.items[i].recipe)
  }

  predicate SamePo(po: PurchaseOrder, po': PurchaseOrder) {
    && po'.supplier == po.supplier
    && |po'.lines| == |po.lines|
    && forall i :: 0 <= i < |po.lines| ==>
         po'.lines[i] == po.lines[i].(fulfilled := po'.lines[i].fulfilled) && po.lines[i].fulfilled <= po'.lines[i].fulfilled
  }

  predicate MenuGrows(menu: Menu, menu': Menu) {
    forall posCode :: posCode in menu ==> posCode in menu' && Extends(menu[posCode], menu'[posCode])
  }

  predicate MovesGrow(ms: seq<Move>, ms': seq<Move>) {
    |ms| <= |ms'| && forall i :: 0 <= i < |ms| ==> SameMove(ms[i], ms'[i])
  }

  predicate TakesGrow(ts: seq<StockTake>, ts': seq<StockTake>) {
    |ts| <= |ts'| && forall i :: 0 <= i < |ts| ==> SameSheet(ts[i], ts'[i])
  }

  predicate WastageGrows(ws: seq<WastageEntry>, ws': seq<WastageEntry>) {
    |ws| <= |ws'| && forall i :: 0 <= i < |ws| ==> SameEntry(ws[i], ws'[i])
  }

  predicate SalesGrow(sales: seq<Sale>, sales': seq<Sale>) {
    |sales| <= |sales'| && forall i :: 0 <= i < |sales| ==> SameSnapshots(sales[i], sales'[i])
  }

  predicate OrdersGrow(orders: seq<PurchaseOrder>, orders': seq<PurchaseOrder>) {
    |orders| <= |orders'| && forall i :: 0 <= i < |orders| ==> SamePo(orders[i], orders'[i])
  }

  /** What no step ever takes back: rows are appended, and what a document says is final. */
  predicate Grows(s: State, s': State) {
    && s'.factors == s.factors
    && MovesGrow(s.issues, s'.issues)
    && MovesGrow(s.transfers, s'.transfers)
    && TakesGrow(s.takes, s'.takes)
    && WastageGrows(s.wastage, s'.wastage)
    && SalesGrow(s.sales, s'.sales)
    && OrdersGrow(s.orders, s'.orders)
    && s.grns <= s'.grns
    && MenuGrows(s.menu, s'.menu)
  }

  predicate PostedAs(s: State, s': State, posting: Posting, override: bool) {
    Post(s.books, posting, override) == Ok(s'.books) && Backed(s', posting)
  }

  /** The step posts nothing, or one posting of `document` through `post_movements`. */
  ghost predicate PostsOnly(s: State, s': State, document: Document, override: bool) {
    s'.books == s.books || exists lines :: PostedAs(s, s', Posting(document, lines), override)
  }

  /** The step touches at most delivery columns and sync logs. */
  predicate SameLedger(s: State, s': State) {
    && s'.books.ledger == s.books.ledger
    && s'.books.balances == s.books.balances
    && Payloads(s'.books.outbox) == Payloads(s.books.outbox)
  }

  /** The effect of a step, as far as the ledger and the documents behind it are concerned. */
  ghost predicate Effect(s: State, op: Op, s': State) {
    && Grows(s, s')
    && if Writes(s, op).Some? then PostsOnly(s, s', Writes(s, op).value, MayOverride(s, op)) else SameLedger(s, s')
  }

  lemma BackedGrows(s: State, s': State, posting: Posting)
    requires Grows(s, s') && Backed(s, posting)
    ensures Backed(s', posting)
  {
    var id := posting.document.id;
    match posting.document.kind
    case OrderDoc =>
      var items, items' := s.sales[id].items, s'.sales[id].items;
      assert SameSnapshots(s.sales[id], s'.sales[id]);
      assert items' == items;
      forall i | 0 <= i < |items|
        ensures ValidRef(s'.menu, items[i].recipe.value)
        ensures RecipeLines(s'.menu, items[i].recipe.value) == RecipeLines(s.menu, items[i].recipe.value)
      {
        assert ValidRef(s.menu, items[i].recipe.value);
      }
      RequirementsFrame(s.menu, s'.menu, s.factors, items);
    case GrnDoc =>
      var po := s.grns[id].po;
      assert s'.grns[id] == s.grns[id] && SamePo(s.orders[po], s'.orders[po]);
      var lines := s.grns[id].lines;
      forall i | 0 <= i < |lines|
        ensures lines[i].poLine < |s'.orders[po].lines|
        ensures ReceiptLine(s'.orders[po], lines[i]) == ReceiptLine(s.orders[po], lines[i])
      {
      }
      assert ReceiptLines(s'.orders[po], lines) == ReceiptLines(s.orders[po], lines);
    case IssueDoc => assert SameMove(s.issues[id], s'.issues[id]);
    case TransferDoc => assert SameMove(s.transfers[id], s'.transfers[id]);
    case TakeDoc => assert SameSheet(s.takes[id], s'.takes[id]);
    case WastageDoc => assert SameEntry(s.wastage[id], s'.wastage[id]);
  }

  // ----- each step grows the tables and posts at most its own document -----

  lemma GrowsReflexive(s: State)
    ensures Grows(s, s)
  {
  }

  // Which tables a step writes.

  predicate OnlyTransfers(s: State, s': State) {
    && s' == s.(books := s'.books, approvals := s'.approvals, transfers := s'.transfers)
    && MovesGrow(s.transfers, s'.transfers)
  }

  predicate OnlyIssues(s: State, s': State) {
    && s' == s.(books := s'.books, issues := s'.issues)
    && MovesGrow(s.issues, s'.issues)
  }

  predicate OnlyTakes(s: State, s': State) {
    && s' == s.(books := s'.books, approvals := s'.approvals, takes := s'.takes)
    && TakesGrow(s.takes, s'.takes)
  }

  predicate OnlyWastage(s: State, s': State) {
    && s' == s.(books := s'.books, approvals := s'.approvals, wastage := s'.wastage)
    && WastageGrows(s.wastage, s'.wastage)
  }

  predicate OnlySales(s: State, s': State) {
    && s' == s.(books := s'.books, sales := s'.sales)
    && SalesGrow(s.sales, s'.sales)
  }

  predicate OnlyMenu(s: State, s': State) {
    && s' == s.(menu := s'.menu)
    && MenuGrows(s.menu, s'.menu)
  }

  predicate OnlyPurchasing(s: State, s': State) {
    && s' == s.(books := s'.books, approvals := s'.approvals, budgets := s'.budgets, orders := s'.orders,
                grns := s'.grns, invoices := s'.invoices)
    && OrdersGrow(s.orders, s'.orders)
    && s.grns <= s'.grns
  }

  predicate OnlyConfiguration(s: State, s': State) {
    s' == s.(thresholds := s'.thresholds, storesConfigured := s'.storesConfigured, activeProducts := s'.activeProducts)
  }

  predicate OnlyBooks(s: State, s': State) {
    s' == s.(books := s'.books)
  }

  lemma GrowTransfers(s: State, s': State)
    requires OnlyTransfers(s, s')
    ensures Grows(s, s')
  {
    GrowsReflexive(s);
  }

  lemma GrowIssues(s: State, s': State)
    requires OnlyIssues(s, s')
    ensures Grows(s, s')
  {
    GrowsReflexive(s);
  }

  lemma GrowTakes(s: State, s': State)
    requires OnlyTakes(s, s')
    ensures Grows(s, s')
  {
    GrowsReflexive(s);
  }

  lemma GrowWastage(s: State, s': State)
    requires OnlyWastage(s, s')
    ensures Grows(s, s')
  {
    GrowsReflexive(s);
  }

  lemma GrowSales(s: State, s': State)
    requires OnlySales(s, s')
    ensures Grows(s, s')
  {
    GrowsReflexive(s);
  }

  lemma GrowMenu(s: State, s': State)
    requires OnlyMenu(s, s')
    ensures Grows(s, s')
  {
    GrowsReflexive(s);
  }

  lemma GrowPurchasing(s: State, s': State)
    requires OnlyPurchasing(s, s')
    ensures Grows(s, s')
  {
    GrowsReflexive(s);
  }

  lemma GrowConfiguration(s: State, s': State)
    requires OnlyConfiguration(s, s')
    ensures Grows(s, s')
  {
    GrowsReflexive(s);
  }

  lemma GrowBooks(s: State, s': State)
    requires OnlyBooks(s, s')
    ensures Grows(s, s')
  {
    GrowsReflexive(s);
  }

  lemma PostEffect(s: State, s1: State, s': State, posting: Posting, override: bool)
    requires PostTo(s, posting, override) == Ok(s1) && s'.books == s1.books && Backed(s', posting)
    ensures PostsOnly(s, s', posting.document, override)
  {
    assert PostedAs(s, s', Posting(posting.document, posting.lines), override);
  }

  lemma TransferTables(s: State, id: nat, skip: bool)
    requires PostTransfer(s, id, skip).Ok?
    ensures OnlyTransfers(s, PostTransfer(s, id, skip).value)
  {
  }

  lemma TransferEffect(s: State, id: nat, skip: bool)
    requires PostTransfer(s, id, skip).Ok?
    ensures PostsOnly(s, PostTransfer(s, id, skip).value, TransferDocument(id), false)
  {
    var s' := PostTransfer(s, id, skip).value;
    if s'.books != s.books {
      var posting := Posting(TransferDocument(id), TransferLines(s.transfers[id]));
      PostEffect(s, PostTo(s, posting, false).value, s', posting, false);
    }
  }

  lemma IssueTables(s: State, id: nat, override: bool)
    requires PostIssue(s, id, override).Ok?
    ensures OnlyIssues(s, PostIssue(s, id, override).value)
  {
  }

  lemma IssueEffect(s: State, id: nat, override: bool)
    requires PostIssue(s, id, override).Ok?
    ensures PostsOnly(s, PostIssue(s, id, override).value, IssueDocument(id), override)
  {
    var s' := PostIssue(s, id, override).value;
    if s'.books != s.books {
      var posting := Posting(IssueDocument(id), IssueLines(s.issues[id]));
      PostEffect(s, PostTo(s, posting, override).value, s', posting, override);
    }
  }

  lemma TakeTables(s: State, id: nat, skip: bool)
    requires PostTake(s, id, skip).Ok?
    ensures OnlyTakes(s, PostTake(s, id, skip).value)
  {
  }

  lemma TakeLinesAdjust(take: StockTake)
    ensures Adjustments(take.location, TakeLines(take))
  {
  }

  lemma {:induction false} TakeEffect(s: State, id: nat, skip: bool)
    requires PostTake(s, id, skip).Ok?
    ensures PostsOnly(s, PostTake(s, id, skip).value, TakeDocument(id), true)
  {
    var s' := PostTake(s, id, skip).value;
    if s'.books != s.books {
      var posting := Posting(TakeDocument(id), TakeLines(s.takes[id]));
      TakeLinesAdjust(s.takes[id]);
      PostEffect(s, PostTo(s, posting, true).value, s', posting, true);
    }
  }

  lemma WastageTables(s: State, id: nat)
    requires id < |s.wastage| && PostWastageEntry(s, id).Ok?
    ensures OnlyWastage(s, PostWastageEntry(s, id).value)
  {
  }

  lemma WastageEffect(s: State, id: nat)
    requires id < |s.wastage| && PostWastageEntry(s, id).Ok?
    ensures PostsOnly(s, PostWastageEntry(s, id).value, WastageDocument(id), true)
  {
    var s' := PostWastageEntry(s, id).value;
    if s'.books != s.books {
      var posting := Posting(WastageDocument(id), WastageLines(s.wastage[id]));
      PostEffect(s, PostTo(s, posting, true).value, s', posting, true);
    }
  }

  /** Writing other tables before the posting does not change what is posted. */
  lemma Transport(s: State, s1: State, s': State, document: Document, override: bool)
    requires s1.books == s.books && PostsOnly(s1, s', document, override)
    ensures PostsOnly(s, s', document, override)
  {
    if s'.books != s.books {
      var lines :| PostedAs(s1, s', Posting(document, lines), override);
      assert PostedAs(s, s', Posting(document, lines), override);
    }
  }

  /** The entry as logged, before it is routed. */
  function LoggedEntry(s: State, op: Op): State
    requires op.OpCreateWastage?
  {
    var where := if op.where.Some? then op.where.value else Stores;
    s.(wastage := s.wastage + [WastageEntry(op.entryType, Key(op.product, where), op.qty,
                                            LatestUnitCost(s.books.ledger, op.product) * op.qty, DraftDoc)])
  }

  lemma CreateWastageEffect(s: State, op: Op, s': State)
    requires op.OpCreateWastage? && Step(s, op) == Ok(s')
    ensures PostsOnly(s, s', WastageDocument(|s.wastage|), true)
  {
    var logged, id := LoggedEntry(s, op), |s.wastage|;
    if s'.books != s.books {
      WastageEffect(logged, id);
      Transport(s, logged, s', WastageDocument(id), true);
    }
  }

  lemma CreateWastageTables(s: State, op: Op, s': State)
    requires op.OpCreateWastage? && Step(s, op) == Ok(s')
    ensures OnlyWastage(s, s')
  {
  }

  /** The approval as decided, before the subject's callback. */
  function Decided(s: State, a: nat, decision: ApprovalStatus): State
    requires a < |s.approvals|
  {
    s.(approvals := s.approvals[a := s.approvals[a].(status := decision)])
  }

  lemma {:induction false} CallbackTables(s: State, subject: Subject, decision: ApprovalStatus)
    requires Callback(s, subject, decision).Ok?
    ensures var s' := Callback(s, subject, decision).value;
      match subject
      case OnTransfer(_) => OnlyTransfers(s, s')
      case OnTake(_) => OnlyTakes(s, s')
      case OnWastage(_) => OnlyWastage(s, s')
      case OnBudget(_) => OnlyPurchasing(s, s') && s'.books == s.books
  {
    match subject
    case OnTransfer(id) =>
      if id < |s.transfers| && decision.Approved? {
        TransferTables(s, id, true);
      }
    case OnTake(id) =>
      if id < |s.takes| && decision.Approved? {
        TakeTables(s, id, true);
      }
    case OnWastage(id) =>
      if id < |s.wastage| && decision.Approved? {
        WastageTables(s, id);
      }
    case OnBudget(id) =>
  }

  lemma {:induction false} CallbackGrows(s: State, subject: Subject, decision: ApprovalStatus)
    requires Callback(s, subject, decision).Ok?
    ensures Grows(s, Callback(s, subject, decision).value)
  {
    var s' := Callback(s, subject, decision).value;
    CallbackTables(s, subject, decision);
    match subject
    case OnTransfer(_) => GrowTransfers(s, s');
    case OnTake(_) => GrowTakes(s, s');
    case OnWastage(_) => GrowWastage(s, s');
    case OnBudget(_) => GrowPurchasing(s, s');
  }

  lemma {:induction false} CallbackEffect(s: State, subject: Subject, decision: ApprovalStatus)
    requires Callback(s, subject, decision).Ok?
    ensures var s' := Callback(s, subject, decision).value;
      match subject
      case OnTransfer(id) => PostsOnly(s, s', TransferDocument(id), false)
      case OnTake(id) => PostsOnly(s, s', TakeDocument(id), true)
      case OnWastage(id) => PostsOnly(s, s', WastageDocument(id), true)
      case OnBudget(_) => s'.books == s.books
  {
    match subject
    case OnTransfer(id) =>
      if id < |s.transfers| && decision.Approved? {
        TransferEffect(s, id, true);
      }
    case OnTake(id) =>
      if id < |s.takes| && decision.Approved? {
        TakeEffect(s, id, true);
      }
    case OnWastage(id) =>
      if id < |s.wastage| && decision.Approved? {
        WastageEffect(s, id);
      }
    case OnBudget(id) =>
  }

  lemma {:induction false} DecideEffect(s: State, op: Op, s': State)
    requires op.OpDecide? && Step(s, op) == Ok(s')
    ensures Effect(s, op, s')
  {
    var subject := s.approvals[op.approval].subject;
    var decided := Decided(s, op.approval, op.decision);
    CallbackEffect(decided, subject, op.decision);
    CallbackGrows(decided, subject, op.decision);
    assert Grows(s, s');
    if Writes(s, op).Some? {
      Transport(s, decided, s', Writes(s, op).value, MayOverride(s, op));
    }
  }

  lemma ResolveValid(menu: Menu, posCode: string, soldOn: Date)
    ensures var ref := Resolve(menu, posCode, soldOn);
      ref.Some? ==> ValidRef(menu, ref.value) && ref.value.posCode == posCode && Covers(menu[posCode][ref.value.version], soldOn)
  {
    if posCode in menu {
      ActiveForCovers(menu[posCode], soldOn);
    }
  }

  lemma NewItemsValid(menu: Menu, raw: seq<RawLine>, soldOn: Date)
    ensures ValidRefs(menu, NewItems(menu, raw, soldOn))
  {
    var items := NewItems(menu, raw, soldOn);
    forall i | 0 <= i < |items| && items[i].recipe.Some?
      ensures ValidRef(menu, items[i].recipe.value)
    {
      ResolveValid(menu, raw[i].posCode, soldOn);
    }
  }

  lemma ReresolvedValid(menu: Menu, items: seq<OrderItem>, soldOn: Date)
    requires ValidRefs(menu, items)
    ensures ValidRefs(menu, ReresolveAll(menu, items, soldOn))
  {
    var items' := ReresolveAll(menu, items, soldOn);
    forall i | 0 <= i < |items'| && items'[i].recipe.Some?
      ensures ValidRef(menu, items'[i].recipe.value)
    {
      ResolveValid(menu, items[i].posCode, soldOn);
    }
  }

  lemma DeductTables(s: State, id: nat)
    requires id < |s.sales| && Deduct(s, id).Ok?
    ensures var s' := Deduct(s, id).value;
      && s' == s.(books := s'.books, sales := s'.sales)
      && (s'.sales == s.sales || s'.sales == s.sales[id := s.sales[id].(insufficient := true)])
  {
  }

  lemma DeductEffect(s: State, id: nat)
    requires id < |s.sales| && Deduct(s, id).Ok?
    requires Resolved(s.sales[id].items) && ValidRefs(s.menu, s.sales[id].items) && !s.sales[id].insufficient
    ensures var s' := Deduct(s, id).value;
      PostsOnly(s, s', OrderDocument(id), s'.sales[id].insufficient)
  {
    var s' := Deduct(s, id).value;
    var posting := OrderPosting(s, id, s.sales[id].items);
    var override := s'.sales[id].insufficient;
    DeductTables(s, id);
    assert Backed(s', posting);
    assert PostedAs(s, s', Posting(posting.document, posting.lines), override);
  }

  /** The sale as created, before any deduction. */
  function CreatedSale(s: State, op: Op): State
    requires op.OpIngest? && op.soldOn.Some?
  {
    var items := NewItems(s.menu, op.raw, op.soldOn.value);
    s.(sales := s.sales + [Sale(op.saleId, op.soldOn.value, items,
                                if Resolved(items) then Ingested else FlaggedUnknownItem, false, 0)])
  }

  lemma IngestTables(s: State, op: Op, s': State)
    requires op.OpIngest? && Step(s, op) == Ok(s')
    ensures OnlySales(s, s')
  {
    if op.soldOn.Some? {
      var created := CreatedSale(s, op);
      if Deduct(created, |s.sales|).Ok? {
        DeductTables(created, |s.sales|);
      }
    }
  }

  lemma IngestEffect(s: State, op: Op, s': State)
    requires op.OpIngest? && Step(s, op) == Ok(s')
    ensures PostsOnly(s, s', OrderDocument(|s.sales|), MayOverride(s, op))
  {
    var id := |s.sales|;
    if s'.books != s.books {
      var created := CreatedSale(s, op);
      NewItemsValid(s.menu, op.raw, op.soldOn.value);
      DeductEffect(created, id);
      DeductTables(created, id);
      Transport(s, created, s', OrderDocument(id), s'.sales[id].insufficient);
    }
  }

  lemma {:induction false} ReplayTables(s: State, id: nat)
    requires Replay(s, id).Ok?
    ensures OnlySales(s, Replay(s, id).value)
  {
    var items := ReresolveAll(s.menu, s.sales[id].items, s.sales[id].soldOn);
    ReplayGrows(s, id, items, if Resolved(items) then Replayed else FlaggedUnknownItem);
  }

  lemma {:induction false} ReplayGrows(s: State, id: nat, items: seq<OrderItem>, status: SaleStatus)
    requires id < |s.sales| && items == ReresolveAll(s.menu, s.sales[id].items, s.sales[id].soldOn)
    ensures OnlySales(s, RecordReplay(s, id, items, status))
  {
  }

  lemma ReplayEffect(s: State, id: nat)
    requires Replay(s, id).Ok? && ValidRefs(s.menu, s.sales[id].items)
    ensures PostsOnly(s, Replay(s, id).value, OrderDocument(id), true)
  {
    var s' := Replay(s, id).value;
    if s'.books != s.books {
      ReresolvedValid(s.menu, s.sales[id].items, s.sales[id].soldOn);
      var posting := OrderPosting(s, id, s'.sales[id].items);
      assert PostedAs(s, s', Posting(posting.document, posting.lines), true);
    }
  }

  lemma {:induction false} ReceivedNonNegative(lines: seq<GrnLine>, poLine: nat)
    requires ValidGrnLines(lines)
    ensures ReceivedQty(lines, poLine) >= 0
  {
    if lines != [] {
      assert forall i :: 0 <= i < |lines| - 1 ==> lines[..|lines| - 1][i] == lines[i];
      ReceivedNonNegative(lines[..|lines| - 1], poLine);
    }
  }

  lemma GrnTables(s: State, po: nat, lines: seq<GrnLine>)
    requires PostGrn(s, po, lines).Ok?
    ensures OnlyPurchasing(s, PostGrn(s, po, lines).value)
  {
    forall i | 0 <= i < |s.orders[po].lines|
      ensures ReceivedQty(lines, i) >= 0
    {
      ReceivedNonNegative(lines, i);
    }
    assert SamePo(s.orders[po], PostGrn(s, po, lines).value.orders[po]);
  }

  lemma GrnEffect(s: State, po: nat, lines: seq<GrnLine>)
    requires PostGrn(s, po, lines).Ok?
    ensures PostsOnly(s, PostGrn(s, po, lines).value, GrnDocument(|s.grns|), false)
  {
    var s' := PostGrn(s, po, lines).value;
    var posting := Posting(GrnDocument(|s.grns|), ReceiptLines(s.orders[po], lines));
    assert posting.lines == ReceiptLines(s'.orders[po], lines) by {
      forall i | 0 <= i < |lines|
        ensures ReceiptLine(s'.orders[po], lines[i]) == ReceiptLine(s.orders[po], lines[i])
      {
      }
    }
    PostEffect(s, PostTo(s, posting, false).value, s', posting, false);
  }

  lemma {:induction false} RecountKeepsSheet(line: CountLine, counts: seq<ItemQty>)
    ensures Recount(line, counts) == line.(counted := Recount(line, counts).counted)
  {
    if counts != [] {
      RecountKeepsSheet(line, counts[..|counts| - 1]);
    }
  }

  lemma CountsTables(s: State, id: nat, counts: seq<ItemQty>)
    requires RecordCounts(s, id, counts).Ok?
    ensures var s' := RecordCounts(s, id, counts).value;
      OnlyTakes(s, s') && s'.books == s.books && s'.approvals == s.approvals
  {
    var s' := RecordCounts(s, id, counts).value;
    var lines := s.takes[id].lines;
    forall i | 0 <= i < |lines|
      ensures var line := Recount(lines[i], counts);
        line.product == lines[i].product && line.systemQty == lines[i].systemQty
    {
      RecountKeepsSheet(lines[i], counts);
    }
    assert SameSheet(s.takes[id], s'.takes[id]);
  }

  predicate MenuStep(op: Op) { op.OpCreateMenuItem? || op.OpCreateRecipe? || op.OpSubmitRecipe? || op.OpPublishRecipe? }

  /** The versions a menu step gives its item. */
  function HistoryAfter(menu: Menu, op: Op): Result<History>
    requires MenuStep(op)
  {
    if op.OpCreateMenuItem? then (if op.posCode in menu then Err(ConstraintViolation) else Ok([]))
    else if op.posCode !in menu then Err(NotFound)
    else if op.OpCreateRecipe? then CreateVersion(menu[op.posCode], op.recipe)
    else if op.OpSubmitRecipe? then SubmitForReview(menu[op.posCode], op.version)
    else Publish(menu[op.posCode], op.version, op.effectiveFrom)
  }

  /** A menu step changes the versions of one item and nothing else. */
  lemma {:induction false} MenuOutcome(s: State, op: Op, s': State)
    requires MenuStep(op) && Step(s, op) == Ok(s')
    ensures HistoryAfter(s.menu, op).Ok?
    ensures s' == s.(menu := s.menu[op.posCode := HistoryAfter(s.menu, op).value])
  {
  }

  lemma {:induction false} HistoryExtends(menu: Menu, op: Op)
    requires MenuStep(op) && HistoryAfter(menu, op).Ok?
    ensures MenuGrows(menu, menu[op.posCode := HistoryAfter(menu, op).value])
  {
  }

  lemma {:induction false} MenuTables(s: State, op: Op, s': State)
    requires MenuStep(op) && Step(s, op) == Ok(s')
    ensures OnlyMenu(s, s')
  {
    MenuOutcome(s, op, s');
    HistoryExtends(s.menu, op);
  }

  lemma PurchasingTables(s: State, op: Op, s': State)
    requires op.OpCreateBudget? || op.OpSubmitBudget? || op.OpCreatePo? || op.OpSendPo? || op.OpMatchInvoice?
    requires Step(s, op) == Ok(s')
    ensures OnlyPurchasing(s, s') && s'.books == s.books
  {
    if op.OpCreatePo? || op.OpSendPo? {
      OrderTables(s, op, s');
    }
  }

  lemma {:induction false} OrderTables(s: State, op: Op, s': State)
    requires (op.OpCreatePo? || op.OpSendPo?) && Step(s, op) == Ok(s')
    ensures OnlyPurchasing(s, s') && s'.books == s.books
  {
  }

  lemma OutboxTables(s: State, op: Op, s': State)
    requires op.OpDrain? || op.OpResend?
    requires Step(s, op) == Ok(s')
    ensures OnlyBooks(s, s') && SameLedger(s, s')
  {
  }

  lemma {:induction false} WritingStepGrows(s: State, op: Op, s': State)
    requires Step(s, op) == Ok(s') && Writes(s, op).Some? && !op.OpDecide?
    ensures Grows(s, s')
  {
    match op
    case OpPostIssue(id, override) => IssueTables(s, id, override); GrowIssues(s, s');
    case OpPostTransfer(id) => TransferTables(s, id, false); GrowTransfers(s, s');
    case OpPostTake(id) => TakeTables(s, id, false); GrowTakes(s, s');
    case OpCreateWastage(_, _, _, _) => CreateWastageTables(s, op, s'); GrowWastage(s, s');
    case OpIngest(_, _, _) => IngestTables(s, op, s'); GrowSales(s, s');
    case OpReplay(id) => ReplayTables(s, id); GrowSales(s, s');
    case OpPostGrn(po, lines) => GrnTables(s, po, lines); GrowPurchasing(s, s');
  }

  lemma MenuOrBooksStepGrows(s: State, op: Op, s': State)
    requires Step(s, op) == Ok(s')
    requires op.OpCreateMenuItem? || op.OpCreateRecipe? || op.OpSubmitRecipe? || op.OpPublishRecipe? || op.OpDrain? || op.OpResend?
    ensures Grows(s, s')
  {
    match op
    case OpDrain(_, _) => OutboxTables(s, op, s'); GrowBooks(s, s');
    case OpResend(_, _) => OutboxTables(s, op, s'); GrowBooks(s, s');
    case _ => MenuTables(s, op, s'); GrowMenu(s, s');
  }

  /** Every committed step grows the tables. */
  lemma {:induction false} StepGrows(s: State, op: Op, s': State)
    requires Step(s, op) == Ok(s') && !op.OpDecide?
    ensures Grows(s, s')
  {
    if Writes(s, op).Some? {
      WritingStepGrows(s, op, s');
    } else {
      QuietStepGrows(s, op, s');
    }
  }

  lemma {:induction false} QuietStepGrows(s: State, op: Op, s': State)
    requires Step(s, op) == Ok(s') && !op.OpDecide? && Writes(s, op).None?
    ensures Grows(s, s')
  {
    if op.OpCreateIssue? {
      GrowIssues(s, s');
    } else if op.OpCreateTransfer? {
      GrowTransfers(s, s');
    } else if op.OpOpenTake? {
      GrowTakes(s, s');
    } else if op.OpRecordCounts? {
      CountsTables(s, op.id, op.counts);
      GrowTakes(s, s');
    } else if op.OpSetThreshold? || op.OpCreateStores? || op.OpSetActiveProducts? {
      GrowConfiguration(s, s');
    } else if op.OpCreateBudget? || op.OpSubmitBudget? || op.OpCreatePo? || op.OpSendPo? || op.OpMatchInvoice? {
      PurchasingTables(s, op, s');
      GrowPurchasing(s, s');
    } else {
      MenuOrBooksStepGrows(s, op, s');
    }
  }

  /** Steps that write no document leave the ledger, the cache and the payloads alone. */
  lemma {:induction false} QuietStep(s: State, op: Op, s': State)
    requires Step(s, op) == Ok(s') && Writes(s, op).None? && !op.OpDecide?
    ensures SameLedger(s, s')
    ensures !op.OpDrain? && !op.OpResend? ==> s'.books == s.books
  {
    if op.OpDrain? || op.OpResend? {
      OutboxTables(s, op, s');
    } else if op.OpRecordCounts? {
      CountsTables(s, op.id, op.counts);
    } else if op.OpCreateBudget? || op.OpSubmitBudget? || op.OpCreatePo? || op.OpSendPo? || op.OpMatchInvoice? {
      PurchasingTables(s, op, s');
    }
  }

  lemma WritingStepPosts(s: State, op: Op, s': State)
    requires Step(s, op) == Ok(s') && Writes(s, op).Some? && !op.OpDecide?
    requires forall i :: 0 <= i < |s.sales| ==> ValidRefs(s.menu, s.sales[i].items)
    ensures PostsOnly(s, s', Writes(s, op).value, MayOverride(s, op))
  {
    match op
    case OpPostIssue(id, override) => IssueEffect(s, id, override);
    case OpPostTransfer(id) => TransferEffect(s, id, false);
    case OpPostTake(id) => TakeEffect(s, id, false);
    case OpCreateWastage(_, _, _, _) => CreateWastageEffect(s, op, s');
    case OpIngest(_, _, _) => IngestEffect(s, op, s');
    case OpReplay(id) => ReplayEffect(s, id);
    case OpPostGrn(po, lines) => GrnEffect(s, po, lines);
  }

  /** Every committed step grows the tables and posts at most its own document. */
  lemma {:induction false} StepEffect(s: State, op: Op, s': State)
    requires Step(s, op) == Ok(s')
    requires forall i :: 0 <= i < |s.sales| ==> ValidRefs(s.menu, s.sales[i].items)
    ensures Effect(s, op, s')
  {
    if op.OpDecide? {
      DecideEffect(s, op, s');
    } else {
      StepGrows(s, op, s');
      if Writes(s, op).Some? {
        WritingStepPosts(s, op, s');
      } else {
        QuietStep(s, op, s');
      }
    }
  }

  /** Documents other than the one written keep their rows. */
  lemma RowsFrame(s: State, s': State, document: Document, override: bool, other: Document)
    requires PostsOnly(s, s', document, override) && other != document
    ensures DocRows(s'.books.ledger, other) == DocRows(s.books.ledger, other)
  {
    if s'.books != s.books {
      var lines :| PostedAs(s, s', Posting(document, lines), override);
      PostRows(s.books, Posting(document, lines), override, other);
    }
  }

  /** Ledger rows are never removed, and a posted document is never written again. */
  lemma RowsFinal(s: State, s': State, document: Document, override: bool)
    requires PostsOnly(s, s', document, override) && IsPosted(s.books, document)
    ensures s'.books == s.books
  {
  }

  lemma {:induction false} StepRows(s: State, op: Op, s': State, other: Document)
    requires Step(s, op) == Ok(s')
    requires forall i :: 0 <= i < |s.sales| ==> ValidRefs(s.menu, s.sales[i].items)
    ensures Writes(s, op) != Some(other) || IsPosted(s.books, other) ==>
      DocRows(s'.books.ledger, other) == DocRows(s.books.ledger, other)
  {
    StepEffect(s, op, s');
    if Writes(s, op).Some? {
      var document := Writes(s, op).value;
      if other != document {
        RowsFrame(s, s', document, MayOverride(s, op), other);
      } else if IsPosted(s.books, other) {
        RowsFinal(s, s', document, MayOverride(s, op));
      }
    }
  }
}
