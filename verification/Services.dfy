/** What each service call does to the tables: it commits a new state or is rolled back. */
module Services {
  import opened Prelude
  import opened Ledger
  import opened Recipes
  import opened Deduction
  import opened Model

  // ----- costs and thresholds (inventory/services.py, core/services.py) -----

  /** `_latest_unit_cost`: the unit cost of the newest GRN row of a product, else zero. */
  function LatestUnitCost(ledger: seq<Movement>, p: ProductId): int {
    if ledger == [] then 0
    else
      var last := ledger[|ledger| - 1];
      if last.key.product == p && last.kind.GrnReceipt? && last.unitCost.Some? then last.unitCost.value
      else LatestUnitCost(ledger[..|ledger| - 1], p)
  }

  function LinesValue(ledger: seq<Movement>, lines: seq<ItemQty>): int {
    if lines == [] then 0
    else
      var last := lines[|lines| - 1];
      LinesValue(ledger, lines[..|lines| - 1]) + LatestUnitCost(ledger, last.product) * last.qty
  }

  /** A value in units of 10^-5 against a threshold in cents. */
  predicate RequiresApproval(thresholds: map<Scope, nat>, scope: Scope, value: int) {
    scope in thresholds && value > thresholds[scope] * 1000
  }

  function SubmitForApproval(s: State, subject: Subject, scope: Scope): State {
    var snapshot := if scope in s.thresholds then Some(s.thresholds[scope]) else None;
    s.(approvals := s.approvals + [Approval(subject, Some(scope), snapshot, Undecided)])
  }

  /** `post_movements` as a step on all tables. */
  function PostTo(s: State, posting: Posting, allowNegative: bool): Result<State> {
    var b := Post(s.books, posting, allowNegative);
    if b.Err? then Err(b.error) else Ok(s.(books := b.value))
  }

  // ----- issue notes and transfers -----

  /** The database constraints on the lines of an issue note or transfer. */
  predicate ValidItems(lines: seq<ItemQty>) {
    && (forall i, j :: 0 <= i < j < |lines| ==> lines[i].product != lines[j].product)
    && (forall i :: 0 <= i < |lines| ==> lines[i].qty > 0)
  }

  function MoveLine(item: ItemQty, location: Location, sign: int, kind: MovementType): Line {
    Line(Key(item.product, location), sign * item.qty * FINE, kind, None)
  }

  /** The movement types of a document's two sides. */
  datatype Sides = Sides(outKind: MovementType, inKind: MovementType)

  /** One out/in pair per document line. */
  function PairLines(source: Location, destination: Location, items: seq<ItemQty>, sides: Sides): seq<Line> {
    if items == [] then []
    else
      var n := |items| - 1;
      PairLines(source, destination, items[..n], sides)
      + [MoveLine(items[n], source, -1, sides.outKind), MoveLine(items[n], destination, 1, sides.inKind)]
  }

  function IssueLines(m: Move): seq<Line> {
    PairLines(m.source, m.destination, m.lines, Sides(IssueOut, IssueIn))
  }

  function TransferLines(m: Move): seq<Line> {
    PairLines(m.source, m.destination, m.lines, Sides(TransferOut, TransferIn))
  }

  /** Creating the header and its lines is not one transaction: a line constraint that fails
      leaves the header behind without lines. */
  function NewMove(source: Location, destination: Location, lines: seq<ItemQty>): Move {
    Move(source, destination, if ValidItems(lines) then lines else [], DraftDoc)
  }

  function CreateIssue(s: State, source: Location, destination: Location, lines: seq<ItemQty>): Result<State> {
    if lines == [] then Err(EmptyLines)
    else if source == destination then Err(InvalidInput)
    else Ok(s.(issues := s.issues + [NewMove(source, destination, lines)]))
  }

  function CreateTransfer(s: State, source: Location, destination: Location, lines: seq<ItemQty>): Result<State> {
    if lines == [] then Err(EmptyLines)
    else if source == destination then Err(ConstraintViolation)
    else Ok(s.(transfers := s.transfers + [NewMove(source, destination, lines)]))
  }

  function SetIssue(s: State, id: nat, status: DocStatus): State
    requires id < |s.issues|
  {
    s.(issues := s.issues[id := s.issues[id].(status := status)])
  }

  function SetTransfer(s: State, id: nat, status: DocStatus): State
    requires id < |s.transfers|
  {
    s.(transfers := s.transfers[id := s.transfers[id].(status := status)])
  }

  function PostIssue(s: State, id: nat, override: bool): Result<State> {
    if id >= |s.issues| then Err(NotFound)
    else if s.issues[id].status.PostedDoc? then Ok(s)
    else
      var posted := PostTo(s, Posting(IssueDocument(id), IssueLines(s.issues[id])), override);
      if posted.Err? then posted else Ok(SetIssue(posted.value, id, PostedDoc))
  }

  function TransferValue(s: State, id: nat): int
    requires id < |s.transfers|
  {
    LinesValue(s.books.ledger, s.transfers[id].lines)
  }

  function PostTransfer(s: State, id: nat, skipApproval: bool): Result<State> {
    if id >= |s.transfers| then Err(NotFound)
    else if s.transfers[id].status.PostedDoc? then Ok(s)
    else if s.transfers[id].lines == [] then Err(EmptyLines)
    else if !skipApproval && RequiresApproval(s.thresholds, TransferScope, TransferValue(s, id)) then
      Ok(SubmitForApproval(SetTransfer(s, id, PendingApproval), OnTransfer(id), TransferScope))
    else
      var posted := PostTo(s, Posting(TransferDocument(id), TransferLines(s.transfers[id])), false);
      if posted.Err? then posted else Ok(SetTransfer(posted.value, id, PostedDoc))
  }

  // ----- stock-takes -----

  function OpenTake(s: State, location: Location): State {
    var lines := seq(|s.activeProducts|, i requires 0 <= i < |s.activeProducts| =>
      CountLine(s.activeProducts[i], OnHand(s.books.balances, Key(s.activeProducts[i], location)), None));
    s.(takes := s.takes + [StockTake(location, lines, DraftDoc)])
  }

  /** The last count submitted for a product, or what was recorded before. */
  function Recount(line: CountLine, counts: seq<ItemQty>): CountLine {
    if counts == [] then line
    else
      var last := counts[|counts| - 1];
      if last.product == line.product then line.(counted := Some(last.qty))
      else Recount(line, counts[..|counts| - 1])
  }

  predicate OnSheet(lines: seq<CountLine>, p: ProductId) {
    exists i :: 0 <= i < |lines| && lines[i].product == p
  }

  /** Submitting counts; the view does not look at the stock-take's status. */
  function RecordCounts(s: State, id: nat, counts: seq<ItemQty>): Result<State> {
    if id >= |s.takes| then Err(NotFound)
    else if counts == [] || exists i :: 0 <= i < |counts| && counts[i].qty < 0 then Err(InvalidInput)
    else
      var lines := s.takes[id].lines;
      if exists i :: 0 <= i < |counts| && !OnSheet(lines, counts[i].product) then Err(InvalidInput)
      else
        var recounted := seq(|lines|, i requires 0 <= i < |lines| => Recount(lines[i], counts));
        Ok(s.(takes := s.takes[id := s.takes[id].(lines := recounted)]))
  }

  function Variance(line: CountLine): int
    requires line.counted.Some?
  {
    line.counted.value - line.systemQty
  }

  /** The variances that are not zero, of the lines that were counted. */
  function Variant(lines: seq<CountLine>): seq<ItemQty> {
    if lines == [] then []
    else
      var last := lines[|lines| - 1];
      Variant(lines[..|lines| - 1])
      + if last.counted.Some? && Variance(last) != 0 then [ItemQty(last.product, Variance(last))] else []
  }

  function AdjustmentLine(location: Location, item: ItemQty): Line {
    Line(Key(item.product, location), item.qty * FINE, StocktakeAdj, None)
  }

  function AdjustmentLines(location: Location, variant: seq<ItemQty>): (lines: seq<Line>)
    ensures |lines| == |variant|
  {
    seq(|variant|, i requires 0 <= i < |variant| => AdjustmentLine(location, variant[i]))
  }

  function TakeLines(take: StockTake): seq<Line> {
    AdjustmentLines(take.location, Variant(take.lines))
  }

  /** Variances as unsigned quantities, for valuation. */
  function Unsigned(variant: seq<ItemQty>): (items: seq<ItemQty>)
    ensures |items| == |variant|
  {
    seq(|variant|, i requires 0 <= i < |variant| => variant[i].(qty := Abs(variant[i].qty)))
  }

  function TakeValue(s: State, id: nat): int
    requires id < |s.takes|
  {
    LinesValue(s.books.ledger, Unsigned(Variant(s.takes[id].lines)))
  }

  function SetTake(s: State, id: nat, status: DocStatus): State
    requires id < |s.takes|
  {
    s.(takes := s.takes[id := s.takes[id].(status := status)])
  }

  function PostTake(s: State, id: nat, skipApproval: bool): Result<State> {
    if id >= |s.takes| then Err(NotFound)
    else if s.takes[id].status.PostedDoc? then Ok(s)
    else if Variant(s.takes[id].lines) == [] then Ok(SetTake(s, id, PostedDoc))
    else if !skipApproval && RequiresApproval(s.thresholds, AdjustmentScope, TakeValue(s, id)) then
      Ok(SubmitForApproval(SetTake(s, id, PendingApproval), OnTake(id), AdjustmentScope))
    else
      var posted := PostTo(s, Posting(TakeDocument(id), TakeLines(s.takes[id])), true);
      if posted.Err? then posted else Ok(SetTake(posted.value, id, PostedDoc))
  }

  // ----- wastage -----

  function WastageLines(entry: WastageEntry): seq<Line> {
    [Line(entry.key, -entry.qty * FINE, Wastage, None)]
  }

  function SetWastage(s: State, id: nat, status: DocStatus): State
    requires id < |s.wastage|
  {
    s.(wastage := s.wastage[id := s.wastage[id].(status := status)])
  }

  function PostWastageEntry(s: State, id: nat): Result<State>
    requires id < |s.wastage|
  {
    if s.wastage[id].status.PostedDoc? then Ok(s)
    else
      var posted := PostTo(s, Posting(WastageDocument(id), WastageLines(s.wastage[id])), true);
      if posted.Err? then posted else Ok(SetWastage(posted.value, id, PostedDoc))
  }

  function WastageThreshold(entryType: EntryType): Scope {
    if entryType.ExtraUsageEntry? then ExtraUsageScope else WastageScope
  }

  /** `create_extra_usage` names no location and falls back to Stores; `create_wastage` names one. */
  function CreateWastage(s: State, entryType: EntryType, p: ProductId, location: Option<Location>, qty: int): Result<State> {
    if qty <= 0 then Err(InvalidInput)
    else if location.None? && !s.storesConfigured then Err(NotConfigured)
    else
      var id := |s.wastage|;
      var where := if location.Some? then location.value else Stores;
      var entry := WastageEntry(entryType, Key(p, where), qty, LatestUnitCost(s.books.ledger, p) * qty, DraftDoc);
      var logged := s.(wastage := s.wastage + [entry]);
      if RequiresApproval(s.thresholds, WastageThreshold(entryType), entry.value) then
        Ok(SubmitForApproval(SetWastage(logged, id, PendingApproval), OnWastage(id), WastageThreshold(entryType)))
      else PostWastageEntry(logged, id)
  }

  // ----- the approval engine -----

  function SetBudget(s: State, id: nat, status: BudgetStatus): State
    requires id < |s.budgets|
  {
    s.(budgets := s.budgets[id := s.budgets[id].(status := status)])
  }

  /** The subject's `on_approval_decided`; a missing subject is ignored. */
  function Callback(s: State, subject: Subject, decision: ApprovalStatus): Result<State> {
    match subject
    case OnTransfer(id) =>
      if id >= |s.transfers| then Ok(s)
      else if decision.Approved? then PostTransfer(s, id, true)
      else if decision.Rejected? then Ok(SetTransfer(s, id, RejectedDoc))
      else Ok(s)
    case OnTake(id) =>
      if id < |s.takes| && decision.Approved? then PostTake(s, id, true) else Ok(s)
    case OnWastage(id) =>
      if id >= |s.wastage| then Ok(s)
      else if decision.Approved? then PostWastageEntry(s, id)
      else if decision.Rejected? then Ok(SetWastage(s, id, RejectedDoc))
      else Ok(s)
    case OnBudget(id) =>
      if id >= |s.budgets| then Ok(s)
      else if decision.Approved? then Ok(SetBudget(s, id, BudgetApproved))
      else if decision.Rejected? then Ok(SetBudget(s, id, BudgetRejected))
      else Ok(s)
  }

  /** Decisions are final except INVESTIGATION. A callback that fails rolls the decision back. */
  function Decide(s: State, a: nat, decision: ApprovalStatus, reasonGiven: bool): Result<State> {
    if a >= |s.approvals| then Err(NotFound)
    else if decision.Undecided? then Err(InvalidInput)
    else if !s.approvals[a].status.Undecided? && !s.approvals[a].status.Investigation? then Err(InvalidState)
    else if decision.Rejected? && !reasonGiven then Err(InvalidInput)
    else
      var decided := s.(approvals := s.approvals[a := s.approvals[a].(status := decision)]);
      Callback(decided, s.approvals[a].subject, decision)
  }

  // ----- POS ingestion and replay -----

  function Resolve(menu: Menu, posCode: string, soldOn: Date): Option<RecipeRef> {
    if posCode !in menu then None
    else
      var version := ActiveFor(menu[posCode], soldOn);
      if version.None? then None else Some(RecipeRef(posCode, version.value))
  }

  datatype RawLine = RawLine(posCode: string, qty: int)

  function NewItem(menu: Menu, raw: RawLine, soldOn: Date): OrderItem {
    OrderItem(raw.posCode, raw.qty, Resolve(menu, raw.posCode, soldOn))
  }

  function NewItems(menu: Menu, raw: seq<RawLine>, soldOn: Date): (items: seq<OrderItem>)
    ensures |items| == |raw|
  {
    seq(|raw|, i requires 0 <= i < |raw| => NewItem(menu, raw[i], soldOn))
  }

  predicate KnownSale(s: State, saleId: string) {
    exists i :: 0 <= i < |s.sales| && s.sales[i].saleId == saleId
  }

  function OrderPosting(s: State, id: nat, items: seq<OrderItem>): Posting {
    Posting(OrderDocument(id), DeductionLines(Requirements(s.menu, s.factors, items)))
  }

  /** Strict posting first; insufficient stock flags the order and posts with the override. */
  function Deduct(s: State, id: nat): Result<State>
    requires id < |s.sales|
  {
    var posting := OrderPosting(s, id, s.sales[id].items);
    var strict := PostTo(s, posting, false);
    if strict.Err? && strict.error.InsufficientStock? then
      PostTo(s.(sales := s.sales[id := s.sales[id].(insufficient := true)]), posting, true)
    else strict
  }

  function Ingest(s: State, saleId: string, soldOn: Option<Date>, raw: seq<RawLine>): Result<State> {
    if saleId == "" || soldOn.None? || raw == [] then Err(InvalidInput)
    else if KnownSale(s, saleId) then Ok(s)
    else if exists i :: 0 <= i < |raw| && raw[i].qty <= 0 then Err(ConstraintViolation)
    else
      var id := |s.sales|;
      var items := NewItems(s.menu, raw, soldOn.value);
      var status := if Resolved(items) then Ingested else FlaggedUnknownItem;
      var created := s.(sales := s.sales + [Sale(saleId, soldOn.value, items, status, false, 0)]);
      if !Resolved(items) then Ok(created)
      else if !s.storesConfigured then Err(NotConfigured)
      else Deduct(created, id)
  }

  /** An unresolved item is looked up again; a snapshot already taken is kept. */
  function Reresolve(menu: Menu, item: OrderItem, soldOn: Date): OrderItem {
    if item.recipe.Some? then item else item.(recipe := Resolve(menu, item.posCode, soldOn))
  }

  function ReresolveAll(menu: Menu, items: seq<OrderItem>, soldOn: Date): (items': seq<OrderItem>)
    ensures |items'| == |items|
  {
    seq(|items|, i requires 0 <= i < |items| => Reresolve(menu, items[i], soldOn))
  }

  /** The sale after one more replay. */
  function RecordReplay(s: State, id: nat, items: seq<OrderItem>, status: SaleStatus): State
    requires id < |s.sales|
  {
    s.(sales := s.sales[id := s.sales[id].(items := items, status := status, replays := s.sales[id].replays + 1)])
  }

  function Replay(s: State, id: nat): Result<State> {
    if id >= |s.sales| then Err(NotFound)
    else
      var items := ReresolveAll(s.menu, s.sales[id].items, s.sales[id].soldOn);
      var replayed := RecordReplay(s, id, items, if Resolved(items) then Replayed else FlaggedUnknownItem);
      var posting := OrderPosting(s, id, items);
      if !Resolved(items) then Ok(replayed)
      else if !s.storesConfigured then Err(NotConfigured)
      else if posting.lines == [] then Ok(replayed)
      else PostTo(replayed, posting, true)
  }

  // ----- the menu -----

  function CreateMenuItem(s: State, posCode: string): Result<State> {
    if posCode in s.menu then Err(ConstraintViolation) else Ok(s.(menu := s.menu[posCode := []]))
  }

  /** A recipe step on one menu item. */
  function WithHistory(s: State, posCode: string, history: Result<History>): Result<State> {
    if history.Err? then Err(history.error) else Ok(s.(menu := s.menu[posCode := history.value]))
  }

  function CreateRecipe(s: State, posCode: string, lines: seq<RecipeLine>): Result<State> {
    if posCode !in s.menu then Err(NotFound) else WithHistory(s, posCode, CreateVersion(s.menu[posCode], lines))
  }

  function SubmitRecipe(s: State, posCode: string, version: nat): Result<State> {
    if posCode !in s.menu then Err(NotFound) else WithHistory(s, posCode, SubmitForReview(s.menu[posCode], version))
  }

  function PublishRecipe(s: State, posCode: string, version: nat, effectiveFrom: Option<Date>): Result<State> {
    if posCode !in s.menu then Err(NotFound) else WithHistory(s, posCode, Publish(s.menu[posCode], version, effectiveFrom))
  }

  // ----- procurement -----

  function SubmitBudget(s: State, id: nat): Result<State> {
    if id >= |s.budgets| then Err(NotFound)
    else if !s.budgets[id].status.BudgetDraft? then Err(InvalidState)
    else
      var submitted := SetBudget(s, id, BudgetSubmitted);
      Ok(submitted.(approvals := s.approvals + [Approval(OnBudget(id), None, None, Undecided)]))
  }

  predicate ValidPoLines(lines: seq<PoLine>) {
    forall i :: 0 <= i < |lines| ==> lines[i].qty > 0 && lines[i].unitPrice >= 0 && lines[i].fulfilled == 0
  }

  function PoProducts(lines: seq<PoLine>): (ps: seq<ProductId>)
    ensures |ps| == |lines|
  {
    seq(|lines|, i requires 0 <= i < |lines| => lines[i].product)
  }

  function CreatePo(s: State, budget: nat, supplier: nat, lines: seq<PoLine>): Result<State> {
    if budget >= |s.budgets| then Err(NotFound)
    else if !s.budgets[budget].status.BudgetApproved? then Err(InvalidState)
    else if lines == [] then Err(EmptyLines)
    else if !Distinct(PoProducts(lines)) then Err(InvalidInput)
    else if exists i :: 0 <= i < |lines| && lines[i].product !in s.budgets[budget].products then Err(InvalidInput)
    else if !ValidPoLines(lines) then Err(ConstraintViolation)
    else Ok(s.(orders := s.orders + [PurchaseOrder(supplier, lines, Created)]))
  }

  /** Sending overwrites whatever status the order had. */
  function SendPo(s: State, po: nat, hasEmail: bool): Result<State> {
    if po >= |s.orders| then Err(NotFound)
    else Ok(s.(orders := s.orders[po := s.orders[po].(status := if hasEmail then SentToSupplier else ManualContact)]))
  }

  function SubmittedLines(lines: seq<GrnLine>): (ids: seq<nat>)
    ensures |ids| == |lines|
  {
    seq(|lines|, i requires 0 <= i < |lines| => lines[i].poLine)
  }

  predicate ValidGrnLines(lines: seq<GrnLine>) {
    forall i :: 0 <= i < |lines| ==> lines[i].qty > 0 && lines[i].unitCost >= 0
  }

  predicate LinesOfPo(po: PurchaseOrder, lines: seq<GrnLine>) {
    forall i :: 0 <= i < |lines| ==> lines[i].poLine < |po.lines|
  }

  function ReceiptLine(po: PurchaseOrder, line: GrnLine): Line
    requires line.poLine < |po.lines|
  {
    Line(Key(po.lines[line.poLine].product, Stores), line.qty * FINE, GrnReceipt, Some(line.unitCost))
  }

  function ReceiptLines(po: PurchaseOrder, lines: seq<GrnLine>): (receipt: seq<Line>)
    requires LinesOfPo(po, lines)
    ensures |receipt| == |lines|
  {
    seq(|lines|, i requires 0 <= i < |lines| => ReceiptLine(po, lines[i]))
  }

  /** Quantity received on a PO line by some GRN lines. */
  function ReceivedQty(lines: seq<GrnLine>, poLine: nat): int {
    if lines == [] then 0
    else
      var last := lines[|lines| - 1];
      ReceivedQty(lines[..|lines| - 1], poLine) + if last.poLine == poLine then last.qty else 0
  }

  function Fulfil(lines: seq<PoLine>, received: seq<GrnLine>): (lines': seq<PoLine>)
    ensures |lines'| == |lines|
  {
    seq(|lines|, i requires 0 <= i < |lines| => lines[i].(fulfilled := lines[i].fulfilled + ReceivedQty(received, i)))
  }

  predicate AllFulfilled(lines: seq<PoLine>) {
    forall i :: 0 <= i < |lines| ==> lines[i].fulfilled >= lines[i].qty
  }

  function PostGrn(s: State, po: nat, lines: seq<GrnLine>): Result<State> {
    if po >= |s.orders| then Err(NotFound)
    else if lines == [] then Err(EmptyLines)
    else if !Distinct(SubmittedLines(lines)) || !LinesOfPo(s.orders[po], lines) then Err(InvalidInput)
    else if !s.storesConfigured then Err(NotConfigured)
    else if !ValidGrnLines(lines) then Err(ConstraintViolation)
    else
      var order := s.orders[po];
      var posted := PostTo(s, Posting(GrnDocument(|s.grns|), ReceiptLines(order, lines)), false);
      if posted.Err? then posted
      else
        var fulfilled := Fulfil(order.lines, lines);
        var status := if AllFulfilled(fulfilled) then Received else PartiallyReceived;
        Ok(posted.value.(
          orders := s.orders[po := order.(lines := fulfilled, status := status)],
          grns := s.grns + [Grn(po, lines)]))
  }

  function PoValue(lines: seq<PoLine>): int {
    if lines == [] then 0
    else PoValue(lines[..|lines| - 1]) + lines[|lines| - 1].qty * lines[|lines| - 1].unitPrice
  }

  function GrnLinesValue(lines: seq<GrnLine>): int {
    if lines == [] then 0
    else GrnLinesValue(lines[..|lines| - 1]) + lines[|lines| - 1].qty * lines[|lines| - 1].unitCost
  }

  /** The value of all GRN lines of one purchase order, GRN by GRN. */
  function GrnValue(grns: seq<Grn>, po: nat): int {
    if grns == [] then 0
    else
      var last := grns[|grns| - 1];
      GrnValue(grns[..|grns| - 1], po) + if last.po == po then GrnLinesValue(last.lines) else 0
  }

  /** The 3-way match of an amount (cents) against the order and its receipts. */
  function MatchInvoice(s: State, po: nat, ref: string, amount: int): Result<State> {
    if po >= |s.orders| then Err(NotFound)
    else
      var supplier := s.orders[po].supplier;
      if amount < 0 || exists i :: 0 <= i < |s.invoices| && s.invoices[i].supplier == supplier && s.invoices[i].ref == ref
      then Err(ConstraintViolation)
      else
        var poValue, grnValue := PoValue(s.orders[po].lines), GrnValue(s.grns, po);
        var poDiscrepancy := if amount * 1000 != poValue then Some(poValue) else None;
        var grnDiscrepancy := if amount * 1000 != grnValue then Some(grnValue) else None;
        Ok(s.(invoices := s.invoices + [Invoice(supplier, ref, po, amount, poDiscrepancy, grnDiscrepancy)]))
  }

  predicate Matched(invoice: Invoice) {
    invoice.poDiscrepancy.None? && invoice.grnDiscrepancy.None?
  }
}
