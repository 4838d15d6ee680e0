/** The tables of the back office. A row's id is its position in its table: rows are only
    ever appended. Money is in cents; the value of a quantity (cents times thousandths) is in
    units of 10^-5. */
module Model {
  import opened Prelude
  import opened Ledger
  import opened Recipes
  import opened Deduction

  datatype Scope = TransferScope | WastageScope | AdjustmentScope | ExtraUsageScope

  /** The document an approval is about. */
  datatype Subject = OnTransfer(id: nat) | OnTake(id: nat) | OnWastage(id: nat) | OnBudget(id: nat)

  datatype ApprovalStatus = Undecided | Approved | Rejected | Investigation

  datatype Approval = Approval(subject: Subject, scope: Option<Scope>, thresholdSnapshot: Option<int>, status: ApprovalStatus)

  /** Status of a stock document. A stock-take in progress is a draft. */
  datatype DocStatus = DraftDoc | PendingApproval | PostedDoc | RejectedDoc

  datatype ItemQty = ItemQty(product: ProductId, qty: int)

  /** An issue note or an inter-unit transfer. */
  datatype Move = Move(source: Location, destination: Location, lines: seq<ItemQty>, status: DocStatus)

  datatype CountLine = CountLine(product: ProductId, systemQty: int, counted: Option<int>)

  datatype StockTake = StockTake(location: Location, lines: seq<CountLine>, status: DocStatus)

  datatype EntryType = ExtraUsageEntry | Breakage | Spoilage

  datatype WastageEntry = WastageEntry(entryType: EntryType, key: Key, qty: int, value: int, status: DocStatus)

  datatype SaleStatus = Ingested | FlaggedUnknownItem | Replayed

  /** A sale event with its one order; `replays` counts its replay-log rows. */
  datatype Sale = Sale(saleId: string, soldOn: Date, items: seq<OrderItem>, status: SaleStatus, insufficient: bool, replays: nat)

  datatype BudgetStatus = BudgetDraft | BudgetSubmitted | BudgetApproved | BudgetRejected

  datatype Budget = Budget(products: seq<ProductId>, status: BudgetStatus)

  datatype PoStatus = Created | SentToSupplier | ManualContact | PartiallyReceived | Received

  datatype PoLine = PoLine(product: ProductId, qty: int, unitPrice: int, fulfilled: int)

  datatype PurchaseOrder = PurchaseOrder(supplier: nat, lines: seq<PoLine>, status: PoStatus)

  datatype GrnLine = GrnLine(poLine: nat, qty: int, unitCost: int)

  /** A posted goods received note (the draft never outlives its transaction). */
  datatype Grn = Grn(po: nat, lines: seq<GrnLine>)

  /** A supplier invoice with its 3-way match; a discrepancy records the expected value. */
  datatype Invoice = Invoice(supplier: nat, ref: string, po: nat, amount: int,
                             poDiscrepancy: Option<int>, grnDiscrepancy: Option<int>)

  datatype State = State(
    books: Books,
    thresholds: map<Scope, nat>,
    approvals: seq<Approval>,
    storesConfigured: bool,
    activeProducts: seq<ProductId>,
    factors: Factors,
    transfers: seq<Move>,
    issues: seq<Move>,
    takes: seq<StockTake>,
    wastage: seq<WastageEntry>,
    menu: Menu,
    sales: seq<Sale>,
    budgets: seq<Budget>,
    orders: seq<PurchaseOrder>,
    grns: seq<Grn>,
    invoices: seq<Invoice>)

  /** An empty installation over a fixed set of conversion factors. */
  function Initial(factors: Factors): State {
    State(EmptyBooks, map[], [], false, [], factors, [], [], [], [], map[], [], [], [], [], [])
  }

  function TransferDocument(id: nat): Document { Document(TransferDoc, id) }
  function IssueDocument(id: nat): Document { Document(IssueDoc, id) }
  function TakeDocument(id: nat): Document { Document(TakeDoc, id) }
  function WastageDocument(id: nat): Document { Document(WastageDoc, id) }
  function OrderDocument(id: nat): Document { Document(OrderDoc, id) }
  function GrnDocument(id: nat): Document { Document(GrnDoc, id) }
}
