/** The whole back office as a transactional state machine: each call commits or changes nothing. */
module System {
  import opened Prelude
  import opened Ledger
  import opened Accounting
  import opened Recipes
  import opened Deduction
  import opened Model
  import opened Services
  import D = Delivery

  datatype Op =
    // configuration
    | OpSetThreshold(scope: Scope, threshold: Option<nat>)
    | OpCreateStores
    | OpSetActiveProducts(products: seq<ProductId>)
    // inventory
    | OpCreateIssue(source: Location, destination: Location, lines: seq<ItemQty>)
    | OpPostIssue(id: nat, override: bool)
    | OpCreateTransfer(source: Location, destination: Location, lines: seq<ItemQty>)
    | OpPostTransfer(id: nat)
    | OpOpenTake(location: Location)
    | OpRecordCounts(id: nat, counts: seq<ItemQty>)
    | OpPostTake(id: nat)
    // wastage
    | OpCreateWastage(entryType: EntryType, product: ProductId, where: Option<Location>, qty: int)
    // approvals
    | OpDecide(approval: nat, decision: ApprovalStatus, reasonGiven: bool)
    // POS and menu
    | OpIngest(saleId: string, soldOn: Option<Date>, raw: seq<RawLine>)
    | OpReplay(id: nat)
    | OpCreateMenuItem(posCode: string)
    | OpCreateRecipe(posCode: string, recipe: seq<RecipeLine>)
    | OpSubmitRecipe(posCode: string, version: nat)
    | OpPublishRecipe(posCode: string, version: nat, effectiveFrom: Option<Date>)
    // procurement
    | OpCreateBudget(products: seq<ProductId>)
    | OpSubmitBudget(id: nat)
    | OpCreatePo(budget: nat, supplier: nat, poLines: seq<PoLine>)
    | OpSendPo(po: nat, hasEmail: bool)
    | OpPostGrn(po: nat, received: seq<GrnLine>)
    | OpMatchInvoice(po: nat, ref: string, amount: int)
    // Pastel
    | OpDrain(due: set<nat>, answers: seq<D.Answer>)
    | OpResend(id: nat, answer: D.Answer)

  function SetThreshold(s: State, scope: Scope, threshold: Option<nat>): State {
    s.(thresholds := if threshold.Some? then s.thresholds[scope := threshold.value] else s.thresholds - {scope})
  }

  function WithOutbox(s: State, outbox: Result<seq<OutboxRecord>>): Result<State> {
    if outbox.Err? then Err(outbox.error) else Ok(s.(books := s.books.(outbox := outbox.value)))
  }

  function Step(s: State, op: Op): Result<State> {
    match op
    case OpSetThreshold(scope, threshold) => Ok(SetThreshold(s, scope, threshold))
    case OpCreateStores => Ok(s.(storesConfigured := true))
    case OpSetActiveProducts(products) => if Distinct(products) then Ok(s.(activeProducts := products)) else Err(InvalidInput)
    case OpCreateIssue(source, destination, lines) => CreateIssue(s, source, destination, lines)
    case OpPostIssue(id, override) => PostIssue(s, id, override)
    case OpCreateTransfer(source, destination, lines) => CreateTransfer(s, source, destination, lines)
    case OpPostTransfer(id) => PostTransfer(s, id, false)
    case OpOpenTake(location) => Ok(OpenTake(s, location))
    case OpRecordCounts(id, counts) => RecordCounts(s, id, counts)
    case OpPostTake(id) => PostTake(s, id, false)
    case OpCreateWastage(entryType, product, where, qty) => CreateWastage(s, entryType, product, where, qty)
    case OpDecide(approval, decision, reasonGiven) => Decide(s, approval, decision, reasonGiven)
    case OpIngest(saleId, soldOn, raw) => Ingest(s, saleId, soldOn, raw)
    case OpReplay(id) => Replay(s, id)
    case OpCreateMenuItem(posCode) => CreateMenuItem(s, posCode)
    case OpCreateRecipe(posCode, recipe) => CreateRecipe(s, posCode, recipe)
    case OpSubmitRecipe(posCode, version) => SubmitRecipe(s, posCode, version)
    case OpPublishRecipe(posCode, version, effectiveFrom) => PublishRecipe(s, posCode, version, effectiveFrom)
    case OpCreateBudget(products) =>
      if Distinct(products) then Ok(s.(budgets := s.budgets + [Budget(products, BudgetDraft)])) else Err(ConstraintViolation)
    case OpSubmitBudget(id) => SubmitBudget(s, id)
    case OpCreatePo(budget, supplier, poLines) => CreatePo(s, budget, supplier, poLines)
    case OpSendPo(po, hasEmail) => SendPo(s, po, hasEmail)
    case OpPostGrn(po, received) => PostGrn(s, po, received)
    case OpMatchInvoice(po, ref, amount) => MatchInvoice(s, po, ref, amount)
    case OpDrain(due, answers) => WithOutbox(s, Ok(D.Drain(s.books.outbox, due, answers)))
    case OpResend(id, answer) => WithOutbox(s, D.Resend(s.books.outbox, id, answer))
  }

  /** A rolled-back step leaves every table alone. */
  function Next(s: State, op: Op): State {
    var r := Step(s, op);
    if r.Ok? then r.value else s
  }

  /** The state after a run of calls from an empty installation. */
  function After(factors: Factors, ops: seq<Op>): State {
    if ops == [] then Initial(factors) else Next(After(factors, ops[..|ops| - 1]), ops[|ops| - 1])
  }
}
