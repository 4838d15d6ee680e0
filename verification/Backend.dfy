/** The back office as its code runs: tables updated in place, call by call, with explicit
    rollback. Every service method is proved to do to the tables what its specification says. */
module Backend {
  import opened Prelude
  import opened Ledger
  import opened Recipes
  import opened Deduction
  import opened Model
  import opened Services
  import opened System
  import opened StockTables
  import opened RecipeTables
  import opened Builders
  import D = Delivery

  /** The call did what its specification says: committed the new tables, or rolled back. */
  predicate Outcome(spec: Result<State>, before: State, after: State, error: Option<Error>) {
    match spec
    case Ok(s) => after == s && error.None?
    case Err(e) => after == before && error == Some(e)
  }

  /** The first `n` items already looked up again. */
  function Partly(items: seq<OrderItem>, before: seq<OrderItem>, n: nat): (mixed: seq<OrderItem>)
    requires n <= |items| == |before|
    ensures |mixed| == |items|
  {
    items[..n] + before[n..]
  }

  lemma OneMoreResolved(items: seq<OrderItem>, before: seq<OrderItem>, n: nat)
    requires n < |items| == |before|
    ensures Partly(items, before, n)[n] == before[n]
    ensures Partly(items, before, n + 1) == Partly(items, before, n)[n := items[n]]
    ensures Resolved(items[..n + 1]) <==> Resolved(items[..n]) && items[n].recipe.Some?
  {
    assert items[..n + 1] == items[..n] + [items[n]];
    assert items[..n + 1][n] == items[n];
  }

  class BackOffice {
    const stock: StockLedger
    const recipes: RecipeBook
    const factors: Factors
    var thresholds: map<Scope, nat>
    var approvals: seq<Approval>
    var storesConfigured: bool
    var activeProducts: seq<ProductId>
    var transfers: seq<Move>
    var issues: seq<Move>
    var takes: seq<StockTake>
    var wastage: seq<WastageEntry>
    var sales: seq<Sale>
    var budgets: seq<Budget>
    var orders: seq<PurchaseOrder>
    var grns: seq<Grn>
    var invoices: seq<Invoice>

    constructor (factors: Factors)
      ensures Tables() == Initial(factors)
      ensures fresh(stock) && fresh(recipes)
    {
      stock := new StockLedger();
      recipes := new RecipeBook();
      this.factors := factors;
      thresholds, approvals, storesConfigured, activeProducts := map[], [], false, [];
      transfers, issues, takes, wastage, sales := [], [], [], [], [];
      budgets, orders, grns, invoices := [], [], [], [];
    }

    ghost function Tables(): State
      reads this, stock, recipes
    {
      State(stock.Contents(), thresholds, approvals, storesConfigured, activeProducts, factors,
            transfers, issues, takes, wastage, recipes.menu, sales, budgets, orders, grns, invoices)
    }

    // ----- core/services.py -----

    /** `submit_for_approval`, snapshotting the threshold in force. */
    method SubmitToManager(subject: Subject, scope: Scope)
      modifies this`approvals
      ensures Tables() == SubmitForApproval(old(Tables()), subject, scope)
    {
      var snapshot := None;
      if scope in thresholds {
        snapshot := Some(thresholds[scope]);
      }
      approvals := approvals + [Approval(subject, Some(scope), snapshot, Undecided)];
    }

    /** `decide_approval`. */
    method DecideApproval(a: nat, decision: ApprovalStatus, reasonGiven: bool) returns (error: Option<Error>)
      modifies this, stock
      ensures Outcome(Decide(old(Tables()), a, decision, reasonGiven), old(Tables()), Tables(), error)
    {
      if a >= |approvals| {
        return Some(NotFound);
      }
      if decision.Undecided? {
        return Some(InvalidInput);
      }
      if !approvals[a].status.Undecided? && !approvals[a].status.Investigation? {
        return Some(InvalidState);
      }
      if decision.Rejected? && !reasonGiven {
        return Some(InvalidInput);
      }
      var saved := approvals;
      approvals := approvals[a := approvals[a].(status := decision)];
      error := OnApprovalDecided(approvals[a].subject, decision);
      if error.Some? {
        approvals := saved;
      }
    }

    /** The subject's `on_approval_decided`. */
    method OnApprovalDecided(subject: Subject, decision: ApprovalStatus) returns (error: Option<Error>)
      modifies this, stock
      ensures Outcome(Callback(old(Tables()), subject, decision), old(Tables()), Tables(), error)
    {
      match subject
      case OnTransfer(id) => error := TransferDecided(id, decision);
      case OnTake(id) =>
        if id < |takes| && decision.Approved? {
          error := PostStockTake(id, true);
        } else {
          return None;
        }
      case OnWastage(id) => error := WastageDecided(id, decision);
      case OnBudget(id) =>
        if id < |budgets| {
          BudgetDecided(id, decision);
        }
        return None;
    }

    /** `Transfer.on_approval_decided`. */
    method TransferDecided(id: nat, decision: ApprovalStatus) returns (error: Option<Error>)
      modifies this, stock
      ensures Outcome(Callback(old(Tables()), OnTransfer(id), decision), old(Tables()), Tables(), error)
    {
      if id >= |transfers| {
        return None;
      }
      if decision.Approved? {
        error := PostStockTransfer(id, true);
      } else {
        if decision.Rejected? {
          transfers := transfers[id := transfers[id].(status := RejectedDoc)];
        }
        return None;
      }
    }

    /** `WastageEntry.on_approval_decided`. */
    method WastageDecided(id: nat, decision: ApprovalStatus) returns (error: Option<Error>)
      modifies this, stock
      ensures Outcome(Callback(old(Tables()), OnWastage(id), decision), old(Tables()), Tables(), error)
    {
      if id >= |wastage| {
        return None;
      }
      if decision.Approved? {
        error := PostEntry(id);
      } else {
        if decision.Rejected? {
          wastage := wastage[id := wastage[id].(status := RejectedDoc)];
        }
        return None;
      }
    }

    /** `PurchaseBudget.on_approval_decided`. */
    method BudgetDecided(id: nat, decision: ApprovalStatus)
      requires id < |budgets|
      modifies this`budgets
      ensures Callback(old(Tables()), OnBudget(id), decision) == Ok(Tables())
    {
      if decision.Approved? {
        budgets := budgets[id := budgets[id].(status := BudgetApproved)];
      } else if decision.Rejected? {
        budgets := budgets[id := budgets[id].(status := BudgetRejected)];
      }
    }

    // ----- inventory/services.py -----

    method CreateIssueNote(source: Location, destination: Location, lines: seq<ItemQty>) returns (error: Option<Error>)
      modifies this`issues
      ensures Outcome(CreateIssue(old(Tables()), source, destination, lines), old(Tables()), Tables(), error)
    {
      if lines == [] {
        return Some(EmptyLines);
      }
      if source == destination {
        return Some(InvalidInput);
      }
      issues := issues + [Move(source, destination, [], DraftDoc)];
      if ValidItems(lines) {
        var id := |issues| - 1;
        issues := issues[id := issues[id].(lines := lines)];
      }
      return None;
    }

    /** `post_issue_note`. */
    method PostIssueNote(id: nat, override: bool) returns (error: Option<Error>)
      modifies this, stock
      ensures Outcome(PostIssue(old(Tables()), id, override), old(Tables()), Tables(), error)
    {
      if id >= |issues| {
        return Some(NotFound);
      }
      if issues[id].status.PostedDoc? {
        return None;
      }
      var movementLines := BuildPairs(issues[id], Sides(IssueOut, IssueIn));
      var posted := stock.PostMovements(IssueDocument(id), movementLines, override);
      if posted.Err? {
        return Some(posted.error);
      }
      issues := issues[id := issues[id].(status := PostedDoc)];
      return None;
    }

    method CreateStockTransfer(source: Location, destination: Location, lines: seq<ItemQty>) returns (error: Option<Error>)
      modifies this`transfers
      ensures Outcome(CreateTransfer(old(Tables()), source, destination, lines), old(Tables()), Tables(), error)
    {
      if lines == [] {
        return Some(EmptyLines);
      }
      if source == destination {
        return Some(ConstraintViolation);
      }
      transfers := transfers + [Move(source, destination, [], DraftDoc)];
      if ValidItems(lines) {
        var id := |transfers| - 1;
        transfers := transfers[id := transfers[id].(lines := lines)];
      }
      return None;
    }

    /** `post_transfer`. */
    method PostStockTransfer(id: nat, skipApproval: bool) returns (error: Option<Error>)
      modifies this, stock
      ensures Outcome(PostTransfer(old(Tables()), id, skipApproval), old(Tables()), Tables(), error)
    {
      if id >= |transfers| {
        return Some(NotFound);
      }
      if transfers[id].status.PostedDoc? {
        return None;
      }
      if transfers[id].lines == [] {
        return Some(EmptyLines);
      }
      var value := LinesValue(stock.ledger, transfers[id].lines);
      if !skipApproval && RequiresApproval(thresholds, TransferScope, value) {
        transfers := transfers[id := transfers[id].(status := PendingApproval)];
        SubmitToManager(OnTransfer(id), TransferScope);
        return None;
      }
      var movementLines := BuildPairs(transfers[id], Sides(TransferOut, TransferIn));
      var posted := stock.PostMovements(TransferDocument(id), movementLines, false);
      if posted.Err? {
        return Some(posted.error);
      }
      transfers := transfers[id := transfers[id].(status := PostedDoc)];
      return None;
    }

    /** `open_stock_take`. */
    method OpenStockTake(location: Location)
      modifies this`takes
      ensures Tables() == OpenTake(old(Tables()), location)
    {
      takes := takes + [StockTake(location, [], DraftDoc)];
      var lines := BuildSheet(activeProducts, stock.balances, location);
      takes := takes[|takes| - 1 := takes[|takes| - 1].(lines := lines)];
      assert lines == OpenTake(old(Tables()), location).takes[|takes| - 1].lines;
    }

    /** `StockTakeLinesUpdateView.put`. */
    method EnterStockCounts(id: nat, counts: seq<ItemQty>) returns (error: Option<Error>)
      modifies this`takes
      ensures Outcome(RecordCounts(old(Tables()), id, counts), old(Tables()), Tables(), error)
    {
      if id >= |takes| {
        return Some(NotFound);
      }
      if counts == [] || exists i :: 0 <= i < |counts| && counts[i].qty < 0 {
        return Some(InvalidInput);
      }
      var lines := EnterCounts(takes[id].lines, counts);
      if lines.None? {
        return Some(InvalidInput);
      }
      takes := takes[id := takes[id].(lines := lines.value)];
      assert RecordCounts(old(Tables()), id, counts).value.takes[id].lines == lines.value;
      return None;
    }

    /** `post_stock_take`. */
    method PostStockTake(id: nat, skipApproval: bool) returns (error: Option<Error>)
      modifies this, stock
      ensures Outcome(PostTake(old(Tables()), id, skipApproval), old(Tables()), Tables(), error)
    {
      if id >= |takes| {
        return Some(NotFound);
      }
      if takes[id].status.PostedDoc? {
        return None;
      }
      var variant := BuildVariant(takes[id].lines);
      if variant == [] {
        takes := takes[id := takes[id].(status := PostedDoc)];
        return None;
      }
      var value := LinesValue(stock.ledger, Unsigned(variant));
      if !skipApproval && RequiresApproval(thresholds, AdjustmentScope, value) {
        takes := takes[id := takes[id].(status := PendingApproval)];
        SubmitToManager(OnTake(id), AdjustmentScope);
        return None;
      }
      var movementLines := BuildAdjustments(takes[id].location, variant);
      var posted := stock.PostMovements(TakeDocument(id), movementLines, true);
      if posted.Err? {
        return Some(posted.error);
      }
      takes := takes[id := takes[id].(status := PostedDoc)];
      return None;
    }

    // ----- wastage/services.py -----

    /** `create_extra_usage` and `create_wastage`, with `_route_and_post`. */
    method LogWastage(entryType: EntryType, p: ProductId, location: Option<Location>, qty: int) returns (error: Option<Error>)
      modifies this, stock
      ensures Outcome(CreateWastage(old(Tables()), entryType, p, location, qty), old(Tables()), Tables(), error)
    {
      if qty <= 0 {
        return Some(InvalidInput);
      }
      if location.None? && !storesConfigured {
        return Some(NotConfigured);
      }
      var where := if location.Some? then location.value else Stores;
      var value := LatestUnitCost(stock.ledger, p) * qty;
      var saved, id := wastage, |wastage|;
      wastage := wastage + [WastageEntry(entryType, Key(p, where), qty, value, DraftDoc)];
      if RequiresApproval(thresholds, WastageThreshold(entryType), value) {
        wastage := wastage[id := wastage[id].(status := PendingApproval)];
        SubmitToManager(OnWastage(id), WastageThreshold(entryType));
        return None;
      }
      error := PostEntry(id);
      if error.Some? {
        wastage := saved;
      }
    }

    /** `post_wastage_entry`. */
    method PostEntry(id: nat) returns (error: Option<Error>)
      requires id < |wastage|
      modifies this, stock
      ensures Outcome(PostWastageEntry(old(Tables()), id), old(Tables()), Tables(), error)
    {
      if wastage[id].status.PostedDoc? {
        return None;
      }
      var posted := stock.PostMovements(WastageDocument(id), WastageLines(wastage[id]), true);
      if posted.Err? {
        return Some(posted.error);
      }
      wastage := wastage[id := wastage[id].(status := PostedDoc)];
      return None;
    }

    // ----- pos_ingest/services.py -----

    /** The item loop of `ingest_sale_event`: one order item per sale line, each with the recipe
        in force on the day of the sale. Stops at a quantity the database refuses. */
    method CreateItems(id: nat, raw: seq<RawLine>) returns (refused: bool, unknownItem: bool)
      requires id < |sales| && sales[id].items == []
      modifies this`sales
      ensures refused == exists n :: 0 <= n < |raw| && raw[n].qty <= 0
      ensures var items := NewItems(recipes.menu, raw, old(sales)[id].soldOn);
        !refused ==> sales == old(sales)[id := old(sales)[id].(items := items)] && unknownItem == !Resolved(items)
    {
      refused, unknownItem := false, false;
      var soldOn := sales[id].soldOn;
      ghost var items := NewItems(recipes.menu, raw, soldOn);
      for n := 0 to |raw|
        modifies this`sales
        invariant sales == old(sales)[id := old(sales)[id].(items := items[..n])]
        invariant unknownItem == !Resolved(items[..n])
        invariant forall m :: 0 <= m < n ==> raw[m].qty > 0
      {
        var recipe := Resolve(recipes.menu, raw[n].posCode, soldOn);
        assert items[..n + 1] == items[..n] + [items[n]];
        if recipe.None? {
          unknownItem := true;
          assert items[..n + 1][n].recipe.None?;
        }
        if raw[n].qty <= 0 {
          return true, unknownItem;
        }
        sales := sales[id := sales[id].(items := sales[id].items + [OrderItem(raw[n].posCode, raw[n].qty, recipe)])];
      }
      assert items[..|raw|] == items;
    }

    /** `ingest_sale_event`. */
    method IngestSale(saleId: string, soldOn: Option<Date>, raw: seq<RawLine>) returns (error: Option<Error>)
      modifies this, stock
      ensures Outcome(Ingest(old(Tables()), saleId, soldOn, raw), old(Tables()), Tables(), error)
    {
      if saleId == "" || soldOn.None? || raw == [] {
        return Some(InvalidInput);
      }
      if exists i :: 0 <= i < |sales| && sales[i].saleId == saleId {
        return None;
      }
      var saved, id := sales, |sales|;
      sales := sales + [Sale(saleId, soldOn.value, [], Ingested, false, 0)];
      var refused, unknownItem := CreateItems(id, raw);
      if refused {
        sales := saved;
        return Some(ConstraintViolation);
      }
      ghost var items := NewItems(recipes.menu, raw, soldOn.value);
      assert sales == saved + [Sale(saleId, soldOn.value, items, Ingested, false, 0)];
      if unknownItem {
        sales := sales[id := sales[id].(status := FlaggedUnknownItem)];
        assert sales == saved + [Sale(saleId, soldOn.value, items, FlaggedUnknownItem, false, 0)];
        return None;
      }
      if !storesConfigured {
        sales := saved;
        return Some(NotConfigured);
      }
      error := DeductStock(id);
      if error.Some? {
        sales := saved;
      }
    }

    /** The strict posting of `ingest_sale_event` and its fallback. */
    method DeductStock(id: nat) returns (error: Option<Error>)
      requires id < |sales| && Resolved(sales[id].items)
      modifies this`sales, stock
      ensures match Deduct(old(Tables()), id)
        case Ok(s) => Tables() == s && error.None?
        case Err(e) => Tables() == old(Tables()).(sales := sales) && error == Some(e)
    {
      var deductions := BuildDeductions(recipes.menu, factors, sales[id].items);
      var posted := stock.PostMovements(OrderDocument(id), deductions.value, false);
      if posted.Err? && posted.error.InsufficientStock? {
        sales := sales[id := sales[id].(insufficient := true)];
        posted := stock.PostMovements(OrderDocument(id), deductions.value, true);
      }
      if posted.Err? {
        return Some(posted.error);
      }
      return None;
    }

    method ReresolveItem(id: nat, n: nat) returns (resolved: bool)
      requires id < |sales| && n < |sales[id].items|
      modifies this`sales
      ensures var sale := old(sales)[id];
        var item := Reresolve(recipes.menu, sale.items[n], sale.soldOn);
        sales == old(sales)[id := sale.(items := sale.items[n := item])] && resolved == item.recipe.Some?
    {
      var item := sales[id].items[n];
      assert sales[id].items[n := item] == sales[id].items && sales[id := sales[id]] == sales;
      if item.recipe.None? {
        var recipe := Resolve(recipes.menu, item.posCode, sales[id].soldOn);
        if recipe.None? {
          return false;
        }
        item := item.(recipe := recipe);
        sales := sales[id := sales[id].(items := sales[id].items[n := item])];
      }
      return true;
    }

    /** The item loop of `replay_sale_event`: looks up only the items without a snapshot. */
    method ReresolveItems(id: nat) returns (resolvedAll: bool)
      requires id < |sales|
      modifies this`sales
      ensures var items := ReresolveAll(recipes.menu, old(sales)[id].items, old(sales)[id].soldOn);
        sales == old(sales)[id := old(sales)[id].(items := items)] && resolvedAll == Resolved(items)
    {
      resolvedAll := true;
      ghost var sale := sales[id];
      ghost var items := ReresolveAll(recipes.menu, sale.items, sale.soldOn);
      assert Partly(items, sale.items, 0) == sale.items;
      for n := 0 to |sales[id].items|
        modifies this`sales
        invariant sales == old(sales)[id := sale.(items := Partly(items, sale.items, n))]
        invariant resolvedAll == Resolved(items[..n])
      {
        OneMoreResolved(items, sale.items, n);
        var resolved := ReresolveItem(id, n);
        if !resolved {
          resolvedAll := false;
        }
      }
      assert Partly(items, sale.items, |items|) == items && items[..|items|] == items;
    }

    /** `replay_sale_event`. */
    method ReplaySale(id: nat) returns (error: Option<Error>)
      modifies this, stock
      ensures Outcome(Replay(old(Tables()), id), old(Tables()), Tables(), error)
    {
      if id >= |sales| {
        return Some(NotFound);
      }
      var saved := sales;
      sales := sales[id := sales[id].(replays := sales[id].replays + 1)];
      var resolvedAll := ReresolveItems(id);
      if !resolvedAll {
        sales := sales[id := sales[id].(status := FlaggedUnknownItem)];
        return None;
      }
      if !storesConfigured {
        sales := saved;
        return Some(NotConfigured);
      }
      error := DeductReplayed(id);
      if error.Some? {
        sales := saved;
        return;
      }
      sales := sales[id := sales[id].(status := Replayed)];
    }

    /** The posting of `replay_sale_event`, always with the override. */
    method DeductReplayed(id: nat) returns (error: Option<Error>)
      requires id < |sales| && Resolved(sales[id].items)
      modifies stock
      ensures var posting := OrderPosting(old(Tables()), id, sales[id].items);
        if posting.lines == [] then Tables() == old(Tables()) && error.None?
        else Outcome(PostTo(old(Tables()), posting, true), old(Tables()), Tables(), error)
    {
      var deductions := BuildDeductions(recipes.menu, factors, sales[id].items);
      if deductions.value != [] {
        var posted := stock.PostMovements(OrderDocument(id), deductions.value, true);
        if posted.Err? {
          return Some(posted.error);
        }
      }
      return None;
    }

    // ----- menu/services.py, for an item that may not exist -----

    method AddMenuItem(posCode: string) returns (error: Option<Error>)
      modifies recipes
      ensures Outcome(CreateMenuItem(old(Tables()), posCode), old(Tables()), Tables(), error)
    {
      error := recipes.AddMenuItem(posCode);
    }

    method DraftRecipe(posCode: string, lines: seq<RecipeLine>) returns (error: Option<Error>)
      modifies recipes
      ensures Outcome(CreateRecipe(old(Tables()), posCode, lines), old(Tables()), Tables(), error)
    {
      if posCode !in recipes.menu {
        return Some(NotFound);
      }
      error := recipes.CreateRecipeVersion(posCode, lines);
    }

    method ReviewRecipe(posCode: string, version: nat) returns (error: Option<Error>)
      requires StoredVersions(recipes.menu)
      modifies recipes
      ensures Outcome(SubmitRecipe(old(Tables()), posCode, version), old(Tables()), Tables(), error)
    {
      if posCode !in recipes.menu {
        return Some(NotFound);
      }
      error := recipes.Submit(posCode, version);
    }

    method IssueRecipe(posCode: string, version: nat, effectiveFrom: Option<Date>) returns (error: Option<Error>)
      modifies recipes
      ensures Outcome(PublishRecipe(old(Tables()), posCode, version, effectiveFrom), old(Tables()), Tables(), error)
    {
      if posCode !in recipes.menu {
        return Some(NotFound);
      }
      error := recipes.PublishVersion(posCode, version, effectiveFrom);
    }

    // ----- pastel/tasks.py and views.py -----

    method DrainOutbox(due: set<nat>, answers: seq<D.Answer>)
      modifies stock
      ensures WithOutbox(old(Tables()), Ok(D.Drain(old(Tables()).books.outbox, due, answers))) == Ok(Tables())
    {
      var count, skipped := stock.DrainRecords(due, answers);
    }

    method ResendRecord(id: nat, answer: D.Answer) returns (error: Option<Error>)
      modifies stock
      ensures Outcome(WithOutbox(old(Tables()), D.Resend(old(Tables()).books.outbox, id, answer)), old(Tables()), Tables(), error)
    {
      var raised;
      error, raised := stock.Resend(id, answer);
    }

    // ----- procurement/services.py -----

    /** `submit_budget`. */
    method SubmitForBudget(id: nat) returns (error: Option<Error>)
      modifies this`budgets, this`approvals
      ensures Outcome(SubmitBudget(old(Tables()), id), old(Tables()), Tables(), error)
    {
      if id >= |budgets| {
        return Some(NotFound);
      }
      if !budgets[id].status.BudgetDraft? {
        return Some(InvalidState);
      }
      budgets := budgets[id := budgets[id].(status := BudgetSubmitted)];
      approvals := approvals + [Approval(OnBudget(id), None, None, Undecided)];
      return None;
    }

    /** `create_po`. */
    method RaiseOrder(budget: nat, supplier: nat, lines: seq<PoLine>) returns (error: Option<Error>)
      modifies this`orders
      ensures Outcome(CreatePo(old(Tables()), budget, supplier, lines), old(Tables()), Tables(), error)
    {
      if budget >= |budgets| {
        return Some(NotFound);
      }
      if !budgets[budget].status.BudgetApproved? {
        return Some(InvalidState);
      }
      if lines == [] {
        return Some(EmptyLines);
      }
      if !Distinct(PoProducts(lines)) {
        return Some(InvalidInput);
      }
      if exists i :: 0 <= i < |lines| && lines[i].product !in budgets[budget].products {
        return Some(InvalidInput);
      }
      var saved := orders;
      orders := orders + [PurchaseOrder(supplier, [], Created)];
      if !ValidPoLines(lines) {
        orders := saved;
        return Some(ConstraintViolation);
      }
      orders := orders[|saved| := orders[|saved|].(lines := lines)];
      return None;
    }

    /** `send_po`. */
    method SendOrder(po: nat, hasEmail: bool) returns (error: Option<Error>)
      modifies this`orders
      ensures Outcome(SendPo(old(Tables()), po, hasEmail), old(Tables()), Tables(), error)
    {
      if po >= |orders| {
        return Some(NotFound);
      }
      if hasEmail {
        orders := orders[po := orders[po].(status := SentToSupplier)];
      } else {
        orders := orders[po := orders[po].(status := ManualContact)];
      }
      return None;
    }

    /** The last loop of `post_grn`: adds what was received to each PO line. */
    method FulfilLines(po: nat, lines: seq<GrnLine>)
      requires po < |orders| && LinesOfPo(orders[po], lines)
      modifies this`orders
      ensures orders == old(orders)[po := old(orders)[po].(lines := Fulfil(old(orders)[po].lines, lines))]
    {
      ghost var before := orders[po].lines;
      assert Fulfil(before, lines[..0]) == before;
      for n := 0 to |lines|
        modifies this`orders
        invariant orders == old(orders)[po := old(orders)[po].(lines := Fulfil(before, lines[..n]))]
      {
        OneMoreFulfilled(before, lines, n);
        var poLine := orders[po].lines[lines[n].poLine];
        poLine := poLine.(fulfilled := poLine.fulfilled + lines[n].qty);
        orders := orders[po := orders[po].(lines := orders[po].lines[lines[n].poLine := poLine])];
      }
      assert lines[..|lines|] == lines;
    }

    /** `post_grn`. */
    method ReceiveGoods(po: nat, lines: seq<GrnLine>) returns (error: Option<Error>)
      modifies this, stock
      ensures Outcome(PostGrn(old(Tables()), po, lines), old(Tables()), Tables(), error)
    {
      if po >= |orders| {
        return Some(NotFound);
      }
      if lines == [] {
        return Some(EmptyLines);
      }
      if !Distinct(SubmittedLines(lines)) || !LinesOfPo(orders[po], lines) {
        return Some(InvalidInput);
      }
      if !storesConfigured {
        return Some(NotConfigured);
      }
      var saved, id := grns, |grns|;
      grns := grns + [Grn(po, [])];
      if !ValidGrnLines(lines) {
        grns := saved;
        return Some(ConstraintViolation);
      }
      grns := grns[id := grns[id].(lines := lines)];
      assert grns == saved + [Grn(po, lines)];
      error := StoreReceipt(po, id, lines);
      if error.Some? {
        grns := saved;
        return;
      }
      UpdateOrder(po, lines);
    }

    /** The receipt rows of a GRN. */
    method StoreReceipt(po: nat, id: nat, lines: seq<GrnLine>) returns (error: Option<Error>)
      requires po < |orders| && LinesOfPo(orders[po], lines)
      modifies stock
      ensures Outcome(PostTo(old(Tables()), Posting(GrnDocument(id), ReceiptLines(orders[po], lines)), false),
                      old(Tables()), Tables(), error)
    {
      var movementLines := BuildReceipts(orders[po], lines);
      var posted := stock.PostMovements(GrnDocument(id), movementLines, false);
      if posted.Err? {
        return Some(posted.error);
      }
      return None;
    }

    /** The order's received quantities and status after a receipt. */
    method UpdateOrder(po: nat, lines: seq<GrnLine>)
      requires po < |orders| && LinesOfPo(orders[po], lines)
      modifies this`orders
      ensures var fulfilled := Fulfil(old(orders)[po].lines, lines);
        var status := if AllFulfilled(fulfilled) then Received else PartiallyReceived;
        orders == old(orders)[po := old(orders)[po].(lines := fulfilled, status := status)]
    {
      FulfilLines(po, lines);
      var status := if AllFulfilled(orders[po].lines) then Received else PartiallyReceived;
      orders := orders[po := orders[po].(status := status)];
    }

    /** `match_invoice`. */
    method RecordInvoice(po: nat, ref: string, amount: int) returns (error: Option<Error>)
      modifies this`invoices
      ensures Outcome(MatchInvoice(old(Tables()), po, ref, amount), old(Tables()), Tables(), error)
    {
      if po >= |orders| {
        return Some(NotFound);
      }
      var supplier := orders[po].supplier;
      if amount < 0 || exists i :: 0 <= i < |invoices| && invoices[i].supplier == supplier && invoices[i].ref == ref {
        return Some(ConstraintViolation);
      }
      var poValue := SumPo(orders[po].lines);
      var grnValue := SumGrns(grns, po);
      var poDiscrepancy, grnDiscrepancy := None, None;
      if amount * 1000 != poValue {
        poDiscrepancy := Some(poValue);
      }
      if amount * 1000 != grnValue {
        grnDiscrepancy := Some(grnValue);
      }
      invoices := invoices + [Invoice(supplier, ref, po, amount, poDiscrepancy, grnDiscrepancy)];
      return None;
    }

    // ----- one call -----

    method ConfigurationCall(op: Op) returns (error: Option<Error>)
      requires op.OpSetThreshold? || op.OpCreateStores? || op.OpSetActiveProducts?
      modifies this
      ensures Outcome(Step(old(Tables()), op), old(Tables()), Tables(), error)
    {
      if op.OpSetThreshold? {
        if op.threshold.Some? {
          thresholds := thresholds[op.scope := op.threshold.value];
        } else {
          thresholds := thresholds - {op.scope};
        }
      } else if op.OpCreateStores? {
        storesConfigured := true;
      } else {
        if !Distinct(op.products) {
          return Some(InvalidInput);
        }
        activeProducts := op.products;
      }
      return None;
    }

    method BudgetCall(op: Op) returns (error: Option<Error>)
      requires op.OpCreateBudget? || op.OpSubmitBudget?
      modifies this
      ensures Outcome(Step(old(Tables()), op), old(Tables()), Tables(), error)
    {
      if op.OpCreateBudget? {
        if !Distinct(op.products) {
          return Some(ConstraintViolation);
        }
        budgets := budgets + [Budget(op.products, BudgetDraft)];
        return None;
      } else {
        error := SubmitForBudget(op.id);
      }
    }

    method MoveCall(op: Op) returns (error: Option<Error>)
      requires op.OpCreateIssue? || op.OpPostIssue? || op.OpCreateTransfer? || op.OpPostTransfer?
      modifies this, stock
      ensures Outcome(Step(old(Tables()), op), old(Tables()), Tables(), error)
    {
      if op.OpCreateIssue? {
        error := CreateIssueNote(op.source, op.destination, op.lines);
      } else if op.OpPostIssue? {
        error := PostIssueNote(op.id, op.override);
      } else if op.OpCreateTransfer? {
        error := CreateStockTransfer(op.source, op.destination, op.lines);
      } else {
        error := PostStockTransfer(op.id, false);
      }
    }

    method CountCall(op: Op) returns (error: Option<Error>)
      requires op.OpOpenTake? || op.OpRecordCounts? || op.OpPostTake?
      modifies this, stock
      ensures Outcome(Step(old(Tables()), op), old(Tables()), Tables(), error)
    {
      if op.OpOpenTake? {
        OpenStockTake(op.location);
        return None;
      } else if op.OpRecordCounts? {
        error := EnterStockCounts(op.id, op.counts);
      } else {
        error := PostStockTake(op.id, false);
      }
    }

    method DecisionCall(op: Op) returns (error: Option<Error>)
      requires op.OpCreateWastage? || op.OpDecide?
      modifies this, stock
      ensures Outcome(Step(old(Tables()), op), old(Tables()), Tables(), error)
    {
      if op.OpCreateWastage? {
        error := LogWastage(op.entryType, op.product, op.where, op.qty);
      } else {
        error := DecideApproval(op.approval, op.decision, op.reasonGiven);
      }
    }

    method MenuCall(op: Op) returns (error: Option<Error>)
      requires op.OpCreateMenuItem? || op.OpCreateRecipe? || op.OpSubmitRecipe? || op.OpPublishRecipe?
      requires StoredVersions(recipes.menu)
      modifies recipes
      ensures Outcome(Step(old(Tables()), op), old(Tables()), Tables(), error)
    {
      if op.OpCreateMenuItem? {
        error := AddMenuItem(op.posCode);
      } else if op.OpCreateRecipe? {
        error := DraftRecipe(op.posCode, op.recipe);
      } else {
        error := VersionCall(op);
      }
    }

    method VersionCall(op: Op) returns (error: Option<Error>)
      requires op.OpSubmitRecipe? || op.OpPublishRecipe?
      requires StoredVersions(recipes.menu)
      modifies recipes
      ensures Outcome(Step(old(Tables()), op), old(Tables()), Tables(), error)
    {
      if op.OpSubmitRecipe? {
        error := ReviewRecipe(op.posCode, op.version);
      } else {
        error := IssueRecipe(op.posCode, op.version, op.effectiveFrom);
      }
    }

    method SalesCall(op: Op) returns (error: Option<Error>)
      requires op.OpIngest? || op.OpReplay?
      modifies this, stock
      ensures Outcome(Step(old(Tables()), op), old(Tables()), Tables(), error)
    {
      if op.OpIngest? {
        error := IngestSale(op.saleId, op.soldOn, op.raw);
      } else {
        error := ReplaySale(op.id);
      }
    }

    method OrderCall(op: Op) returns (error: Option<Error>)
      requires op.OpCreatePo? || op.OpSendPo?
      modifies this
      ensures Outcome(Step(old(Tables()), op), old(Tables()), Tables(), error)
    {
      if op.OpCreatePo? {
        error := RaiseOrder(op.budget, op.supplier, op.poLines);
      } else {
        error := SendOrder(op.po, op.hasEmail);
      }
    }

    method ReceiptCall(op: Op) returns (error: Option<Error>)
      requires op.OpPostGrn? || op.OpMatchInvoice?
      modifies this, stock
      ensures Outcome(Step(old(Tables()), op), old(Tables()), Tables(), error)
    {
      if op.OpPostGrn? {
        error := ReceiveGoods(op.po, op.received);
      } else {
        error := RecordInvoice(op.po, op.ref, op.amount);
      }
    }

    method PastelCall(op: Op) returns (error: Option<Error>)
      requires op.OpDrain? || op.OpResend?
      modifies stock
      ensures Outcome(Step(old(Tables()), op), old(Tables()), Tables(), error)
    {
      if op.OpDrain? {
        DrainOutbox(op.due, op.answers);
        return None;
      } else {
        error := ResendRecord(op.id, op.answer);
      }
    }

    /** One API call: the tables move exactly as one step of the state machine. */
    method Call(op: Op) returns (error: Option<Error>)
      requires StoredVersions(recipes.menu)
      modifies this, stock, recipes
      ensures Tables() == Next(old(Tables()), op)
      ensures error == match Step(old(Tables()), op) case Ok(_) => None case Err(e) => Some(e)
    {
      if op.OpSetThreshold? || op.OpCreateStores? || op.OpSetActiveProducts? {
        error := ConfigurationCall(op);
      } else if op.OpCreateIssue? || op.OpPostIssue? || op.OpCreateTransfer? || op.OpPostTransfer? {
        error := MoveCall(op);
      } else if op.OpOpenTake? || op.OpRecordCounts? || op.OpPostTake? {
        error := CountCall(op);
      } else if op.OpCreateWastage? || op.OpDecide? {
        error := DecisionCall(op);
      } else if op.OpIngest? || op.OpReplay? {
        error := SalesCall(op);
      } else if op.OpCreateMenuItem? || op.OpCreateRecipe? || op.OpSubmitRecipe? || op.OpPublishRecipe? {
        error := MenuCall(op);
      } else if op.OpCreateBudget? || op.OpSubmitBudget? {
        error := BudgetCall(op);
      } else if op.OpCreatePo? || op.OpSendPo? {
        error := OrderCall(op);
      } else if op.OpPostGrn? || op.OpMatchInvoice? {
        error := ReceiptCall(op);
      } else {
        error := PastelCall(op);
      }
    }
  }
}
