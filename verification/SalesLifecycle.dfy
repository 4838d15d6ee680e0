/** Ingestion and replay of POS sales (backend/apps/pos_ingest/services.py). */
module SalesLifecycle {
  import opened Prelude
  import opened Ledger
  import opened Accounting
  import opened Recipes
  import opened Deduction
  import opened Model
  import opened Services
  import opened System
  import opened Effects
  import opened Documents

  ghost predicate MenuInv(menu: Menu) {
    forall posCode :: posCode in menu ==> Chain(menu[posCode])
  }

  /** `product_recipe_factor_positive`. */
  predicate FactorsPositive(factors: Factors) {
    forall p :: p in factors ==> factors[p] > 0
  }

  /** A sale is flagged iff some item has no recipe, and otherwise its deduction is posted. */
  predicate SaleExact(s: State, id: nat)
    requires id < |s.sales|
  {
    var sale := s.sales[id];
    && sale.items != []
    && (forall i :: 0 <= i < |sale.items| ==> sale.items[i].qty > 0)
    && ValidRefs(s.menu, sale.items)
    && (sale.status.FlaggedUnknownItem? <==> !Resolved(sale.items))
    && (Resolved(sale.items) ==> IsPosted(s.books, OrderDocument(id)))
    && (sale.status.Ingested? ==> sale.replays == 0)
    && (sale.status.Replayed? ==> sale.replays > 0)
  }

  ghost predicate SaleInv(s: State) {
    && MenuInv(s.menu)
    && FactorsPositive(s.factors)
    && (forall id :: 0 <= id < |s.sales| ==> SaleExact(s, id))
    && (forall i, j :: 0 <= i < j < |s.sales| ==> s.sales[i].saleId != s.sales[j].saleId)
  }

  /** Valid references to a well-formed menu give usable recipes. */
  lemma RecipesUsable(menu: Menu, factors: Factors, items: seq<OrderItem>)
    requires MenuInv(menu) && FactorsPositive(factors) && ValidRefs(menu, items)
    requires forall i :: 0 <= i < |items| ==> items[i].qty > 0
    ensures PositiveRecipes(menu, factors, items)
    ensures items != [] && Resolved(items) ==> DeductionLines(Requirements(menu, factors, items)) != []
  {
    forall i | 0 <= i < |items| && items[i].recipe.Some?
      ensures RecipeLines(menu, items[i].recipe.value) != []
      ensures ValidRecipe(RecipeLines(menu, items[i].recipe.value))
    {
      var ref := items[i].recipe.value;
      assert ValidRef(menu, ref) && Chain(menu[ref.posCode]);
    }
    var reqs := Requirements(menu, factors, items);
    if items != [] && Resolved(items) {
      var last := items[|items| - 1];
      assert ItemRequirements(menu, factors, last) != [];
      assert reqs != [];
      ProductsListed(reqs);
      assert reqs[0].product in Products(reqs);
    }
  }

  lemma SaleFrame(s: State, s': State)
    requires SaleInv(s) && s'.sales == s.sales && s'.factors == s.factors
    requires MenuGrows(s.menu, s'.menu) && MenuInv(s'.menu)
    requires forall id :: 0 <= id < |s.sales| ==> IsPosted(s'.books, OrderDocument(id)) == IsPosted(s.books, OrderDocument(id))
    ensures SaleInv(s')
  {
    forall id | 0 <= id < |s'.sales|
      ensures SaleExact(s', id)
    {
      assert SaleExact(s, id);
      var items := s.sales[id].items;
      forall i | 0 <= i < |items| && items[i].recipe.Some?
        ensures ValidRef(s'.menu, items[i].recipe.value)
      {
        assert ValidRef(s.menu, items[i].recipe.value);
      }
    }
  }

  /** The sale as it stands after ingestion, and whether its deduction is in the ledger. */
  predicate IngestedAs(s: State, op: Op, s': State)
    requires op.OpIngest? && op.soldOn.Some?
  {
    var id, created := |s.sales|, CreatedSale(s, op);
    && op.raw != []
    && !KnownSale(s, op.saleId)
    && (forall i :: 0 <= i < |op.raw| ==> op.raw[i].qty > 0)
    && |s'.sales| == id + 1
    && s'.sales[..id] == s.sales
    && s'.sales[id] == created.sales[id].(insufficient := s'.sales[id].insufficient)
    && s' == s.(books := s'.books, sales := s'.sales)
    && (if Resolved(created.sales[id].items) then IsPosted(s'.books, OrderDocument(id)) else s'.books == s.books)
  }

  lemma IngestOutcome(s: State, op: Op, s': State)
    requires op.OpIngest? && Step(s, op) == Ok(s')
    ensures s' == s || (op.soldOn.Some? && IngestedAs(s, op, s'))
  {
    if s' != s {
      var id, created := |s.sales|, CreatedSale(s, op);
      if Resolved(created.sales[id].items) {
        DeductTables(created, id);
        DeductPosts(created, id);
      }
    }
  }

  lemma DeductPosts(s: State, id: nat)
    requires id < |s.sales| && Deduct(s, id).Ok?
    ensures IsPosted(Deduct(s, id).value.books, OrderDocument(id))
  {
    var posting := OrderPosting(s, id, s.sales[id].items);
    var flagged := s.(sales := s.sales[id := s.sales[id].(insufficient := true)]);
    if PostTo(s, posting, false).Ok? {
      PostToPosts(s, posting, false);
    } else {
      PostToPosts(flagged, posting, true);
    }
  }

  lemma IngestKeeps(s: State, op: Op, s': State)
    requires op.OpIngest? && op.soldOn.Some? && IngestedAs(s, op, s')
    requires PostsOnly(s, s', OrderDocument(|s.sales|), MayOverride(s, op))
    requires SaleInv(s)
    ensures SaleInv(s')
  {
    var id := |s.sales|;
    NewItemsValid(s.menu, op.raw, op.soldOn.value);
    forall other | 0 <= other < |s'.sales|
      ensures SaleExact(s', other)
    {
      if other < id {
        assert s'.sales[other] == s.sales[other];
        assert SaleExact(s, other);
        RowsFrame(s, s', OrderDocument(id), MayOverride(s, op), OrderDocument(other));
      }
    }
    forall i, j | 0 <= i < j < |s'.sales|
      ensures s'.sales[i].saleId != s'.sales[j].saleId
    {
      assert s'.sales[i] == s.sales[i];
      if j < id {
        assert s'.sales[j] == s.sales[j];
      }
    }
  }

  /** What a committed replay leaves behind. */
  predicate ReplayedAs(s: State, id: nat, items: seq<OrderItem>, s': State) {
    && id < |s.sales|
    && s' == s.(books := s'.books, sales := s'.sales)
    && s'.sales == RecordReplay(s, id, items, if Resolved(items) then Replayed else FlaggedUnknownItem).sales
  }

  lemma {:induction false} ReplayOutcome(s: State, id: nat, s': State)
    requires Replay(s, id) == Ok(s')
    ensures ReplayedAs(s, id, ReresolveAll(s.menu, s.sales[id].items, s.sales[id].soldOn), s')
  {
  }

  lemma {:induction false} ReplayKeeps(s: State, id: nat, s': State)
    requires Replay(s, id) == Ok(s') && SaleInv(s)
    ensures SaleInv(s')
  {
    var items := ReresolveAll(s.menu, s.sales[id].items, s.sales[id].soldOn);
    assert SaleExact(s, id);
    ReplayOutcome(s, id, s');
    ReplayEffect(s, id);
    ReresolvedValid(s.menu, s.sales[id].items, s.sales[id].soldOn);
    if Resolved(items) {
      ResolvedReplayPosts(s, id, items, s');
    }
    ReplayedKeeps(s, id, items, s');
  }

  lemma ResolvedReplayPosts(s: State, id: nat, items: seq<OrderItem>, s': State)
    requires Replay(s, id) == Ok(s') && MenuInv(s.menu) && FactorsPositive(s.factors) && s.sales[id].items != []
    requires items == ReresolveAll(s.menu, s.sales[id].items, s.sales[id].soldOn) && Resolved(items) && ValidRefs(s.menu, items)
    requires forall i :: 0 <= i < |items| ==> items[i].qty > 0
    ensures IsPosted(s'.books, OrderDocument(id))
  {
    RecipesUsable(s.menu, s.factors, items);
    PostToPosts(RecordReplay(s, id, items, Replayed), OrderPosting(s, id, items), true);
  }

  lemma ReplayedKeeps(s: State, id: nat, items: seq<OrderItem>, s': State)
    requires SaleInv(s) && ReplayedAs(s, id, items, s')
    requires |items| == |s.sales[id].items| && ValidRefs(s.menu, items)
    requires forall i :: 0 <= i < |items| ==> items[i].qty == s.sales[id].items[i].qty
    requires PostsOnly(s, s', OrderDocument(id), true)
    requires Resolved(items) ==> IsPosted(s'.books, OrderDocument(id))
    ensures SaleInv(s')
  {
    forall other | 0 <= other < |s'.sales|
      ensures SaleExact(s', other)
    {
      assert SaleExact(s, other);
      if other != id {
        RowsFrame(s, s', OrderDocument(id), true, OrderDocument(other));
      }
    }
  }

  lemma {:induction false} MenuStepKeeps(s: State, op: Op, s': State)
    requires MenuStep(op) && Step(s, op) == Ok(s') && MenuInv(s.menu)
    ensures MenuInv(s'.menu)
  {
    MenuOutcome(s, op, s');
    HistoryStaysChained(s.menu, op);
  }

  lemma {:induction false} HistoryStaysChained(menu: Menu, op: Op)
    requires MenuStep(op) && HistoryAfter(menu, op).Ok? && MenuInv(menu)
    ensures Chain(HistoryAfter(menu, op).value)
  {
    match op
    case OpCreateMenuItem(_) =>
    case OpCreateRecipe(posCode, recipe) => OtherStepsKeepChain(menu[posCode], recipe, 0);
    case OpSubmitRecipe(posCode, version) => OtherStepsKeepChain(menu[posCode], [], version);
    case OpPublishRecipe(posCode, version, effectiveFrom) => PublishKeepsChain(menu[posCode], version, effectiveFrom);
  }

  // ----- what the invariant means -----

  /** A sale is INGESTED or REPLAYED iff every item has a recipe iff the ledger holds the order's
      deduction, INGESTED meaning that it was never replayed; the rows are then one per product,
      of the order's exact need. */
  lemma SaleStatusMeans(s: State, id: nat)
    requires SaleInv(s) && BooksInv(s.books) && BackedInv(s) && id < |s.sales|
    ensures var sale := s.sales[id];
      && (!sale.status.FlaggedUnknownItem? <==> Resolved(sale.items))
      && (sale.status.Ingested? <==> Resolved(sale.items) && sale.replays == 0)
      && (Resolved(sale.items) <==> IsPosted(s.books, OrderDocument(id)))
      && (Resolved(sale.items) ==> DocRows(s.books.ledger, OrderDocument(id)) == Rows(OrderPosting(s, id, sale.items)))
  {
    assert SaleExact(s, id);
    if IsPosted(s.books, OrderDocument(id)) {
      var posting := PayloadOf(s, OrderDocument(id));
    }
  }

  /** Some product's Stores balance would go below zero. */
  ghost predicate Short(s: State, items: seq<OrderItem>) {
    exists p :: OnHand(s.books.balances, Key(p, Stores)) * FINE < Need(s.menu, s.factors, items, p)
      && Need(s.menu, s.factors, items, p) != 0
  }

  /** Every product used is deducted by at least half a thousandth, so its row is not zero. */
  ghost predicate Storable(s: State, items: seq<OrderItem>) {
    forall p :: Need(s.menu, s.factors, items, p) != 0 ==> Round(-Need(s.menu, s.factors, items, p)) != 0
  }

  lemma DeductionFaults(s: State, id: nat, items: seq<OrderItem>, override: bool)
    requires PositiveRecipes(s.menu, s.factors, items)
    ensures FirstFault(s.books.balances, OrderPosting(s, id, items).lines, override).None? <==>
      Storable(s, items) && (override || !Short(s, items))
  {
    var lines := OrderPosting(s, id, items).lines;
    DeductionRefinesNeed(s.menu, s.factors, items);
    DistinctFaultFree(s.books.balances, lines, override);
    LinesDrawFine(s, lines, items, override);
    DrawsFineMeans(s, items, override);
  }

  /** Every line of the deduction is accepted exactly when every product needed can be drawn. */
  lemma LinesDrawFine(s: State, lines: seq<Line>, items: seq<OrderItem>, override: bool)
    requires forall i :: 0 <= i < |lines| ==>
      lines[i].key.location == Stores && lines[i].qty == -Need(s.menu, s.factors, items, lines[i].key.product) && lines[i].qty < 0
    requires forall p :: Need(s.menu, s.factors, items, p) != 0 ==> exists i :: 0 <= i < |lines| && lines[i].key.product == p
    ensures (forall i :: 0 <= i < |lines| ==> LineFault(s.books.balances, lines[i], override).None?) <==>
      forall p :: Need(s.menu, s.factors, items, p) != 0 ==> DrawsFine(s, items, override, p)
  {
    forall i | 0 <= i < |lines|
      ensures LineFault(s.books.balances, lines[i], override).None? <==> DrawsFine(s, items, override, lines[i].key.product)
    {
    }
    if !(forall p :: Need(s.menu, s.factors, items, p) != 0 ==> DrawsFine(s, items, override, p)) {
      var p :| Need(s.menu, s.factors, items, p) != 0 && !DrawsFine(s, items, override, p);
      var i :| 0 <= i < |lines| && lines[i].key.product == p;
    }
  }

  /** Deducting what the order needs of a product is accepted. */
  predicate DrawsFine(s: State, items: seq<OrderItem>, override: bool, p: ProductId) {
    var need := Need(s.menu, s.factors, items, p);
    Round(-need) != 0 && (override || need <= OnHand(s.books.balances, Key(p, Stores)) * FINE)
  }

  lemma DrawsFineMeans(s: State, items: seq<OrderItem>, override: bool)
    ensures (forall p :: Need(s.menu, s.factors, items, p) != 0 ==> DrawsFine(s, items, override, p)) <==>
      Storable(s, items) && (override || !Short(s, items))
  {
    if forall p :: Need(s.menu, s.factors, items, p) != 0 ==> DrawsFine(s, items, override, p) {
      forall p | Need(s.menu, s.factors, items, p) != 0
        ensures Round(-Need(s.menu, s.factors, items, p)) != 0
        ensures override || Need(s.menu, s.factors, items, p) <= OnHand(s.books.balances, Key(p, Stores)) * FINE
      {
        assert DrawsFine(s, items, override, p);
      }
    }
  }

  /** A key touched by at most one line of a document. */
  lemma SettleOne(balances: map<Key, int>, lines: seq<Line>, k: Key, need: int)
    requires DistinctKeys(lines)
    requires if need == 0 then forall i :: 0 <= i < |lines| ==> lines[i].key != k
             else exists i :: 0 <= i < |lines| && lines[i].key == k && lines[i].qty == -need
    ensures OnHand(Settle(balances, lines), k) == Round(OnHand(balances, k) * FINE - need)
  {
    SettleDistinct(balances, lines);
    assert (OnHand(balances, k) * FINE) % FINE == 0;
  }

  /** What an order needs of a key: its recipes draw on Stores only. */
  function NeedAt(menu: Menu, factors: Factors, items: seq<OrderItem>, k: Key): int {
    if k.location == Stores then Need(menu, factors, items, k.product) else 0
  }

  /** Storing an order's deduction leaves every balance at what it was less the order's need. */
  lemma SettleDeduction(balances: map<Key, int>, menu: Menu, factors: Factors, items: seq<OrderItem>, k: Key)
    requires PositiveRecipes(menu, factors, items)
    ensures OnHand(Settle(balances, DeductionLines(Requirements(menu, factors, items))), k) ==
      Round(OnHand(balances, k) * FINE - NeedAt(menu, factors, items, k))
  {
    DeductionRefinesNeed(menu, factors, items);
    SettleOne(balances, DeductionLines(Requirements(menu, factors, items)), k, NeedAt(menu, factors, items, k));
  }

  /** A negative line can only be refused for lack of stock or for storing as zero. */
  lemma {:induction false} FirstFaultKinds(balances: map<Key, int>, lines: seq<Line>, override: bool)
    requires forall i :: 0 <= i < |lines| ==> lines[i].qty < 0
    ensures var fault := FirstFault(balances, lines, override);
      || fault.None?
      || (fault.value.InsufficientStock? && !override)
      || (fault.value.ConstraintViolation? && exists i :: 0 <= i < |lines| && Round(lines[i].qty) == 0)
  {
    if lines != [] {
      var n := |lines| - 1;
      assert forall i :: 0 <= i < n ==> lines[..n][i] == lines[i];
      FirstFaultKinds(balances, lines[..n], override);
      if i :| 0 <= i < n && Round(lines[..n][i].qty) == 0 {
        assert Round(lines[i].qty) == 0;
      }
    }
  }

  /** The strict posting of a deduction: it commits unless a row would store as zero or stock
      is short, and is refused for lack of stock whenever every row can be stored. */
  lemma StrictDeduction(s: State, id: nat, items: seq<OrderItem>)
    requires PositiveRecipes(s.menu, s.factors, items)
    ensures var fault := FirstFault(s.books.balances, OrderPosting(s, id, items).lines, false);
      && (fault.None? <==> Storable(s, items) && !Short(s, items))
      && (Storable(s, items) && Short(s, items) ==> fault == Some(InsufficientStock))
  {
    var lines := OrderPosting(s, id, items).lines;
    DeductionFaults(s, id, items, false);
    DeductionRefinesNeed(s.menu, s.factors, items);
    FirstFaultKinds(s.books.balances, lines, false);
    if Storable(s, items) {
      forall i | 0 <= i < |lines|
        ensures Round(lines[i].qty) != 0
      {
        assert Need(s.menu, s.factors, items, lines[i].key.product) != 0;
      }
    }
  }

  /** The strict posting and its fallback, on a sale just created: the fallback runs, and the
      order is flagged, exactly when stock is short. */
  lemma DeductOutcome(s: State, created: State, id: nat)
    requires created == s.(sales := created.sales) && id < |created.sales| && !created.sales[id].insufficient
    requires PositiveRecipes(s.menu, s.factors, created.sales[id].items) && !IsPosted(s.books, OrderDocument(id))
    requires OrderPosting(s, id, created.sales[id].items).lines != []
    ensures Deduct(created, id).Ok? <==> Storable(s, created.sales[id].items)
    ensures Deduct(created, id).Ok? ==>
      && Deduct(created, id).value.sales[id].insufficient == Short(s, created.sales[id].items)
      && Deduct(created, id).value.books.balances == Settle(s.books.balances, OrderPosting(s, id, created.sales[id].items).lines)
  {
    var items := created.sales[id].items;
    StrictDeduction(s, id, items);
    DeductionFaults(s, id, items, true);
  }

  /** What must hold for a sale to be created and deducted at once. */
  ghost predicate FreshResolved(s: State, saleId: string, soldOn: Date, raw: seq<RawLine>) {
    && saleId != ""
    && raw != []
    && !KnownSale(s, saleId)
    && (forall i :: 0 <= i < |raw| ==> raw[i].qty > 0)
    && Resolved(NewItems(s.menu, raw, soldOn))
  }

  /** Ingesting a new sale whose items all resolve commits exactly when Stores exists and every
      deduction is large enough to be stored. */
  lemma {:induction false} ResolvedIngestCommitsIff(s: State, saleId: string, soldOn: Date, raw: seq<RawLine>)
    requires SaleInv(s) && BooksInv(s.books) && BackedInv(s) && FreshResolved(s, saleId, soldOn, raw)
    ensures Ingest(s, saleId, Some(soldOn), raw).Ok? <==> s.storesConfigured && Storable(s, NewItems(s.menu, raw, soldOn))
  {
    if s.storesConfigured {
      ReadyToDeduct(s, saleId, soldOn, raw);
    }
  }

  lemma {:induction false} ReadyToDeduct(s: State, saleId: string, soldOn: Date, raw: seq<RawLine>)
    requires SaleInv(s) && BooksInv(s.books) && BackedInv(s) && FreshResolved(s, saleId, soldOn, raw)
    ensures var created := CreatedSale(s, OpIngest(saleId, Some(soldOn), raw));
      var items := NewItems(s.menu, raw, soldOn);
      && PositiveRecipes(s.menu, s.factors, items)
      && (Deduct(created, |s.sales|).Ok? <==> Storable(s, items))
      && (Deduct(created, |s.sales|).Ok? ==>
            && Deduct(created, |s.sales|).value.sales[|s.sales|].insufficient == Short(s, items)
            && Deduct(created, |s.sales|).value.books.balances == Settle(s.books.balances, OrderPosting(s, |s.sales|, items).lines))
  {
    NewItemsValid(s.menu, raw, soldOn);
    RecipesUsable(s.menu, s.factors, NewItems(s.menu, raw, soldOn));
    FreshNotPosted(s);
    DeductOutcome(s, CreatedSale(s, OpIngest(saleId, Some(soldOn), raw)), |s.sales|);
  }

  /** The insufficient-stock flag is set iff some Stores balance would go below zero, and the
      stock ends the same with or without the fallback: each balance less the order's need. */
  lemma {:induction false} ResolvedIngestEffect(s: State, saleId: string, soldOn: Date, raw: seq<RawLine>, s': State, k: Key)
    requires SaleInv(s) && BooksInv(s.books) && BackedInv(s) && FreshResolved(s, saleId, soldOn, raw)
    requires Ingest(s, saleId, Some(soldOn), raw) == Ok(s')
    ensures |s'.sales| == |s.sales| + 1
    ensures s'.sales[|s.sales|].insufficient <==> Short(s, NewItems(s.menu, raw, soldOn))
    ensures OnHand(s'.books.balances, k) ==
      Round(OnHand(s.books.balances, k) * FINE - NeedAt(s.menu, s.factors, NewItems(s.menu, raw, soldOn), k))
  {
    var created := CreatedSale(s, OpIngest(saleId, Some(soldOn), raw));
    assert Deduct(created, |s.sales|) == Ok(s');
    ReadyToDeduct(s, saleId, soldOn, raw);
    DeductTables(created, |s.sales|);
    SettleDeduction(s.books.balances, s.menu, s.factors, NewItems(s.menu, raw, soldOn), k);
  }
}
