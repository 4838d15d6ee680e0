/** What a sale deducts, as servings times ingredients (backend/apps/pos_ingest/services.py,
    `_deduction_lines`). */
module Servings {
  import opened Prelude
  import opened Ledger
  import opened Accounting
  import opened Recipes
  import opened Deduction
  import opened Model
  import opened Services
  import opened System
  import opened Effects
  import opened Documents
  import opened SalesLifecycle
  import opened Invariant

  /** How much of the product one serving takes, in thousandths of the recipe unit. */
  function PerServing(recipe: seq<RecipeLine>, p: ProductId): int {
    if recipe == [] then 0
    else (if recipe[0].product == p then recipe[0].qtyPerServing else 0) + PerServing(recipe[1..], p)
  }

  /** Servings sold times stock units per recipe unit times quantity per serving, in units of 10^-12;
      a product without a conversion factor counts one to one, an item without a recipe nothing. */
  function ItemConsumed(menu: Menu, factors: Factors, item: OrderItem, p: ProductId): int
    requires item.recipe.Some? ==> ValidRef(menu, item.recipe.value)
  {
    if item.recipe.None? then 0
    else
      var recipe := menu[item.recipe.value.posCode][item.recipe.value.version].lines;
      var stockPerRecipeUnit := if p in factors then factors[p] else 1_000_000;
      item.qty * stockPerRecipeUnit * PerServing(recipe, p)
  }

  function Consumed(menu: Menu, factors: Factors, items: seq<OrderItem>, p: ProductId): int
    requires ValidRefs(menu, items)
  {
    if items == [] then 0 else ItemConsumed(menu, factors, items[0], p) + Consumed(menu, factors, items[1..], p)
  }

  lemma {:induction false} PerServingAppend(recipe: seq<RecipeLine>, last: RecipeLine, p: ProductId)
    ensures PerServing(recipe + [last], p) == PerServing(recipe, p) + if last.product == p then last.qtyPerServing else 0
  {
    if recipe == [] {
      assert recipe + [last] == [last];
      assert PerServing([last][1..], p) == 0;
    } else {
      assert (recipe + [last])[1..] == recipe[1..] + [last];
      PerServingAppend(recipe[1..], last, p);
    }
  }

  lemma OneMoreIngredient(qty: int, factor: int, earlier: int, last: int)
    ensures qty * factor * (earlier + last) == qty * factor * earlier + last * factor * qty
  {
    var perUnit := qty * factor;
    assert perUnit * (earlier + last) == perUnit * earlier + perUnit * last;
    assert perUnit * last == last * (factor * qty) == last * factor * qty;
  }

  /** What one item requires of a product, over its recipe's lines. */
  lemma {:induction false} ItemTotal(factors: Factors, recipe: seq<RecipeLine>, qty: int, p: ProductId, reqs: seq<Requirement>)
    requires |reqs| == |recipe| && forall i :: 0 <= i < |recipe| ==> reqs[i] == LineRequirement(factors, recipe[i], qty)
    ensures Total(reqs, p) == qty * Factor(factors, p) * PerServing(recipe, p)
  {
    if recipe != [] {
      var n := |recipe| - 1;
      ItemTotal(factors, recipe[..n], qty, p, reqs[..n]);
      assert recipe[..n] + [recipe[n]] == recipe;
      PerServingAppend(recipe[..n], recipe[n], p);
      if recipe[n].product == p {
        OneMoreIngredient(qty, Factor(factors, p), PerServing(recipe[..n], p), recipe[n].qtyPerServing);
      }
    }
  }

  lemma {:induction false} ConsumedAppend(menu: Menu, factors: Factors, items: seq<OrderItem>, last: OrderItem, p: ProductId)
    requires ValidRefs(menu, items + [last])
    ensures ValidRefs(menu, items) && ValidRefs(menu, [last])
    ensures Consumed(menu, factors, items + [last], p) == Consumed(menu, factors, items, p) + Consumed(menu, factors, [last], p)
  {
    ValidRefsParts(menu, items, last);
    if items == [] {
      assert items + [last] == [last];
    } else {
      assert (items + [last])[1..] == items[1..] + [last];
      assert forall i :: 0 <= i < |items[1..] + [last]| ==> (items[1..] + [last])[i] == (items + [last])[i + 1];
      ConsumedAppend(menu, factors, items[1..], last, p);
    }
  }

  lemma {:induction false} ValidRefsParts(menu: Menu, items: seq<OrderItem>, last: OrderItem)
    requires ValidRefs(menu, items + [last])
    ensures ValidRefs(menu, items) && ValidRefs(menu, [last])
  {
    var all := items + [last];
    assert forall i :: 0 <= i < |items| ==> items[i] == all[i];
    assert last == all[|items|];
  }

  lemma {:induction false} OneItemConsumed(menu: Menu, factors: Factors, item: OrderItem, p: ProductId)
    requires ValidRefs(menu, [item])
    ensures Total(ItemRequirements(menu, factors, item), p) == Consumed(menu, factors, [item], p)
  {
    assert [item][1..] == [] && Consumed(menu, factors, [item][1..], p) == 0;
    if item.recipe.Some? {
      assert [item][0] == item && ValidRef(menu, item.recipe.value);
      ItemTotal(factors, RecipeLines(menu, item.recipe.value), item.qty, p, ItemRequirements(menu, factors, item));
    }
  }

  /** An order needs of each product what its servings consume. */
  lemma {:induction false} NeedIsConsumed(menu: Menu, factors: Factors, items: seq<OrderItem>, p: ProductId)
    requires ValidRefs(menu, items)
    ensures Need(menu, factors, items, p) == Consumed(menu, factors, items, p)
  {
    if items != [] {
      var n := |items| - 1;
      assert items[..n] + [items[n]] == items;
      ConsumedAppend(menu, factors, items[..n], items[n], p);
      NeedIsConsumed(menu, factors, items[..n], p);
      OneItemConsumed(menu, factors, items[n], p);
    }
  }

  // ----- the rows -----

  /** With distinct keys the rows of a document add up, for each key, to its one line. */
  lemma {:induction false} DistinctRowsSum(posting: Posting, k: Key, qty: int)
    requires DistinctKeys(posting.lines)
    requires if qty == 0 then forall i :: 0 <= i < |posting.lines| ==> posting.lines[i].key != k
             else exists i :: 0 <= i < |posting.lines| && posting.lines[i].key == k && posting.lines[i].qty == qty
    ensures LedgerSum(Rows(posting), k) == Round(qty)
    decreases |posting.lines|
  {
    if posting.lines != [] {
      var n := |posting.lines| - 1;
      var shorter := posting.(lines := posting.lines[..n]);
      assert Rows(posting)[..n] == Rows(shorter);
      assert forall i :: 0 <= i < n ==> shorter.lines[i] == posting.lines[i];
      if posting.lines[n].key == k {
        DistinctRowsSum(shorter, k, 0);
      } else {
        DistinctRowsSum(shorter, k, qty);
      }
    }
  }

  lemma {:induction false} DeductionRows(s: State, id: nat, items: seq<OrderItem>, k: Key)
    requires PositiveRecipes(s.menu, s.factors, items)
    ensures LedgerSum(Rows(OrderPosting(s, id, items)), k) == Round(-NeedAt(s.menu, s.factors, items, k))
  {
    DeductionRefinesNeed(s.menu, s.factors, items);
    DistinctRowsSum(OrderPosting(s, id, items), k, -NeedAt(s.menu, s.factors, items, k));
  }

  /** What servings take at a key, stored to the thousandth: they draw on Stores only. */
  function Deducted(menu: Menu, factors: Factors, items: seq<OrderItem>, k: Key): int
    requires ValidRefs(menu, items)
  {
    if k.location == Stores then Round(-Consumed(menu, factors, items, k.product)) else 0
  }

  lemma {:induction false} OrderRows(s: State, id: nat, items: seq<OrderItem>, k: Key)
    requires MenuInv(s.menu) && FactorsPositive(s.factors) && ValidRefs(s.menu, items)
    requires forall i :: 0 <= i < |items| ==> items[i].qty > 0
    ensures LedgerSum(Rows(OrderPosting(s, id, items)), k) == Deducted(s.menu, s.factors, items, k)
  {
    RecipesUsable(s.menu, s.factors, items);
    DeductionRows(s, id, items, k);
    NeedIsConsumed(s.menu, s.factors, items, k.product);
  }

  /** The order's rows for a key: what its servings take there, and nothing while some item has no recipe. */
  ghost predicate TakesItsServings(s: State, id: nat, k: Key)
    requires id < |s.sales|
  {
    var items := s.sales[id].items;
    && ValidRefs(s.menu, items)
    && LedgerSum(DocRows(s.books.ledger, OrderDocument(id)), k) ==
         if Resolved(items) then Deducted(s.menu, s.factors, items, k) else 0
  }

  lemma {:induction false} DeductedRows(s: State, id: nat, k: Key)
    requires SaleInv(s) && BooksInv(s.books) && BackedInv(s) && id < |s.sales|
    ensures TakesItsServings(s, id, k)
  {
    assert SaleExact(s, id);
    SaleStatusMeans(s, id);
    if Resolved(s.sales[id].items) {
      TookServings(s, id, k);
    } else {
      TookNothing(s, id, k);
    }
  }

  lemma {:induction false} TookServings(s: State, id: nat, k: Key)
    requires MenuInv(s.menu) && FactorsPositive(s.factors) && id < |s.sales|
    requires Resolved(s.sales[id].items) && ValidRefs(s.menu, s.sales[id].items)
    requires forall i :: 0 <= i < |s.sales[id].items| ==> s.sales[id].items[i].qty > 0
    requires DocRows(s.books.ledger, OrderDocument(id)) == Rows(OrderPosting(s, id, s.sales[id].items))
    ensures TakesItsServings(s, id, k)
  {
    OrderRows(s, id, s.sales[id].items, k);
  }

  lemma {:induction false} TookNothing(s: State, id: nat, k: Key)
    requires id < |s.sales| && !Resolved(s.sales[id].items) && ValidRefs(s.menu, s.sales[id].items)
    requires !IsPosted(s.books, OrderDocument(id))
    ensures TakesItsServings(s, id, k)
  {
    assert DocRows(s.books.ledger, OrderDocument(id)) == [];
  }

  /** In every reachable state each sale whose items all have a recipe has taken, from Stores and from
      nowhere else, what its servings consume of each product; any other sale has taken nothing. */
  lemma {:induction false} SalesTakeTheirServings(factors: Factors, ops: seq<Op>, id: nat, k: Key)
    requires FactorsPositive(factors) && id < |After(factors, ops).sales|
    ensures TakesItsServings(After(factors, ops), id, k)
  {
    Reachable(factors, ops);
    DeductedRows(After(factors, ops), id, k);
  }

  /** No call changes a conversion factor. */
  lemma {:induction false} FactorsStay(factors: Factors, ops: seq<Op>)
    requires FactorsPositive(factors)
    ensures After(factors, ops).factors == factors
  {
    if ops != [] {
      var n := |ops| - 1;
      FactorsStay(factors, ops[..n]);
      Reachable(factors, ops[..n]);
      StepKeepsFactors(After(factors, ops[..n]), ops[n]);
    }
  }

  lemma {:induction false} StepKeepsFactors(s: State, op: Op)
    requires Inv(s)
    ensures Next(s, op).factors == s.factors
  {
    if Step(s, op).Ok? {
      RefsOfSales(s);
      StepEffect(s, op, Step(s, op).value);
    }
  }

  // ----- when a sale is taken -----

  /** Every product the items consume is taken by at least half a thousandth. */
  ghost predicate Deductible(menu: Menu, factors: Factors, items: seq<OrderItem>)
    requires ValidRefs(menu, items)
  {
    forall p :: Consumed(menu, factors, items, p) != 0 ==> Round(-Consumed(menu, factors, items, p)) != 0
  }

  lemma {:induction false} DeductibleIsStorable(s: State, items: seq<OrderItem>)
    requires ValidRefs(s.menu, items)
    ensures Deductible(s.menu, s.factors, items) <==> Storable(s, items)
  {
    forall p: ProductId
      ensures Need(s.menu, s.factors, items, p) == Consumed(s.menu, s.factors, items, p)
    {
      NeedIsConsumed(s.menu, s.factors, items, p);
    }
  }

  /** The request names a sale, its day and its lines. */
  predicate WellFormed(saleId: string, soldOn: Option<Date>, raw: seq<RawLine>) {
    saleId != "" && soldOn.Some? && raw != []
  }

  /** In every reachable state an ingestion commits iff it is well formed and the sale id is known, or all
      quantities are positive and either some line has no recipe, when nothing is deducted, or Stores
      exists and everything the sale consumes can be deducted. */
  lemma {:induction false} IngestCommitsIff(factors: Factors, ops: seq<Op>, saleId: string, soldOn: Option<Date>, raw: seq<RawLine>)
    requires FactorsPositive(factors)
    ensures var s := After(factors, ops);
      soldOn.Some? ==> ValidRefs(s.menu, NewItems(s.menu, raw, soldOn.value))
    ensures var s := After(factors, ops);
      Ingest(s, saleId, soldOn, raw).Ok? <==>
        && WellFormed(saleId, soldOn, raw)
        && (KnownSale(s, saleId)
            || ((forall i :: 0 <= i < |raw| ==> raw[i].qty > 0)
                && var items := NewItems(s.menu, raw, soldOn.value);
                   !Resolved(items) || (s.storesConfigured && Deductible(s.menu, s.factors, items))))
  {
    var s := After(factors, ops);
    Reachable(factors, ops);
    if soldOn.Some? {
      NewItemsValid(s.menu, raw, soldOn.value);
      DeductibleIsStorable(s, NewItems(s.menu, raw, soldOn.value));
      if FreshResolved(s, saleId, soldOn.value, raw) {
        ResolvedIngestCommitsIff(s, saleId, soldOn.value, raw);
      }
    }
  }

  /** In every reachable state a replay commits iff the sale exists and, unless some item still has no
      recipe, Stores exists and the deduction is in the ledger already or can be made; a replay is never
      held up by lack of stock. */
  lemma {:induction false} ReplayCommitsIff(factors: Factors, ops: seq<Op>, id: nat)
    requires FactorsPositive(factors)
    ensures var s := After(factors, ops);
      id < |s.sales| ==> ValidRefs(s.menu, ReresolveAll(s.menu, s.sales[id].items, s.sales[id].soldOn))
    ensures var s := After(factors, ops);
      Replay(s, id).Ok? <==>
        && id < |s.sales|
        && var items := ReresolveAll(s.menu, s.sales[id].items, s.sales[id].soldOn);
           !Resolved(items)
           || (s.storesConfigured && (IsPosted(s.books, OrderDocument(id)) || Deductible(s.menu, s.factors, items)))
  {
    var s := After(factors, ops);
    Reachable(factors, ops);
    if id < |s.sales| {
      assert SaleExact(s, id);
      ReresolvedValid(s.menu, s.sales[id].items, s.sales[id].soldOn);
      var items := ReresolveAll(s.menu, s.sales[id].items, s.sales[id].soldOn);
      if Resolved(items) {
        ReplayPosts(s, id, items);
      }
    }
  }

  lemma {:induction false} ReplayPosts(s: State, id: nat, items: seq<OrderItem>)
    requires MenuInv(s.menu) && FactorsPositive(s.factors) && id < |s.sales| && s.sales[id].items != []
    requires forall i :: 0 <= i < |s.sales[id].items| ==> s.sales[id].items[i].qty > 0
    requires items == ReresolveAll(s.menu, s.sales[id].items, s.sales[id].soldOn) && Resolved(items) && ValidRefs(s.menu, items)
    ensures Replay(s, id).Ok? <==>
      s.storesConfigured && (IsPosted(s.books, OrderDocument(id)) || Deductible(s.menu, s.factors, items))
  {
    RecipesUsable(s.menu, s.factors, items);
    DeductionFaults(s, id, items, true);
    DeductibleIsStorable(s, items);
  }
}
