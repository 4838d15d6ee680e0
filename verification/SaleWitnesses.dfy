/** Concrete runs of sales: one that arrives after its recipe was replaced, and one of several servings
    of several ingredients. */
module SaleWitnesses {
  import opened Prelude
  import opened Ledger
  import opened Accounting
  import opened Recipes
  import opened Deduction
  import opened Model
  import opened Services
  import opened System
  import opened Effects
  import opened Documents
  import opened SalesLifecycle
  import opened Invariant
  import opened Witnesses
  import opened Snapshots
  import opened Servings

  // ----- one sale of one item -----

  /** The only sale, of one item made with the version, and what it took of two products. */
  predicate OnlySale(s: State, item: OrderItem, first: int, second: int) {
    && |s.sales| == 1 && s.sales[0].items == [item] && s.sales[0].status.Ingested?
    && LedgerSum(DocRows(s.books.ledger, OrderDocument(0)), Key(0, Stores)) == first
    && LedgerSum(DocRows(s.books.ledger, OrderDocument(0)), Key(1, Stores)) == second
  }

  lemma {:induction false} OneItem(menu: Menu, item: OrderItem, soldOn: Date)
    requires MenuInv(menu) && item.recipe.Some? && item.recipe.value.posCode == item.posCode
    requires InForce(menu, item.posCode, item.recipe.value.version, soldOn)
    ensures NewItems(menu, [RawLine(item.posCode, item.qty)], soldOn) == [item]
  {
    ResolvesToSnapshot(menu, item.posCode, soldOn);
  }

  /** The item names a version in force on the day, of a quantity large enough to be deducted. */
  ghost predicate Sellable(menu: Menu, factors: Factors, item: OrderItem, soldOn: Date) {
    && item.qty > 0
    && item.recipe.Some? && item.recipe.value.posCode == item.posCode
    && InForce(menu, item.posCode, item.recipe.value.version, soldOn)
    && ValidRefs(menu, [item]) && Deductible(menu, factors, [item])
  }

  lemma {:induction false} ConsumedByOne(menu: Menu, factors: Factors, item: OrderItem, p: ProductId)
    requires item.recipe.Some? ==> ValidRef(menu, item.recipe.value)
    ensures ValidRefs(menu, [item])
    ensures Consumed(menu, factors, [item], p) == ItemConsumed(menu, factors, item, p)
  {
    assert [item][1..] == [] && Consumed(menu, factors, [item][1..], p) == 0;
  }

  lemma {:induction false} OneItemIngested(s: State, saleId: string, soldOn: Date, item: OrderItem, s': State)
    requires s.sales == [] && Ingest(s, saleId, Some(soldOn), [RawLine(item.posCode, item.qty)]) == Ok(s')
    requires item.recipe.Some? && NewItems(s.menu, [RawLine(item.posCode, item.qty)], soldOn) == [item]
    ensures s'.menu == s.menu && |s'.sales| == 1 && s'.sales[0].items == [item] && s'.sales[0].status.Ingested?
  {
    IngestAddsSale(s, saleId, Some(soldOn), [RawLine(item.posCode, item.qty)], s');
  }

  lemma {:induction false} OneItemCommits(factors: Factors, ops: seq<Op>, saleId: string, soldOn: Date, item: OrderItem)
    requires FactorsPositive(factors) && saleId != "" && Sellable(After(factors, ops).menu, factors, item, soldOn)
    requires After(factors, ops).storesConfigured && After(factors, ops).sales == []
    ensures NewItems(After(factors, ops).menu, [RawLine(item.posCode, item.qty)], soldOn) == [item]
    ensures Ingest(After(factors, ops), saleId, Some(soldOn), [RawLine(item.posCode, item.qty)]).Ok?
  {
    Reachable(factors, ops);
    FactorsStay(factors, ops);
    OneItem(After(factors, ops).menu, item, soldOn);
    IngestCommitsIff(factors, ops, saleId, Some(soldOn), [RawLine(item.posCode, item.qty)]);
  }

  lemma {:induction false} IngestedRun(factors: Factors, ops: seq<Op>, saleId: string, soldOn: Date, item: OrderItem)
    requires FactorsPositive(factors) && saleId != "" && Sellable(After(factors, ops).menu, factors, item, soldOn)
    requires After(factors, ops).storesConfigured && After(factors, ops).sales == []
    ensures var s' := After(factors, ops + [OpIngest(saleId, Some(soldOn), [RawLine(item.posCode, item.qty)])]);
      && s'.menu == After(factors, ops).menu
      && |s'.sales| == 1 && s'.sales[0].items == [item] && s'.sales[0].status.Ingested?
  {
    var s, op := After(factors, ops), OpIngest(saleId, Some(soldOn), [RawLine(item.posCode, item.qty)]);
    OneItemCommits(factors, ops, saleId, soldOn, item);
    OneItemIngested(s, saleId, soldOn, item, Step(s, op).value);
    OneMore(factors, ops, op, s, Step(s, op).value);
  }

  lemma {:induction false} SoldServings(factors: Factors, ops: seq<Op>, item: OrderItem)
    requires FactorsPositive(factors) && item.recipe.Some?
    requires |After(factors, ops).sales| == 1 && After(factors, ops).sales[0].items == [item]
    requires After(factors, ops).sales[0].status.Ingested? && ValidRefs(After(factors, ops).menu, [item])
    ensures OnlySale(After(factors, ops), item, Round(-Consumed(After(factors, ops).menu, factors, [item], 0)),
                     Round(-Consumed(After(factors, ops).menu, factors, [item], 1)))
  {
    FactorsStay(factors, ops);
    SalesTakeTheirServings(factors, ops, 0, Key(0, Stores));
    SalesTakeTheirServings(factors, ops, 0, Key(1, Stores));
  }

  /** A sale of one item is taken, and takes what the item consumes. */
  lemma {:induction false} OneItemSells(factors: Factors, ops: seq<Op>, saleId: string, soldOn: Date, item: OrderItem)
    requires FactorsPositive(factors) && saleId != "" && Sellable(After(factors, ops).menu, factors, item, soldOn)
    requires After(factors, ops).storesConfigured && After(factors, ops).sales == []
    ensures OnlySale(After(factors, ops + [OpIngest(saleId, Some(soldOn), [RawLine(item.posCode, item.qty)])]), item,
                     Round(-Consumed(After(factors, ops).menu, factors, [item], 0)),
                     Round(-Consumed(After(factors, ops).menu, factors, [item], 1)))
  {
    IngestedRun(factors, ops, saleId, soldOn, item);
    SoldServings(factors, ops + [OpIngest(saleId, Some(soldOn), [RawLine(item.posCode, item.qty)])], item);
  }

  // ----- a sale that arrives late -----

  const PLAIN: Factors := map[]
  const NEW_RECIPE := [RecipeLine(PRODUCT, 7)]
  const CLOSED := Version(Retired, Some(0), Some(10), RECIPE)
  const NEXT := Version(Published, Some(10), None, NEW_RECIPE)

  /** The soup's recipe is replaced from day 10 on. */
  function ReplacedOps(): seq<Op> {
    [OpCreateStores] + MenuOps() + [OpCreateRecipe(SOUP, NEW_RECIPE)] + [OpPublishRecipe(SOUP, 1, Some(10))]
  }

  lemma {:induction false} SecondDraft(s: State)
    requires s.menu == map[SOUP := [LIVE]]
    ensures Step(s, OpCreateRecipe(SOUP, NEW_RECIPE)) == Ok(s.(menu := map[SOUP := [LIVE, Version(Draft, None, None, NEW_RECIPE)]]))
  {
    var drafted := [LIVE, Version(Draft, None, None, NEW_RECIPE)];
    assert ValidRecipe(NEW_RECIPE) && [LIVE] + [Version(Draft, None, None, NEW_RECIPE)] == drafted;
    assert CreateVersion(s.menu[SOUP], NEW_RECIPE) == Ok(drafted);
    assert s.menu[SOUP := drafted] == map[SOUP := drafted];
  }

  lemma {:induction false} SecondPublished(s: State)
    requires s.menu == map[SOUP := [LIVE, Version(Draft, None, None, NEW_RECIPE)]]
    ensures Step(s, OpPublishRecipe(SOUP, 1, Some(10))) == Ok(s.(menu := map[SOUP := [CLOSED, NEXT]]))
  {
    var vs := s.menu[SOUP];
    assert vs[..1] == [LIVE] && CurrentPublished(vs[..1], 1) == Some(0);
    assert CurrentPublished(vs, 1) == Some(0);
    assert vs[0 := CLOSED][1 := NEXT] == [CLOSED, NEXT];
    assert s.menu[SOUP := [CLOSED, NEXT]] == map[SOUP := [CLOSED, NEXT]];
  }

  lemma {:induction false} ReplacedRun()
    ensures After(PLAIN, ReplacedOps()) == Initial(PLAIN).(storesConfigured := true, menu := map[SOUP := [CLOSED, NEXT]])
  {
    var configured := Initial(PLAIN).(storesConfigured := true);
    var listed := configured.(menu := map[SOUP := [LIVE]]);
    var drafted := configured.(menu := map[SOUP := [LIVE, Version(Draft, None, None, NEW_RECIPE)]]);
    OneMore(PLAIN, [], OpCreateStores, Initial(PLAIN), configured);
    assert [] + [OpCreateStores] == [OpCreateStores];
    PutOnSale(PLAIN, [OpCreateStores], configured);
    SecondDraft(listed);
    OneMore(PLAIN, [OpCreateStores] + MenuOps(), OpCreateRecipe(SOUP, NEW_RECIPE), listed, drafted);
    SecondPublished(drafted);
    OneMore(PLAIN, [OpCreateStores] + MenuOps() + [OpCreateRecipe(SOUP, NEW_RECIPE)], OpPublishRecipe(SOUP, 1, Some(10)),
            drafted, configured.(menu := map[SOUP := [CLOSED, NEXT]]));
  }

  function SoupBy(version: nat): OrderItem { OrderItem(SOUP, 1_000, Some(RecipeRef(SOUP, version))) }

  lemma {:induction false} SoupConsumes(menu: Menu, version: nat, p: ProductId)
    requires menu == map[SOUP := [CLOSED, NEXT]] && version < 2
    ensures ValidRefs(menu, [SoupBy(version)])
    ensures Consumed(menu, PLAIN, [SoupBy(version)], p) == if p == PRODUCT then (if version == 0 then 1 else 7) * FINE else 0
  {
    var recipe := menu[SOUP][version].lines;
    assert recipe[1..] == [] && PerServing(recipe[1..], p) == 0;
    ConsumedByOne(menu, PLAIN, SoupBy(version), p);
  }

  lemma {:induction false} SoupIsDeductible(menu: Menu, version: nat)
    requires menu == map[SOUP := [CLOSED, NEXT]] && version < 2
    ensures ValidRefs(menu, [SoupBy(version)]) && Deductible(menu, PLAIN, [SoupBy(version)])
  {
    SoupConsumes(menu, version, PRODUCT);
    forall p: ProductId
      ensures Consumed(menu, PLAIN, [SoupBy(version)], p) == if p == PRODUCT then (if version == 0 then 1 else 7) * FINE else 0
    {
      SoupConsumes(menu, version, p);
    }
  }

  lemma {:induction false} SoupSoldOn(soldOn: Date, version: nat)
    requires version == if soldOn < 10 then 0 else 1
    requires 0 <= soldOn
    ensures OnlySale(After(PLAIN, ReplacedOps() + [OpIngest("late", Some(soldOn), SALE)]), SoupBy(version),
                     if version == 0 then -1 else -7, 0)
  {
    ReplacedRun();
    var menu := After(PLAIN, ReplacedOps()).menu;
    SoupIsDeductible(menu, version);
    SoupConsumes(menu, version, 0);
    SoupConsumes(menu, version, 1);
    assert Round(-1 * FINE) == -1 && Round(-7 * FINE) == -7;
    OneItemSells(PLAIN, ReplacedOps(), "late", soldOn, SoupBy(version));
  }

  /** A sale of day 8 that arrives once the recipe was replaced from day 10 is made with the old version and
      deducts by it; one of day 10 is made with the new one. */
  lemma {:induction false} LateSaleKeepsItsRecipe()
    ensures OnlySale(After(PLAIN, ReplacedOps() + [OpIngest("late", Some(8), SALE)]), SoupBy(0), -1, 0)
    ensures OnlySale(After(PLAIN, ReplacedOps() + [OpIngest("late", Some(10), SALE)]), SoupBy(1), -7, 0)
  {
    SoupSoldOn(8, 0);
    SoupSoldOn(10, 1);
  }

  // ----- two servings of two ingredients -----

  /** A recipe unit of the second ingredient is three stock units. */
  const TRIPLED: Factors := map[1 := 3_000_000]
  const BOWL := "bowl"
  const INGREDIENTS := [RecipeLine(0, 500), RecipeLine(1, 250)]
  const BOWLED := Version(Published, Some(0), None, INGREDIENTS)
  const TWO_BOWLS := OrderItem(BOWL, 2_000, Some(RecipeRef(BOWL, 0)))

  function BowlOps(): seq<Op> {
    [OpCreateStores, OpCreateMenuItem(BOWL), OpCreateRecipe(BOWL, INGREDIENTS), OpPublishRecipe(BOWL, 0, Some(0))]
  }

  lemma {:induction false} BowlDrafted(s: State)
    requires s.menu == map[BOWL := []]
    ensures Step(s, BowlOps()[2]) == Ok(s.(menu := map[BOWL := [Version(Draft, None, None, INGREDIENTS)]]))
  {
    var none: History, drafted := [], [Version(Draft, None, None, INGREDIENTS)];
    assert ValidRecipe(INGREDIENTS) && none + drafted == drafted;
    assert CreateVersion(none, INGREDIENTS) == Ok(drafted);
    assert s.menu[BOWL := drafted] == map[BOWL := drafted];
  }

  lemma {:induction false} BowlPublished(s: State)
    requires s.menu == map[BOWL := [Version(Draft, None, None, INGREDIENTS)]]
    ensures Step(s, BowlOps()[3]) == Ok(s.(menu := map[BOWL := [BOWLED]]))
  {
    var vs := s.menu[BOWL];
    assert vs[..0] == [] && CurrentPublished(vs[..0], 0).None?;
    assert CurrentPublished(vs, 0).None?;
    assert vs[0 := BOWLED] == [BOWLED];
    assert s.menu[BOWL := [BOWLED]] == map[BOWL := [BOWLED]];
  }

  lemma {:induction false} BowlRun()
    ensures After(TRIPLED, BowlOps()) == Initial(TRIPLED).(storesConfigured := true, menu := map[BOWL := [BOWLED]])
  {
    var ops := BowlOps();
    var s1 := Initial(TRIPLED).(storesConfigured := true);
    var s2, s3 := s1.(menu := map[BOWL := []]), s1.(menu := map[BOWL := [Version(Draft, None, None, INGREDIENTS)]]);
    OneMore(TRIPLED, [], ops[0], Initial(TRIPLED), s1);
    OneMore(TRIPLED, [ops[0]], ops[1], s1, s2);
    BowlDrafted(s2);
    OneMore(TRIPLED, [ops[0]] + [ops[1]], ops[2], s2, s3);
    BowlPublished(s3);
    OneMore(TRIPLED, [ops[0]] + [ops[1]] + [ops[2]], ops[3], s3, s1.(menu := map[BOWL := [BOWLED]]));
    assert [] + [ops[0]] == [ops[0]];
    assert [ops[0]] + [ops[1]] + [ops[2]] + [ops[3]] == ops;
  }

  lemma {:induction false} BowlsConsume(menu: Menu, p: ProductId)
    requires menu == map[BOWL := [BOWLED]]
    ensures ValidRefs(menu, [TWO_BOWLS])
    ensures Consumed(menu, TRIPLED, [TWO_BOWLS], p) == if p == 0 then 1_000 * FINE else if p == 1 then 1_500 * FINE else 0
  {
    var recipe := menu[BOWL][0].lines;
    assert recipe[1..] == [INGREDIENTS[1]] && recipe[1..][1..] == [];
    assert PerServing(recipe[1..][1..], p) == 0;
    assert PerServing(recipe, p) == if p == 0 then 500 else if p == 1 then 250 else 0;
    ConsumedByOne(menu, TRIPLED, TWO_BOWLS, p);
  }

  lemma {:induction false} BowlsAreSellable(menu: Menu)
    requires menu == map[BOWL := [BOWLED]]
    ensures Sellable(menu, TRIPLED, TWO_BOWLS, 0)
  {
    BowlsConsume(menu, 0);
    forall p: ProductId
      ensures Consumed(menu, TRIPLED, [TWO_BOWLS], p) == if p == 0 then 1_000 * FINE else if p == 1 then 1_500 * FINE else 0
    {
      BowlsConsume(menu, p);
    }
  }

  /** Two servings of half a unit and a quarter of a tripled unit take one unit and one and a half. */
  lemma {:induction false} TwoServingsTakeTwice()
    ensures OnlySale(After(TRIPLED, BowlOps() + [OpIngest("two", Some(0), [RawLine(BOWL, 2_000)])]), TWO_BOWLS, -1_000, -1_500)
  {
    BowlRun();
    var menu := After(TRIPLED, BowlOps()).menu;
    BowlsAreSellable(menu);
    BowlsConsume(menu, 0);
    BowlsConsume(menu, 1);
    assert Round(-1_000 * FINE) == -1_000 && Round(-1_500 * FINE) == -1_500;
    OneItemSells(TRIPLED, BowlOps(), "two", 0, TWO_BOWLS);
  }
}
