/** Concrete runs from an empty installation on which the documentation's promises fail. Each run
    is one sequence of calls; its states are followed call by call. */
module Witnesses {
  import opened Prelude
  import opened Ledger
  import opened Accounting
  import opened Recipes
  import opened Deduction
  import opened Model
  import opened Services
  import opened System

  const PRODUCT: ProductId := 0
  const AT_STORES := Key(PRODUCT, Stores)

  /** One more call of a run. */
  lemma {:induction false} OneMore(factors: Factors, ops: seq<Op>, op: Op, s: State, s': State)
    requires After(factors, ops) == s && Step(s, op) == Ok(s')
    ensures After(factors, ops + [op]) == s'
  {
    assert (ops + [op])[..|ops|] == ops;
  }

  /** A document of one line is refused for that line's fault. */
  lemma {:induction false} SingleFault(balances: map<Key, int>, line: Line, allowNegative: bool)
    ensures FirstFault(balances, [line], allowNegative) == LineFault(balances, line, allowNegative)
  {
    assert [line][..0] == [];
    assert FirstFault(balances, [line][..0], allowNegative).None? && Settle(balances, [line][..0]) == balances;
  }

  // ----- a menu item whose recipe takes one thousandth -----

  const SOUP := "soup"
  const RECIPE := [RecipeLine(PRODUCT, 1)]
  const DRAFTED := Version(Draft, None, None, RECIPE)
  const LIVE := Version(Published, Some(0), None, RECIPE)
  const SALE := [RawLine(SOUP, 1_000)]
  const SOLD := OrderItem(SOUP, 1_000, Some(RecipeRef(SOUP, 0)))

  function MenuOps(): seq<Op> {
    [OpCreateMenuItem(SOUP), OpCreateRecipe(SOUP, RECIPE), OpPublishRecipe(SOUP, 0, Some(0))]
  }

  /** Putting the item on sale. */
  lemma {:induction false} PutOnSale(factors: Factors, ops: seq<Op>, s: State)
    requires After(factors, ops) == s && s.menu == map[]
    ensures After(factors, ops + MenuOps()) == s.(menu := map[SOUP := [LIVE]])
  {
    var listed, drafted := s.(menu := map[SOUP := []]), s.(menu := map[SOUP := [DRAFTED]]);
    OneMore(factors, ops, MenuOps()[0], s, listed);
    DraftSoup(listed);
    OneMore(factors, ops + [MenuOps()[0]], MenuOps()[1], listed, drafted);
    PublishSoup(drafted);
    OneMore(factors, ops + [MenuOps()[0]] + [MenuOps()[1]], MenuOps()[2], drafted, s.(menu := map[SOUP := [LIVE]]));
    assert ops + [MenuOps()[0]] + [MenuOps()[1]] + [MenuOps()[2]] == ops + MenuOps();
  }

  lemma {:induction false} DraftSoup(s: State)
    requires s.menu == map[SOUP := []]
    ensures Step(s, MenuOps()[1]) == Ok(s.(menu := map[SOUP := [DRAFTED]]))
  {
    var none: History := [];
    assert none + [DRAFTED] == [DRAFTED];
    assert CreateVersion(none, RECIPE) == Ok([DRAFTED]);
    assert s.menu[SOUP := [DRAFTED]] == map[SOUP := [DRAFTED]];
  }

  lemma {:induction false} PublishSoup(s: State)
    requires s.menu == map[SOUP := [DRAFTED]]
    ensures Step(s, MenuOps()[2]) == Ok(s.(menu := map[SOUP := [LIVE]]))
  {
    var vs := [DRAFTED];
    assert vs[..0] == [] && CurrentPublished(vs[..0], 0).None?;
    assert CurrentPublished(vs, 0).None?;
    assert vs[0 := LIVE] == [LIVE];
    assert Publish(vs, 0, Some(0)) == Ok([LIVE]);
    assert s.menu[SOUP := [LIVE]] == map[SOUP := [LIVE]];
  }

  lemma {:induction false} SoldItem(menu: Menu)
    requires menu == map[SOUP := [LIVE]]
    ensures NewItems(menu, SALE, 0) == [SOLD]
  {
    assert Covers(menu[SOUP][0], 0);
    assert ActiveFor(menu[SOUP], 0) == Some(0);
  }

  lemma {:induction false} OneRequirement(req: Requirement)
    ensures DeductionLines([req]) == [Line(Key(req.product, Stores), -req.qty, SaleDeduction, None)]
  {
    var reqs := [req];
    assert reqs[..0] == [] && Products(reqs[..0]) == [] && Total(reqs[..0], req.product) == 0;
    assert Products(reqs) == [req.product] && Total(reqs, req.product) == req.qty;
  }

  lemma {:induction false} SoldRequirement(menu: Menu, factors: Factors)
    requires menu == map[SOUP := [LIVE]] && PRODUCT in factors
    ensures Requirements(menu, factors, [SOLD]) == [Requirement(PRODUCT, factors[PRODUCT] * 1_000)]
  {
    var items := [SOLD];
    assert items[..0] == [] && Requirements(menu, factors, items[..0]) == [];
    assert RecipeLines(menu, SOLD.recipe.value) == RECIPE;
    assert ItemRequirements(menu, factors, SOLD) == [Requirement(PRODUCT, factors[PRODUCT] * 1_000)];
  }

  /** What one sale of the item deducts. */
  lemma {:induction false} SaleDeducts(s: State, factor: int)
    requires s.menu == map[SOUP := [LIVE]] && PRODUCT in s.factors && s.factors[PRODUCT] == factor
    ensures NewItems(s.menu, SALE, 0) == [SOLD]
    ensures OrderPosting(s, |s.sales|, [SOLD]) ==
      Posting(OrderDocument(|s.sales|), [Line(AT_STORES, -(factor * 1_000), SaleDeduction, None)])
  {
    SoldItem(s.menu);
    SoldRequirement(s.menu, s.factors);
    OneRequirement(Requirement(PRODUCT, factor * 1_000));
  }

  // ----- a deduction that rounds to zero aborts ingestion -----

  /** Four tenths of a thousandth per serving. */
  const TINY: Factors := map[PRODUCT := 400_000]

  function TinyOps(): seq<Op> { [OpCreateStores] + MenuOps() }

  /** Everything is configured and the item is on sale. */
  lemma {:induction false} TinyMenu()
    ensures After(TINY, TinyOps()) == Initial(TINY).(storesConfigured := true, menu := map[SOUP := [LIVE]])
  {
    var configured := Initial(TINY).(storesConfigured := true);
    OneMore(TINY, [], OpCreateStores, Initial(TINY), configured);
    assert [] + [OpCreateStores] == [OpCreateStores];
    PutOnSale(TINY, [OpCreateStores], configured);
  }

  lemma {:induction false} TinyLineIsRefused(balances: map<Key, int>)
    requires OnHand(balances, AT_STORES) == 0
    ensures var line := Line(AT_STORES, -400_000_000, SaleDeduction, None);
      && FirstFault(balances, [line], false) == Some(InsufficientStock)
      && FirstFault(balances, [line], true) == Some(ConstraintViolation)
  {
    var line := Line(AT_STORES, -400_000_000, SaleDeduction, None);
    SingleFault(balances, line, false);
    SingleFault(balances, line, true);
    assert Round(-400_000_000) == 0;
  }

  /** An ordinary sale is refused because its deduction would store as zero. */
  lemma {:induction false} TinySaleIsRefused()
    ensures Ingest(After(TINY, TinyOps()), "sale", Some(0), SALE) == Err(ConstraintViolation)
    ensures After(TINY, TinyOps()).storesConfigured && Resolved(NewItems(After(TINY, TinyOps()).menu, SALE, 0))
  {
    TinyMenu();
    var s := After(TINY, TinyOps());
    SaleDeducts(s, 400_000);
    TinyLineIsRefused(s.books.balances);
    var created := s.(sales := [Sale("sale", 0, [SOLD], Ingested, false, 0)]);
    assert s.sales + created.sales == created.sales;
    assert !IsPosted(s.books, OrderDocument(0));
    assert OrderPosting(created, 0, [SOLD]) == OrderPosting(s, 0, [SOLD]);
    assert Deduct(created, 0) == Err(ConstraintViolation);
  }

  // ----- half a thousandth splits cache and ledger -----

  /** The books with one more document of one line. */
  function WithLine(b: Books, document: Document, line: Line): Books {
    Books(b.ledger + [Row(document, line)], StoreLine(b.balances, line), b.outbox + [OutboxRecord(Posting(document, [line]), NewDelivery)])
  }

  lemma {:induction false} OneLinePosts(s: State, document: Document, line: Line, allowNegative: bool)
    requires !IsPosted(s.books, document) && LineFault(s.books.balances, line, allowNegative).None?
    ensures PostTo(s, Posting(document, [line]), allowNegative) == Ok(s.(books := WithLine(s.books, document, line)))
  {
    SingleLinePosts(s.books, document, line, allowNegative);
  }

  /** Half a thousandth per serving. */
  const HALVED: Factors := map[PRODUCT := 500_000]
  const FOUND := Line(AT_STORES, 10_000 * FINE, StocktakeAdj, None)

  function CountOps(): seq<Op> {
    [OpCreateStores, OpSetActiveProducts([PRODUCT]), OpOpenTake(Stores), OpRecordCounts(0, [ItemQty(PRODUCT, 10_000)]), OpPostTake(0)]
  }

  function Sheet(systemQty: int, counted: Option<int>, status: DocStatus): seq<StockTake> {
    [StockTake(Stores, [CountLine(PRODUCT, systemQty, counted)], status)]
  }

  lemma {:induction false} OpenSheet(s: State, systemQty: int)
    requires s.activeProducts == [PRODUCT] && s.takes == [] && OnHand(s.books.balances, AT_STORES) == systemQty
    ensures Step(s, OpOpenTake(Stores)) == Ok(s.(takes := Sheet(systemQty, None, DraftDoc)))
  {
    var sheet := OpenTake(s, Stores).takes;
    assert sheet[0].lines == Sheet(systemQty, None, DraftDoc)[0].lines;
    assert sheet == Sheet(systemQty, None, DraftDoc);
  }

  lemma {:induction false} CountSheet(s: State, systemQty: int, earlier: Option<int>, status: DocStatus, counted: nat)
    requires s.takes == Sheet(systemQty, earlier, status)
    ensures Step(s, OpRecordCounts(0, [ItemQty(PRODUCT, counted)])) == Ok(s.(takes := Sheet(systemQty, Some(counted), status)))
  {
    var counts, line := [ItemQty(PRODUCT, counted)], s.takes[0].lines[0];
    assert Recount(line, counts) == line.(counted := Some(counted));
    assert OnSheet(s.takes[0].lines, PRODUCT);
    assert RecordCounts(s, 0, counts).value.takes[0].lines == [line.(counted := Some(counted))];
    assert s.takes[0 := Sheet(systemQty, Some(counted), status)[0]] == Sheet(systemQty, Some(counted), status);
  }

  lemma {:induction false} SheetVariant(systemQty: int, counted: int, status: DocStatus)
    requires counted != systemQty
    ensures var take := Sheet(systemQty, Some(counted), status)[0];
      && Variant(take.lines) == [ItemQty(PRODUCT, counted - systemQty)]
      && TakeLines(take) == [Line(AT_STORES, (counted - systemQty) * FINE, StocktakeAdj, None)]
  {
    var lines := Sheet(systemQty, Some(counted), status)[0].lines;
    assert lines[..0] == [] && Variant(lines[..0]) == [];
  }

  /** Ten units found by the first count. */
  lemma {:induction false} TenCounted()
    ensures After(HALVED, CountOps()) ==
      Initial(HALVED).(storesConfigured := true, activeProducts := [PRODUCT], takes := Sheet(0, Some(10_000), PostedDoc),
                       books := WithLine(EmptyBooks, TakeDocument(0), FOUND))
  {
    var ops := CountOps();
    var s1 := Initial(HALVED).(storesConfigured := true);
    var s2 := s1.(activeProducts := [PRODUCT]);
    var s3 := s2.(takes := Sheet(0, None, DraftDoc));
    var s4 := s3.(takes := Sheet(0, Some(10_000), DraftDoc));
    var s5 := s4.(takes := Sheet(0, Some(10_000), PostedDoc), books := WithLine(EmptyBooks, TakeDocument(0), FOUND));
    OneMore(HALVED, [], ops[0], Initial(HALVED), s1);
    OneMore(HALVED, [ops[0]], ops[1], s1, s2);
    OpenSheet(s2, 0);
    OneMore(HALVED, [ops[0]] + [ops[1]], ops[2], s2, s3);
    CountSheet(s3, 0, None, DraftDoc, 10_000);
    OneMore(HALVED, [ops[0]] + [ops[1]] + [ops[2]], ops[3], s3, s4);
    SheetPosts(s4, s5);
    OneMore(HALVED, [ops[0]] + [ops[1]] + [ops[2]] + [ops[3]], ops[4], s4, s5);
    assert [] + [ops[0]] == [ops[0]];
    assert [ops[0]] + [ops[1]] + [ops[2]] + [ops[3]] + [ops[4]] == ops;
  }

  lemma {:induction false} SheetPosts(s: State, s': State)
    requires s.takes == Sheet(0, Some(10_000), DraftDoc) && s.books == EmptyBooks && s.thresholds == map[]
    requires s' == s.(takes := Sheet(0, Some(10_000), PostedDoc), books := WithLine(EmptyBooks, TakeDocument(0), FOUND))
    ensures Step(s, OpPostTake(0)) == Ok(s')
  {
    SheetVariant(0, 10_000, DraftDoc);
    OneLinePosts(s, TakeDocument(0), FOUND, true);
    assert s.takes[0 := s.takes[0].(status := PostedDoc)] == Sheet(0, Some(10_000), PostedDoc);
  }

  function HalfOps(): seq<Op> { CountOps() + MenuOps() + [OpIngest("sale", Some(0), SALE)] }

  const TAKEN := Line(AT_STORES, -HALF, SaleDeduction, None)

  /** The books after the count, and after the sale on top of it. */
  lemma {:induction false} TenLessHalf()
    ensures var b := WithLine(EmptyBooks, TakeDocument(0), FOUND);
      && !IsPosted(b, OrderDocument(0))
      && LineFault(b.balances, TAKEN, false).None?
      && OnHand(WithLine(b, OrderDocument(0), TAKEN).balances, AT_STORES) == 10_000
      && LedgerSum(WithLine(b, OrderDocument(0), TAKEN).ledger, AT_STORES) == 9_999
  {
    HalfThousandthRounds(10_000);
    assert Round(10_000 * FINE) == 10_000;
    SingleLinePosts(EmptyBooks, TakeDocument(0), FOUND, true);
    var b := WithLine(EmptyBooks, TakeDocument(0), FOUND);
    PostRows(EmptyBooks, Posting(TakeDocument(0), [FOUND]), true, OrderDocument(0));
    SingleLinePosts(b, OrderDocument(0), TAKEN, false);
  }

  /** Ten units counted, one serving sold: the cache still says ten, the ledger 9.999. */
  lemma {:induction false} HalfThousandthRun()
    ensures var b := After(HALVED, HalfOps()).books;
      OnHand(b.balances, AT_STORES) == 10_000 && LedgerSum(b.ledger, AT_STORES) == 9_999
  {
    TenCounted();
    var counted := After(HALVED, CountOps());
    PutOnSale(HALVED, CountOps(), counted);
    var s := counted.(menu := map[SOUP := [LIVE]]);
    SaleDeducts(s, 500_000);
    TenLessHalf();
    SoupSells(s, TAKEN);
    OneMore(HALVED, CountOps() + MenuOps(), OpIngest("sale", Some(0), SALE), s, SoldState(s, TAKEN));
  }

  function SoldState(s: State, taken: Line): State {
    s.(sales := [Sale("sale", 0, [SOLD], Ingested, false, 0)], books := WithLine(s.books, OrderDocument(0), taken))
  }

  /** The sale commits at once, with its one row. */
  lemma {:induction false} SoupSells(s: State, taken: Line)
    requires s.sales == [] && s.storesConfigured && NewItems(s.menu, SALE, 0) == [SOLD]
    requires OrderPosting(s, 0, [SOLD]) == Posting(OrderDocument(0), [taken])
    requires !IsPosted(s.books, OrderDocument(0)) && LineFault(s.books.balances, taken, false).None?
    ensures Step(s, OpIngest("sale", Some(0), SALE)) == Ok(SoldState(s, taken))
  {
    var created := s.(sales := [Sale("sale", 0, [SOLD], Ingested, false, 0)]);
    assert s.sales + created.sales == created.sales;
    assert OrderPosting(created, 0, [SOLD]) == OrderPosting(s, 0, [SOLD]);
    OneLinePosts(created, OrderDocument(0), taken, false);
  }
}
