/** Recipe-driven deductions of one order (backend/apps/pos_ingest/services.py, `_deduction_lines`). */
module Deduction {
  import opened Prelude
  import opened Ledger
  import opened Accounting
  import opened Recipes

  /** `Product.recipe_to_stock_factor` in millionths; the column's default is 1. */
  const DEFAULT_FACTOR := 1_000_000

  /** Menu items by POS code, with their recipe versions. */
  type Menu = map<string, History>

  type Factors = map<ProductId, nat>

  datatype RecipeRef = RecipeRef(posCode: string, version: nat)

  /** A sale line; `recipe` is the version snapshotted at ingestion. Quantity in thousandths. */
  datatype OrderItem = OrderItem(posCode: string, qty: int, recipe: Option<RecipeRef>)

  /** One recipe line of one sold item: how much of a product it uses, in units of 10^-12. */
  datatype Requirement = Requirement(product: ProductId, qty: int)

  function Factor(factors: Factors, p: ProductId): nat {
    if p in factors then factors[p] else DEFAULT_FACTOR
  }

  function RecipeLines(menu: Menu, ref: RecipeRef): seq<RecipeLine> {
    if ref.posCode in menu && ref.version < |menu[ref.posCode]| then menu[ref.posCode][ref.version].lines else []
  }

  function LineRequirement(factors: Factors, line: RecipeLine, itemQty: int): Requirement {
    Requirement(line.product, line.qtyPerServing * Factor(factors, line.product) * itemQty)
  }

  function ItemRequirements(menu: Menu, factors: Factors, item: OrderItem): (reqs: seq<Requirement>)
    ensures item.recipe.None? ==> reqs == []
  {
    if item.recipe.None? then []
    else
      var lines := RecipeLines(menu, item.recipe.value);
      seq(|lines|, i requires 0 <= i < |lines| => LineRequirement(factors, lines[i], item.qty))
  }

  /** Every recipe line of every item, unmerged, in order. */
  function Requirements(menu: Menu, factors: Factors, items: seq<OrderItem>): seq<Requirement> {
    if items == [] then []
    else Requirements(menu, factors, items[..|items| - 1]) + ItemRequirements(menu, factors, items[|items| - 1])
  }

  function Total(reqs: seq<Requirement>, p: ProductId): int {
    if reqs == [] then 0
    else
      var last := reqs[|reqs| - 1];
      Total(reqs[..|reqs| - 1], p) + if last.product == p then last.qty else 0
  }

  /** The products used, each once, in order of first use. */
  function Products(reqs: seq<Requirement>): seq<ProductId> {
    if reqs == [] then []
    else
      var earlier, last := Products(reqs[..|reqs| - 1]), reqs[|reqs| - 1];
      if last.product in earlier then earlier else earlier + [last.product]
  }

  function DeductionLine(reqs: seq<Requirement>, p: ProductId): Line {
    Line(Key(p, Stores), -Total(reqs, p), SaleDeduction, None)
  }

  /** One deduction per product, of everything the order needs of it. */
  function DeductionLines(reqs: seq<Requirement>): (lines: seq<Line>)
    ensures |lines| == |Products(reqs)|
  {
    var ps := Products(reqs);
    seq(|ps|, i requires 0 <= i < |ps| => DeductionLine(reqs, ps[i]))
  }

  predicate Resolved(items: seq<OrderItem>) {
    forall i :: 0 <= i < |items| ==> items[i].recipe.Some?
  }

  lemma {:induction false} ProductsListed(reqs: seq<Requirement>)
    ensures Distinct(Products(reqs))
    ensures forall i :: 0 <= i < |reqs| ==> reqs[i].product in Products(reqs)
    ensures forall p :: p in Products(reqs) ==> exists i :: 0 <= i < |reqs| && reqs[i].product == p
  {
    if reqs != [] {
      var n := |reqs| - 1;
      ProductsListed(reqs[..n]);
      forall i | 0 <= i < |reqs|
        ensures reqs[i].product in Products(reqs)
      {
        if i < n {
          assert reqs[..n][i] == reqs[i];
        }
      }
      forall p | p in Products(reqs)
        ensures exists i :: 0 <= i < |reqs| && reqs[i].product == p
      {
        if p != reqs[n].product {
          var i :| 0 <= i < n && reqs[..n][i].product == p;
          assert reqs[i].product == p;
        }
      }
    }
  }

  lemma {:induction false} TotalSigns(reqs: seq<Requirement>, p: ProductId)
    requires forall i :: 0 <= i < |reqs| ==> reqs[i].qty > 0
    ensures Total(reqs, p) >= 0
    ensures p in Products(reqs) ==> Total(reqs, p) > 0
    ensures p !in Products(reqs) ==> Total(reqs, p) == 0
  {
    if reqs != [] {
      var n := |reqs| - 1;
      assert forall i :: 0 <= i < n ==> reqs[..n][i] == reqs[i];
      TotalSigns(reqs[..n], p);
    }
  }

  lemma {:induction false} TotalConcat(a: seq<Requirement>, b: seq<Requirement>, p: ProductId)
    ensures Total(a + b, p) == Total(a, p) + Total(b, p)
  {
    if b == [] {
      assert a + b == a;
    } else {
      var n := |b| - 1;
      assert (a + b)[..|a + b| - 1] == a + b[..n];
      TotalConcat(a, b[..n], p);
    }
  }

  /** What the order needs of a product, straight from its items and their recipes. */
  function Need(menu: Menu, factors: Factors, items: seq<OrderItem>, p: ProductId): int {
    if items == [] then 0
    else
      Need(menu, factors, items[..|items| - 1], p)
      + Total(ItemRequirements(menu, factors, items[|items| - 1]), p)
  }

  lemma {:induction false} TotalIsNeed(menu: Menu, factors: Factors, items: seq<OrderItem>, p: ProductId)
    ensures Total(Requirements(menu, factors, items), p) == Need(menu, factors, items, p)
  {
    if items != [] {
      var n := |items| - 1;
      TotalIsNeed(menu, factors, items[..n], p);
      TotalConcat(Requirements(menu, factors, items[..n]), ItemRequirements(menu, factors, items[n]), p);
    }
  }

  /** Recipes are usable: existing versions with positive quantities, positive factors, and
      items sold in positive quantities. */
  ghost predicate PositiveRecipes(menu: Menu, factors: Factors, items: seq<OrderItem>) {
    && (forall i :: 0 <= i < |items| ==> items[i].qty > 0)
    && (forall i, j :: 0 <= i < |items| && items[i].recipe.Some? && 0 <= j < |RecipeLines(menu, items[i].recipe.value)| ==>
          RecipeLines(menu, items[i].recipe.value)[j].qtyPerServing > 0)
    && (forall p :: p in factors ==> factors[p] > 0)
  }

  lemma ProductPositive(a: int, b: int, c: int)
    requires a > 0 && b > 0 && c > 0
    ensures a * b * c > 0
  {
    assert a * b > 0;
  }

  lemma {:induction false} RequirementsPositive(menu: Menu, factors: Factors, items: seq<OrderItem>)
    requires PositiveRecipes(menu, factors, items)
    ensures forall i :: 0 <= i < |Requirements(menu, factors, items)| ==> Requirements(menu, factors, items)[i].qty > 0
  {
    if items != [] {
      var n := |items| - 1;
      var shorter := items[..n];
      assert forall i :: 0 <= i < n ==> shorter[i] == items[i];
      RequirementsPositive(menu, factors, shorter);
      var item := items[n];
      if item.recipe.Some? {
        var lines := RecipeLines(menu, item.recipe.value);
        forall j | 0 <= j < |lines|
          ensures LineRequirement(factors, lines[j], item.qty).qty > 0
        {
          ProductPositive(lines[j].qtyPerServing, Factor(factors, lines[j].product), item.qty);
        }
      }
    }
  }

  /** `_deduction_lines` yields one line per product used, drawn from Stores, whose quantity is
      the unmerged sum over all items and recipe lines. */
  lemma DeductionRefinesNeed(menu: Menu, factors: Factors, items: seq<OrderItem>)
    requires PositiveRecipes(menu, factors, items)
    ensures var lines := DeductionLines(Requirements(menu, factors, items));
      && DistinctKeys(lines)
      && (forall i :: 0 <= i < |lines| ==>
            && lines[i].key.location == Stores
            && lines[i].qty == -Need(menu, factors, items, lines[i].key.product)
            && lines[i].qty < 0
            && lines[i].kind == SaleDeduction)
      && (forall p :: Need(menu, factors, items, p) != 0 ==> exists i :: 0 <= i < |lines| && lines[i].key.product == p)
  {
    var reqs := Requirements(menu, factors, items);
    var ps, lines := Products(reqs), DeductionLines(reqs);
    ProductsListed(reqs);
    RequirementsPositive(menu, factors, items);
    forall p: ProductId
      ensures Total(reqs, p) == Need(menu, factors, items, p)
      ensures p in ps ==> Total(reqs, p) > 0
      ensures p !in ps ==> Total(reqs, p) == 0
    {
      TotalIsNeed(menu, factors, items, p);
      TotalSigns(reqs, p);
    }
    forall p | Need(menu, factors, items, p) != 0
      ensures exists i :: 0 <= i < |lines| && lines[i].key.product == p
    {
      var i :| 0 <= i < |ps| && ps[i] == p;
      assert lines[i].key.product == p;
    }
  }

  /** Menu changes that keep the lines of existing versions leave every requirement alone. */
  lemma {:induction false} RequirementsFrame(menu: Menu, menu': Menu, factors: Factors, items: seq<OrderItem>)
    requires forall i :: 0 <= i < |items| && items[i].recipe.Some? ==>
      RecipeLines(menu', items[i].recipe.value) == RecipeLines(menu, items[i].recipe.value)
    ensures Requirements(menu', factors, items) == Requirements(menu, factors, items)
  {
    if items != [] {
      var n := |items| - 1;
      assert forall i :: 0 <= i < n ==> items[..n][i] == items[i];
      RequirementsFrame(menu, menu', factors, items[..n]);
      assert ItemRequirements(menu', factors, items[n]) == ItemRequirements(menu, factors, items[n]);
    }
  }

  // ----- building the lines, as the source does -----

  /** An insertion-ordered dictionary holding the totals of the requirements seen so far. */
  ghost predicate Tallied(order: seq<ProductId>, totals: map<ProductId, int>, reqs: seq<Requirement>) {
    && order == Products(reqs)
    && forall p: ProductId :: (p in totals <==> p in order) && (p in totals ==> totals[p] == Total(reqs, p))
  }

  lemma TallyStep(order: seq<ProductId>, totals: map<ProductId, int>, reqs: seq<Requirement>, req: Requirement)
    requires Tallied(order, totals, reqs)
    ensures var p := req.product;
      Tallied(if p in totals then order else order + [p],
              totals[p := (if p in totals then totals[p] else 0) + req.qty],
              reqs + [req])
  {
    assert (reqs + [req])[..|reqs|] == reqs;
    NotListedTotal(reqs, req.product);
  }

  lemma {:induction false} NotListedTotal(reqs: seq<Requirement>, p: ProductId)
    ensures p !in Products(reqs) ==> Total(reqs, p) == 0
  {
    if reqs != [] {
      NotListedTotal(reqs[..|reqs| - 1], p);
    }
  }

  /** `_deduction_lines`: nothing when some item has no recipe, else one line per product. */
  method BuildDeductions(menu: Menu, factors: Factors, items: seq<OrderItem>) returns (lines: Option<seq<Line>>)
    ensures lines == if Resolved(items) then Some(DeductionLines(Requirements(menu, factors, items))) else None
  {
    var order: seq<ProductId>, totals: map<ProductId, int> := [], map[];
    ghost var reqs := [];
    for i := 0 to |items|
      invariant reqs == Requirements(menu, factors, items[..i])
      invariant Tallied(order, totals, reqs)
      invariant forall j :: 0 <= j < i ==> items[j].recipe.Some?
    {
      if items[i].recipe.None? {
        return None;
      }
      OneMoreItem(menu, factors, items, i);
      order, totals := TallyItem(menu, factors, items[i], order, totals, reqs);
      reqs := reqs + ItemRequirements(menu, factors, items[i]);
    }
    assert items[..|items|] == items;
    var built := TotalLines(order, totals, reqs);
    return Some(built);
  }

  lemma OneMoreItem(menu: Menu, factors: Factors, items: seq<OrderItem>, i: nat)
    requires i < |items|
    ensures Requirements(menu, factors, items[..i + 1]) ==
      Requirements(menu, factors, items[..i]) + ItemRequirements(menu, factors, items[i])
  {
    assert items[..i + 1][..i] == items[..i];
  }

  /** One deduction per dictionary entry, in insertion order. */
  method TotalLines(order: seq<ProductId>, totals: map<ProductId, int>, ghost reqs: seq<Requirement>)
    returns (lines: seq<Line>)
    requires Tallied(order, totals, reqs)
    ensures lines == DeductionLines(reqs)
  {
    lines := [];
    for n := 0 to |order|
      invariant lines == DeductionLines(reqs)[..n]
    {
      lines := lines + [Line(Key(order[n], Stores), -totals[order[n]], SaleDeduction, None)];
    }
  }

  /** `lines[p] = lines.get(p, 0) + qty`. */
  method TallyOne(order: seq<ProductId>, totals: map<ProductId, int>, req: Requirement, ghost earlier: seq<Requirement>)
    returns (order': seq<ProductId>, totals': map<ProductId, int>)
    requires Tallied(order, totals, earlier)
    ensures Tallied(order', totals', earlier + [req])
  {
    TallyStep(order, totals, earlier, req);
    order', totals' := order, totals;
    if req.product !in totals {
      order', totals' := order + [req.product], totals[req.product := 0];
    }
    totals' := totals'[req.product := totals'[req.product] + req.qty];
  }

  /** The inner loop: the recipe lines of one item. */
  method TallyItem(menu: Menu, factors: Factors, item: OrderItem, order: seq<ProductId>, totals: map<ProductId, int>,
                   ghost earlier: seq<Requirement>)
    returns (order': seq<ProductId>, totals': map<ProductId, int>)
    requires item.recipe.Some? && Tallied(order, totals, earlier)
    ensures Tallied(order', totals', earlier + ItemRequirements(menu, factors, item))
  {
    var recipe := RecipeLines(menu, item.recipe.value);
    ghost var reqs := ItemRequirements(menu, factors, item);
    order', totals' := order, totals;
    assert earlier + reqs[..0] == earlier;
    for j := 0 to |recipe|
      invariant Tallied(order', totals', earlier + reqs[..j])
    {
      assert earlier + reqs[..j + 1] == (earlier + reqs[..j]) + [reqs[j]];
      var stockQty := recipe[j].qtyPerServing * Factor(factors, recipe[j].product) * item.qty;
      order', totals' := TallyOne(order', totals', Requirement(recipe[j].product, stockQty), earlier + reqs[..j]);
    }
    assert reqs[..|recipe|] == reqs;
  }
}
