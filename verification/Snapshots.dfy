/** Which recipe version a sale line is made with, at ingestion and at replay
    (backend/apps/pos_ingest/services.py, backend/apps/menu/models.py, `active_for`). */
module Snapshots {
  import opened Prelude
  import opened Ledger
  import opened Recipes
  import opened Deduction
  import opened Model
  import opened Services
  import opened System
  import opened Effects
  import opened Documents
  import opened SalesLifecycle
  import opened Invariant
  import opened Runs

  /** Version `i` of the item is in force on day `d`. */
  predicate InForce(menu: Menu, posCode: string, i: nat, d: Date) {
    posCode in menu && i < |menu[posCode]| && Covers(menu[posCode][i], d)
  }

  /** The snapshot is the version in force on the day of the sale, and there is none iff no version
      is: because the item is not on the menu, or none of its versions covers that day. */
  ghost predicate SnapshotOf(menu: Menu, posCode: string, d: Date, recipe: Option<RecipeRef>) {
    && (forall i: nat :: recipe == Some(RecipeRef(posCode, i)) <==> InForce(menu, posCode, i, d))
    && (recipe.None? <==> forall i: nat :: !InForce(menu, posCode, i, d))
  }

  lemma {:induction false} ResolvesToSnapshot(menu: Menu, posCode: string, d: Date)
    requires MenuInv(menu)
    ensures SnapshotOf(menu, posCode, d, Resolve(menu, posCode, d))
  {
    if posCode in menu {
      var vs := menu[posCode];
      ActiveForCovers(vs, d);
      forall i: nat | i < |vs|
        ensures ActiveFor(vs, d) == Some(i) <==> Covers(vs[i], d)
      {
        ResolutionIsUnique(vs, d, i);
      }
    }
  }

  // ----- ingestion -----

  /** The item of a raw line: its code and quantity, with the version in force on the day of the sale. */
  ghost predicate ItemOf(menu: Menu, raw: RawLine, soldOn: Date, item: OrderItem) {
    item.posCode == raw.posCode && item.qty == raw.qty && SnapshotOf(menu, raw.posCode, soldOn, item.recipe)
  }

  /** Some version of the raw line's item is in force on the day of the sale. */
  ghost predicate Known(menu: Menu, raw: RawLine, soldOn: Date) {
    exists i: nat :: InForce(menu, raw.posCode, i, soldOn)
  }

  /** The table of sales has one more sale, with one item per raw line. */
  ghost predicate SaleAdded(s: State, saleId: string, soldOn: Date, raw: seq<RawLine>, s': State) {
    && |s'.sales| == |s.sales| + 1
    && s'.sales[..|s.sales|] == s.sales
    && var sale := s'.sales[|s.sales|];
       && sale.saleId == saleId && sale.soldOn == soldOn && sale.replays == 0
       && |sale.items| == |raw|
       && (forall i :: 0 <= i < |raw| ==> ItemOf(s.menu, raw[i], soldOn, sale.items[i]))
       && (sale.status == if forall i :: 0 <= i < |raw| ==> Known(s.menu, raw[i], soldOn) then Ingested else FlaggedUnknownItem)
       && (sale.status.FlaggedUnknownItem? ==> !sale.insufficient && s'.books == s.books)
  }

  lemma {:induction false} NewItemsAreSnapshots(menu: Menu, raw: seq<RawLine>, soldOn: Date)
    requires MenuInv(menu)
    ensures forall i :: 0 <= i < |raw| ==> ItemOf(menu, raw[i], soldOn, NewItems(menu, raw, soldOn)[i])
    ensures Resolved(NewItems(menu, raw, soldOn)) <==> forall i :: 0 <= i < |raw| ==> Known(menu, raw[i], soldOn)
  {
    var items := NewItems(menu, raw, soldOn);
    forall i | 0 <= i < |raw|
      ensures ItemOf(menu, raw[i], soldOn, items[i])
      ensures items[i].recipe.Some? <==> Known(menu, raw[i], soldOn)
    {
      ResolvesToSnapshot(menu, raw[i].posCode, soldOn);
    }
  }

  /** In every reachable state a committed ingestion of a known sale id changes nothing, and of a new
      one records one item per raw line, each with the version in force on the day of the sale,
      whenever the sale arrives; the sale is flagged iff some line has none. */
  lemma {:induction false} IngestedAsSold(factors: Factors, ops: seq<Op>, saleId: string, soldOn: Option<Date>, raw: seq<RawLine>, s': State)
    requires FactorsPositive(factors) && Ingest(After(factors, ops), saleId, soldOn, raw) == Ok(s')
    ensures saleId != "" && soldOn.Some? && raw != []
    ensures KnownSale(After(factors, ops), saleId) ==> s' == After(factors, ops)
    ensures !KnownSale(After(factors, ops), saleId) ==> SaleAdded(After(factors, ops), saleId, soldOn.value, raw, s')
  {
    var s := After(factors, ops);
    Reachable(factors, ops);
    IngestOutcome(s, OpIngest(saleId, soldOn, raw), s');
    if !KnownSale(s, saleId) {
      NewItemsAreSnapshots(s.menu, raw, soldOn.value);
      IngestAddsSale(s, saleId, soldOn, raw, s');
    }
  }

  lemma {:induction false} IngestAddsSale(s: State, saleId: string, soldOn: Option<Date>, raw: seq<RawLine>, s': State)
    requires Ingest(s, saleId, soldOn, raw) == Ok(s') && !KnownSale(s, saleId)
    ensures IngestedAs(s, OpIngest(saleId, soldOn, raw), s')
  {
    IngestOutcome(s, OpIngest(saleId, soldOn, raw), s');
    if s' == s {
      var items := NewItems(s.menu, raw, soldOn.value);
      var created := CreatedSale(s, OpIngest(saleId, soldOn, raw));
      if Resolved(items) {
        DeductTables(created, |s.sales|);
      }
      assert false;
    }
  }

  // ----- replay -----

  /** A replayed item keeps its code, its quantity and a snapshot it already had; without one it now
      has the version that the menu says was in force on the day of the sale. */
  ghost predicate ReplayedItem(menu: Menu, soldOn: Date, item: OrderItem, item': OrderItem) {
    && item'.posCode == item.posCode
    && item'.qty == item.qty
    && if item.recipe.Some? then item'.recipe == item.recipe else SnapshotOf(menu, item.posCode, soldOn, item'.recipe)
  }

  ghost predicate SaleReplayed(s: State, id: nat, s': State) {
    && id < |s.sales| == |s'.sales|
    && (forall other :: 0 <= other < |s.sales| && other != id ==> s'.sales[other] == s.sales[other])
    && var sale, sale' := s.sales[id], s'.sales[id];
       && sale'.saleId == sale.saleId && sale'.soldOn == sale.soldOn && sale'.insufficient == sale.insufficient
       && sale'.replays == sale.replays + 1
       && |sale'.items| == |sale.items|
       && (forall i :: 0 <= i < |sale.items| ==> ReplayedItem(s.menu, sale.soldOn, sale.items[i], sale'.items[i]))
       && (sale'.status == if forall i :: 0 <= i < |sale'.items| ==> sale'.items[i].recipe.Some? then Replayed else FlaggedUnknownItem)
  }

  /** In every reachable state a committed replay gives each item without a snapshot the version that
      was in force on the day of the sale, and leaves everything else in the table of sales alone. */
  lemma {:induction false} ReplayedAsSold(factors: Factors, ops: seq<Op>, id: nat, s': State)
    requires FactorsPositive(factors) && Replay(After(factors, ops), id) == Ok(s')
    ensures SaleReplayed(After(factors, ops), id, s')
  {
    var s := After(factors, ops);
    Reachable(factors, ops);
    ReplayOutcome(s, id, s');
    var items := s.sales[id].items;
    forall i | 0 <= i < |items|
      ensures ReplayedItem(s.menu, s.sales[id].soldOn, items[i], ReresolveAll(s.menu, items, s.sales[id].soldOn)[i])
    {
      ResolvesToSnapshot(s.menu, items[i].posCode, s.sales[id].soldOn);
    }
  }

  // ----- where every snapshot comes from -----

  /** Call `i` is the one that took the snapshot of item `j` of the sale, and the version was in force on
      the day of the sale when it did. */
  predicate TakenAt(factors: Factors, ops: seq<Op>, i: nat, id: nat, j: nat, ref: RecipeRef)
    requires i < |ops|
  {
    var s, s' := After(factors, ops[..i]), After(factors, ops[..i + 1]);
    && id < |s'.sales| && j < |s'.sales[id].items|
    && s'.sales[id].items[j].recipe == Some(ref)
    && (id < |s.sales| && j < |s.sales[id].items| ==> s.sales[id].items[j].recipe.None?)
    && ref.posCode == s'.sales[id].items[j].posCode
    && InForce(s.menu, ref.posCode, ref.version, s'.sales[id].soldOn)
  }

  lemma {:induction false} TakenEarlier(factors: Factors, ops: seq<Op>, i: nat, id: nat, j: nat, ref: RecipeRef)
    requires i < |ops| - 1 && TakenAt(factors, ops[..|ops| - 1], i, id, j, ref)
    ensures TakenAt(factors, ops, i, id, j, ref)
  {
    var n := |ops| - 1;
    assert ops[..n][..i] == ops[..i] && ops[..n][..i + 1] == ops[..i + 1];
  }

  /** A call leaves a snapshot as it was or takes it from the menu of its own time. */
  lemma {:induction false} StepTakes(s: State, op: Op, s': State, id: nat, j: nat)
    requires Inv(s) && Step(s, op) == Ok(s')
    requires id < |s'.sales| && j < |s'.sales[id].items| && s'.sales[id].items[j].recipe.Some?
    ensures var item := s'.sales[id].items[j];
      if id < |s.sales| && j < |s.sales[id].items| && s.sales[id].items[j].recipe.Some?
      then item.recipe == s.sales[id].items[j].recipe
      else item.recipe.value.posCode == item.posCode && InForce(s.menu, item.posCode, item.recipe.value.version, s'.sales[id].soldOn)
  {
    if op.OpIngest? {
      IngestOutcome(s, op, s');
      if s' != s && id == |s.sales| {
        ResolveValid(s.menu, op.raw[j].posCode, op.soldOn.value);
      }
    } else if op.OpReplay? {
      ReplayOutcome(s, op.id, s');
      if id == op.id {
        ResolveValid(s.menu, s.sales[id].items[j].posCode, s.sales[id].soldOn);
      }
    } else {
      StepTablesKept(s, op, s');
    }
  }

  /** Every snapshot in every reachable state was taken by one ingestion or replay, from the menu of
      that time, as the version in force on the day of the sale. */
  lemma {:induction false} SnapshotsAreInForce(factors: Factors, ops: seq<Op>, id: nat, j: nat) returns (i: nat)
    requires FactorsPositive(factors) && id < |After(factors, ops).sales| && j < |After(factors, ops).sales[id].items|
    requires After(factors, ops).sales[id].items[j].recipe.Some?
    ensures i < |ops| && TakenAt(factors, ops, i, id, j, After(factors, ops).sales[id].items[j].recipe.value)
  {
    var n := |ops| - 1;
    var s, s' := After(factors, ops[..n]), After(factors, ops);
    Reachable(factors, ops[..n]);
    if Step(s, ops[n]).Ok? {
      StepTakes(s, ops[n], s', id, j);
    }
    if id < |s.sales| && j < |s.sales[id].items| && s.sales[id].items[j].recipe.Some? {
      i := SnapshotsAreInForce(factors, ops[..n], id, j);
      TakenEarlier(factors, ops, i, id, j, s'.sales[id].items[j].recipe.value);
    } else {
      i := n;
      assert ops[..n + 1] == ops;
    }
  }
}
