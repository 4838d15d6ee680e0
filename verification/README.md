# Stock ledger verification model

A Dafny model of the back office's stock ledger and of every document that drives it, with
proofs about all runs of the system. `dafny verify dfyconfig.toml` checks the whole project.

## What is modelled

The state (`Model.State`) is the set of tables: the append-only ledger with its balance cache and
outbox, approvals and thresholds, issue notes, transfers, stock-takes, wastage entries, the menu
with its recipe versions, sale events with their orders, budgets, purchase orders, GRNs and
invoices. One API call is one step (`System.Op`, `System.Next`) that commits or leaves every table
alone, as `transaction.atomic` does; `System.After` is the state after any sequence of calls from
an empty installation. Database check and unique constraints are guards that abort the step.

The code is modelled twice. `Services` specifies each service call as a function on the tables.
`Backend.BackOffice`, `StockTables.StockLedger`, `RecipeTables.RecipeBook`, `Builders` and
`Deduction.BuildDeductions` follow the Python statement by statement — tables are fields, rows are
updated in place, loops append lines, failures restore the saved tables — and each method is proved
to do to the tables what its function says. `BackOffice.Call` performs exactly one `System.Next`, and
`Runner.Run` makes any sequence of calls on a new back office and ends with its tables equal to
`After`, so what is proved about `After` holds of the code's own tables.

Units: stored quantities are integer thousandths. A requested line is exact, in units of 10^-12,
because a recipe quantity, a conversion factor and a sold quantity have 3, 6 and 3 decimals; the
columns round to the nearest thousandth, ties away from zero, as PostgreSQL's `numeric(12,3)` does.
Money is in cents and values are in units of 10^-5. Row ids are positions in a table. Clocks, the
Pastel adapter's answers and the set of due outbox records are parameters.

Modules, bottom up: `Prelude`, `Ledger` (posting), `Accounting` (what the outbox determines),
`Drift` (any rounding to the nearest thousandth), `Recipes`, `Delivery`, `Deduction`, `Model`,
`Services`, `System`; `Effects` (what a step may change), `Documents`, `WastageLifecycle`,
`SalesLifecycle`, `Purchasing` (per-component invariants), `Invariant` (all of them together, kept
by every call); `Runs`, `Moves`, `Reports`, `RowKinds`, `StockTakes`, `CountDrift`, `Recounts`,
`ApprovalQueue`, `Reconciliation`, `Guarantees` (the results over runs); `Valuation`, `Snapshots`,
`Servings`, `Invoicing`, `DeliveryStatus`, `CallEffects` (what costs, recipe snapshots, deductions,
matches, delivery statuses and single calls mean, told without the functions that compute them);
`Witnesses`, `QueueWitnesses`, `CostWitnesses`, `SaleWitnesses`, `DeliveryWitnesses` (concrete runs);
`StockTables`, `RecipeTables`, `Builders`, `Backend`, `Runner` (the imperative code).

## Where the code and its documentation disagree

The model follows the code. Each case below has a concrete run from an empty installation and the
exact condition under which the code does what is promised.

- `docs/SYSTEM_OVERVIEW.md:74` says on-hand is the sum of the movements. It need not be: a deduction
  of an odd number of half-thousandths that leaves stock behind rounds up in the cache and away from
  zero in the ledger. Run: `Witnesses.HalfThousandthRun`. Exactly when the two agree:
  `Reports.CacheIsLedgerIff`, and for the leakage report `Reports.CachedStockIsReceiptsLessLeakageIff`.
  Whatever rounding to the nearest the database uses (the test settings select SQLite), the drift is
  bounded by the number of ties: `Drift.StoreDrift`.
- `docs/SYSTEM_OVERVIEW.md:78` says changing a threshold never affects queued items. Posting a queued
  transfer or stock-take again checks the threshold now in force. Runs:
  `QueueWitnesses.QueuedTransferIsReleased`, `QueueWitnesses.QueuedTakeIsReleased`. Exactly when
  that writes the rows without a decision: `ApprovalQueue.RepostReleasesTransferIff` and
  `ApprovalQueue.RepostReleasesTakeIff`. The threshold recorded on the approval does stay as it was
  (`ApprovalQueue.SnapshotIsThresholdAtSubmission`); no rule reads it. The approval stays open, and a
  transfer released that way can still be rejected: it is then REJECTED with its rows in the ledger
  (`QueueWitnesses.RejectedTransferHasRows`), as a decision other than an approval never moves stock
  (`CallEffects.DecisionSettles`).
- `docs/SYSTEM_OVERVIEW.md:80` says the outbox is drained with exponential backoff,
  requirement FR-029 that failed syncs are retried, and
  `backend/apps/pastel/tasks.py:25-27` that a record is ABANDONED after five failures. A refused record
  becomes FAILED and a drain only takes PENDING ones, so nothing but a manual resend tries it again: while
  every attempt is answered, no batch tries a record twice and no record is ever ABANDONED. Run, with five
  refusals: `DeliveryWitnesses.FiveRefusals`. Exactly when a batch tries a record again (it is due and
  its last attempt was a manual resend during which the adapter raised): `DeliveryStatus.RetriedIff`.
  Exactly when a record is ABANDONED: `DeliveryStatus.StatusMeansLastAttempt`.
- `backend/apps/pos_ingest/services.py:57-64` says insufficient stock does not block the ticket, and
  it does not, but a deduction that rounds to zero does: the ledger's non-zero constraint aborts the
  whole ingestion. Run: `Witnesses.TinySaleIsRefused`. Exactly when a sale is taken:
  `SalesLifecycle.ResolvedIngestCommitsIff`.
- `backend/apps/core/services.py:77-84` presents a decision as one on the submitted document, but
  counts can be edited while a stock-take waits, so an approval can post other variances than those
  valued. Run: `QueueWitnesses.ApprovalPostsEditedCounts`. Exactly when the rows are those valued:
  `Recounts.PostedRowsAreThoseValuedIff`.
- `backend/apps/procurement/services.py:304-309` marks a covered order RECEIVED, but sending it again
  loses that. Run: `QueueWitnesses.SendingLosesReceived`. Exactly when an order is RECEIVED:
  `Guarantees.OrderStatusIsExact`.

## Model

| member | source | states |
|---|---|---|
| Ledger.Round | backend/apps/inventory/models.py:37 | the stored quantity is within half a thousandth of the exact one, and is exact when three decimals suffice |
| Ledger.PostRows | backend/apps/inventory/services.py:86-144 | a committed posting gives a new document exactly its own rows, leaves every other document's rows alone, and is a no-op for a document that has rows |
| Ledger.StrictPostSucceedsIff | backend/apps/inventory/services.py:97-122 | without `allow_negative` a fresh non-empty document commits iff every prefix of it keeps the touched balance at or above zero and every row stores non-zero |
| Ledger.FaultFreePrefixes | backend/apps/inventory/services.py:100-109 | a document is accepted iff each line is accepted in the cache left by the lines before it |
| Ledger.SettleDistinct | backend/apps/inventory/services.py:104-122 | lines on distinct keys settle independently: each key ends at its rounded sum, other keys are untouched |
| Ledger.DistinctFaultFree | backend/apps/inventory/services.py:104-109 | with distinct keys the outcome depends only on the balances before the document, so not on line order |
| Ledger.StrictNeverNegative | backend/apps/inventory/services.py:105-109 | a strict posting leaves no key it touches below zero |
| Accounting.PostKeepsBooks | backend/apps/inventory/services.py:68-152 | posting keeps ledger, cache and payloads equal to a replay of all payloads from empty stock, with one payload per document |
| Accounting.OutboxMirrorsLedger | backend/apps/inventory/services.py:136-144 | a document has rows iff it has an outbox record, then exactly one, listing its rows in order |
| Accounting.CacheIsLedgerPlusGap | backend/apps/inventory/services.py:110-122 | cached on-hand is the ledger sum plus a gap of at most one thousandth per row halfway between two thousandths |
| Accounting.PayloadsRebuildCache | backend/apps/inventory/services.py:124-144 | the cache is the net of all payloads plus the storage error, which is at most half a thousandth per line and zero when the lines have three decimals |
| Witnesses.HalfThousandthRun | backend/apps/pos_ingest/services.py:39-44 | a run of nine calls, with a conversion factor of one half, after which on-hand is 10.000 and the ledger sums to 9.999 |
| Reports.DriftIsBounded | backend/apps/inventory/models.py:37-81 | in every reachable state and for every rounding to the nearest thousandth, storing a key's exact quantities leaves cache and rows at most one thousandth apart per tie; this state's balance and rows are those of PostgreSQL's rounding |
| Drift.StoreDrift | backend/apps/inventory/models.py:37-81 | if every row and every cached value is a nearest thousandth, ties going either way each time, cache and row sum differ by at most the number of ties |
| Drift.RoundingDrift | backend/apps/inventory/models.py:37-81 | the same for every rounding function; no tie, no drift |
| Drift.CacheFolds | backend/apps/inventory/services.py:104-122 | the cache is the fold of the key's exact quantities through the store |
| Drift.LedgerRecords | backend/apps/inventory/services.py:110-119 | the ledger sum is the sum of the key's exact quantities, each stored on its own |
| Reports.CacheIsLedgerIff | backend/apps/inventory/services.py:104-122 | in every reachable state on-hand is at least the ledger sum, and equal iff no half-thousandth deduction of that key left stock behind |
| Guarantees.OutboxIsMirror | backend/apps/inventory/services.py:124-144 | in every reachable state the outbox mirrors each document's rows and replaying it rebuilds the ledger and every balance |
| StockTables.StockLedger.Existing | backend/apps/inventory/services.py:89-95 | finds exactly the document's rows, oldest first |
| StockTables.StockLedger.StoreMovement | backend/apps/inventory/services.py:100-122 | one line: refused for exactly its fault, else one row appended and its balance stored |
| StockTables.StockLedger.PostMovements | backend/apps/inventory/services.py:68-152 | the loop with its rollback does to the books what `Ledger.Post` says and returns the document's rows |
| StockTables.FaultStays | backend/apps/inventory/services.py:100-109 | the first refused line decides the whole document |
| StockTables.AllStored | backend/apps/inventory/services.py:136-152 | when every line has been stored and the record written, the books are those of a committed posting |
| Invariant.NextKeeps | docs/SYSTEM_OVERVIEW.md:70-80 | every call, committed or rolled back, keeps the invariant over all tables |
| Invariant.Reachable | docs/SYSTEM_OVERVIEW.md:70-80 | the invariant holds after any sequence of calls |
| Effects.StepEffect | docs/SYSTEM_OVERVIEW.md:74-76 | a committed call only appends rows and posts at most its own document, through `post_movements` |
| Effects.BackedGrows | backend/apps/inventory/services.py:200-289 | once posted, a document's rows remain what the document asks for, whatever is called later; of a stock-take, whose counts can still be edited, they remain adjustments at its location with three decimals |
| Runs.HistoryIsKept | backend/apps/inventory/models.py:13-74 | over any run ledger rows, document contents, recipe snapshots and received totals are never taken back |
| Documents.FreshNotPosted | backend/apps/inventory/services.py:89-95 | a document that does not exist yet has no rows |
| Documents.PayloadOf | backend/apps/inventory/services.py:124-144 | the rows of a posted document are those of one payload, which is what the document asks for |
| Documents.PostTransferKeeps | backend/apps/inventory/services.py:237-289 | posting a transfer keeps POSTED and approved transfers backed by their rows |
| Documents.PostTakeKeeps | backend/apps/inventory/services.py:316-359 | posting a stock-take keeps posted and approved stock-takes settled |
| Runs.FirstPosting | backend/apps/inventory/services.py:89-95 | every posted document has one call that first posted it |
| Runs.PostingIsAuthorised | backend/apps/core/services.py:44-112 | a call that posts a transfer, stock-take or wastage entry either valued it at or below the threshold or approved it |
| Runs.NoPostingWithoutSignOff | backend/apps/core/services.py:44-112 | over every interleaving, a document has rows only if the very call that wrote them valued it at or below the threshold then in force, or gave an approval about it that still stands |
| Runs.SignedOffIsPosted | backend/apps/core/services.py:85-112 | an approval given means the transfer's or wastage entry's rows are in the ledger, and the stock-take is posted |
| Runs.SignOffKept | backend/apps/core/services.py:88-89 | an approval given stays given |
| ApprovalQueue.PostingWritesTransferIff | backend/apps/inventory/services.py:237-289 | posting a transfer without rows writes them iff it has lines, is not routed and is covered |
| ApprovalQueue.RepostReleasesTransferIff | backend/apps/inventory/services.py:243-289 | setting the threshold and posting again writes a transfer's rows iff it has lines, its value is within the new threshold and stock covers it, and decides no approval |
| ApprovalQueue.PostingWritesTakeIff | backend/apps/inventory/services.py:316-359 | posting a stock-take without rows writes them iff it is open, has a variance and is not routed |
| ApprovalQueue.RepostReleasesTakeIff | backend/apps/inventory/services.py:321-359 | setting the threshold and posting again writes a stock-take's rows iff it is open, has a variance and its value is within the new threshold, and decides no approval |
| ApprovalQueue.RepostReleasesIff | backend/apps/core/services.py:44-49 | both conditions in every reachable state |
| ApprovalQueue.DecisionCommitsIff | backend/apps/core/services.py:77-112 | in every reachable state a decision commits iff it is well formed on an open approval and, when it approves a transfer, that transfer can be posted; approving a stock-take, a wastage entry or a budget, rejecting and investigating never fail in the callback |
| QueueWitnesses.QueuedTransferIsReleased | backend/apps/inventory/services.py:243-289 | a run with a queued transfer that posting again leaves queued and raising the threshold releases, its approval still undecided |
| QueueWitnesses.QueuedTakeIsReleased | backend/apps/inventory/services.py:321-359 | the same for a stock-take |
| ApprovalQueue.SnapshotIsThresholdAtSubmission | backend/apps/core/services.py:52-74 | over any run an approval keeps its document, its scope and the threshold in force when one call submitted it; only its status changes |
| ApprovalQueue.BudgetsAreExact | backend/apps/procurement/services.py:34-63 | in every reachable state a budget is a draft iff it was never submitted, and otherwise has one approval whose status gives its own |
| ApprovalQueue.DecisionSetsBudget | backend/apps/procurement/models.py:51-69 | a committed decision on a budget's approval gives the budget the status that decision means |
| ApprovalQueue.OrdersNeedApproval | backend/apps/procurement/services.py:88-89 | an order is only ever raised against a budget whose approval was given |
| Runs.TransferMovesOnce | backend/apps/inventory/services.py:237-289 | over any mix of posts and decisions a transfer's rows are none or one out/in pair per line, written once; POSTED implies they exist |
| Runs.LastRowConcat | backend/apps/inventory/services.py:110-119 | appending rows makes the last of them for a key that key's latest row |
| Runs.NegativeStockIsExplained | backend/apps/inventory/services.py:104-109 | in every reachable state a negative balance's latest row was written by a call that posts with `allow_negative` |
| Moves.PairAt | backend/apps/inventory/services.py:208-225 | a document of n lines posts exactly n out/in pairs, in order |
| Moves.PairKeysDistinct | backend/apps/inventory/models.py:116-121 | the line constraints make the keys of a move distinct |
| Moves.PairFaultFreeIff | backend/apps/inventory/services.py:104-109 | a move is accepted iff overridden, or source on-hand covers each line and each destination ends at or above zero |
| Moves.TransferCommitsIff | backend/apps/inventory/services.py:237-289 | posting a transfer succeeds iff it is posted, or has lines and is routed, already has its rows, or is covered |
| Moves.IssueCommitsIff | backend/apps/inventory/services.py:200-235 | posting an issue note succeeds iff it is posted, or has lines and is overridden or covered |
| Moves.PairMoves | backend/apps/inventory/services.py:263-286 | what a committed move does to every balance |
| CallEffects.IssueMovesGoods | backend/apps/inventory/services.py:164-235 | in every reachable state an issue note of valid lines, created and posted, moves each quantity from the source named to the destination named and nothing else, exactly when the goods are there or the override is given |
| CallEffects.TransferMovesGoods | backend/apps/inventory/services.py:237-289 | the same for a transfer within the threshold, without an override |
| Moves.TransferConservesProduct | backend/apps/inventory/services.py:263-286 | a posted transfer leaves every product's total over locations unchanged |
| Builders.BuildPairs | backend/apps/inventory/services.py:208-225 | the loop builds the out/in pairs |
| Backend.BackOffice.CreateIssueNote | backend/apps/inventory/services.py:164-197 | creates the draft, keeping the header when a line constraint fails |
| Backend.BackOffice.PostIssueNote | backend/apps/inventory/services.py:200-235 | posts and marks the note as specified, or rolls back |
| Backend.BackOffice.CreateStockTransfer | backend/apps/inventory/views.py:176-205 | creates the draft, keeping the header when a line constraint fails |
| Backend.BackOffice.PostStockTransfer | backend/apps/inventory/services.py:237-289 | routes above-threshold values to approval, else posts, or rolls back |
| Backend.BackOffice.TransferDecided | backend/apps/inventory/models.py:187-196 | posts when approved, rejects when rejected |
| Builders.BuildSheet | backend/apps/inventory/services.py:295-312 | one count line per active product with its on-hand frozen |
| Builders.EnterCount | backend/apps/inventory/views.py:280-288 | enters one count on its product's line and says whether the product is on the sheet |
| Builders.EnterCounts | backend/apps/inventory/views.py:273-290 | accepts the counts iff all products are on the sheet, the last count of a product winning |
| Builders.BuildVariant | backend/apps/inventory/services.py:323-324 | keeps the counted lines with a non-zero variance, in order |
| Builders.BuildAdjustments | backend/apps/inventory/services.py:342-353 | one adjustment per variance |
| Backend.BackOffice.OpenStockTake | backend/apps/inventory/services.py:292-313 | opens the count as specified |
| Backend.BackOffice.EnterStockCounts | backend/apps/inventory/views.py:261-292 | records the counts as specified, all or none |
| Backend.BackOffice.PostStockTake | backend/apps/inventory/services.py:316-359 | posts, routes or closes the stock-take as specified, or rolls back |
| CallEffects.SheetIsOpened | backend/apps/inventory/services.py:292-313 | opening a stock-take lists every active product with its on-hand at the location and no count |
| CallEffects.CountsAreTaken | backend/apps/inventory/views.py:261-292 | counts are taken, whatever the status, iff the stock-take exists, there are some, none is negative and every product is on the sheet; each line then carries the last count of its product, or what it carried before |
| CallEffects.NothingToAdjust | backend/apps/inventory/services.py:325-328 | a stock-take without a variance is closed at once, without a row or an approval |
| StockTakes.VariantLines | backend/apps/inventory/services.py:323-324 | the posted variances are exactly the non-zero variances of counted lines, one per product |
| StockTakes.AdjustmentAt | backend/apps/inventory/models.py:285-290 | the adjustment of a counted product's key is its variance, of any other key zero |
| StockTakes.SettleTake | backend/apps/inventory/services.py:339-356 | storing the adjustments moves every balance by exactly its adjustment |
| StockTakes.StockTakeCommutes | backend/apps/inventory/services.py:292-359 | however it is posted, each counted product ends at its count plus everything that moved at the location since the count was opened |
| CountDrift.GapUnchangedIff | backend/apps/inventory/services.py:104-122 | between any two points of a run the gap between cache and ledger never shrinks, and is unchanged iff no half-thousandth deduction left stock behind in between |
| CountDrift.CountPlusRowsSinceIff | backend/apps/inventory/services.py:292-359 | however it is posted, each counted product ends at no less than its count plus the ledger rows posted at the location since the count was opened, and at exactly that iff no half-thousandth deduction of it left stock behind in between |
| StockTakes.UncountedUntouched | backend/apps/inventory/services.py:321-359 | posting a stock-take leaves every key it did not count alone |
| Recounts.SameVariantSameCounts | backend/apps/inventory/services.py:323-324 | two counts of one sheet with the same variances agree on every line, an uncounted line standing for the system quantity |
| Recounts.PostedRowsAreThoseValuedIff | backend/apps/inventory/views.py:261-292 | the rows a stock-take gets are those it stood for at an earlier call, such as the one that valued and routed it, iff no line was given a different count in between |
| QueueWitnesses.ApprovalPostsEditedCounts | backend/apps/inventory/views.py:261-292 | a run in which a row of one unit missing is valued and queued, and a row of nine is posted by the approval |
| Backend.BackOffice.DecideApproval | backend/apps/core/services.py:77-112 | decides and calls back as specified; a failing callback rolls the decision back |
| CallEffects.DecisionSettles | backend/apps/core/services.py:77-112 | in every reachable state a committed decision is recorded on its approval alone and settles its document: a transfer or wastage entry is POSTED or REJECTED, a stock-take POSTED or left alone, a budget as decided; only an approval moves stock |
| QueueWitnesses.RejectedTransferHasRows | backend/apps/inventory/models.py:187-196 | a run in which a transfer released by a second posting is then rejected: REJECTED, with its rows in the ledger |
| Backend.BackOffice.OnApprovalDecided | backend/apps/core/services.py:109-111 | runs the subject's callback |
| Backend.BackOffice.LogWastage | backend/apps/wastage/services.py:17-86 | logs the entry and posts or routes it as specified, or rolls back |
| CallEffects.WastageIsLogged | backend/apps/wastage/services.py:17-86 | an entry is about the product at the place named, Stores when none is, in its quantity |
| Backend.BackOffice.PostEntry | backend/apps/wastage/services.py:89-110 | posts the entry's single row and marks it |
| Backend.BackOffice.WastageDecided | backend/apps/wastage/models.py:59-68 | posts when approved, rejects when rejected |
| WastageLifecycle.WastageStatusMeans | backend/apps/wastage/services.py:28-37 | POSTED iff the single row of minus its quantity is there, PENDING iff its only approval is open, REJECTED iff that was rejected; otherwise no rows |
| Valuation.UnitCostIsNewest | backend/apps/inventory/services.py:45-57 | a product costs what its newest receipt row with a cost says |
| Valuation.UnitCostDefault | backend/apps/inventory/services.py:57 | a product without such a row costs nothing |
| Valuation.ValueAdds | backend/apps/inventory/services.py:60-65 | the value of lines is the sum of the values of their parts |
| Valuation.OneLineValue | backend/apps/inventory/services.py:60-65 | one line is worth its quantity at the cost on the product's newest receipt row |
| Valuation.CostIsLastReceipt | backend/apps/inventory/services.py:45-57 | in every reachable state a product is valued at the cost on the last committed GRN line that received it, and at zero when none did |
| Valuation.TransferRoutedByReceipts | backend/apps/inventory/services.py:246-261 | in every reachable state posting an open transfer with lines queues it iff its quantities, at the cost of each product's last receipt, are worth more than the transfer threshold |
| Valuation.TakeRoutedByReceipts | backend/apps/inventory/services.py:323-340 | in every reachable state posting an open stock-take queues it iff the differences between counted and frozen quantities, at those costs, are worth more than the adjustment threshold |
| Valuation.WastageRoutedByReceipts | backend/apps/wastage/services.py:28-86 | in every reachable state an entry records its quantity at that cost and is queued iff that is above the extra-usage threshold for extra usage, the wastage threshold for breakage and spoilage |
| CostWitnesses.NewerCostRoutes | backend/apps/inventory/services.py:45-57 | two runs with one transfer of ten units under a threshold of fifty: posted after a GRN at 2.00, queued once a second GRN at 9.00 has followed |
| Guarantees.WastageIsExact | backend/apps/wastage/services.py:28-110 | in every reachable state an entry is POSTED iff its single row is there, PENDING iff its only approval is open, REJECTED iff that was rejected |
| Deduction.BuildDeductions | backend/apps/pos_ingest/services.py:32-53 | the nested loops give nothing when an item has no recipe, else one line per product holding its total |
| Deduction.TallyItem | backend/apps/pos_ingest/services.py:38-44 | the inner loop adds one item's recipe lines to the totals |
| Deduction.DeductionRefinesNeed | backend/apps/pos_ingest/services.py:32-53 | the deduction is one Stores line per product used, of minus the unmerged sum over all items and recipe lines |
| Backend.BackOffice.CreateItems | backend/apps/pos_ingest/services.py:96-118 | the item loop snapshots the recipe in force for each line and flags an unknown one |
| Backend.BackOffice.DeductStock | backend/apps/pos_ingest/services.py:124-151 | strict posting, and on insufficient stock the flag and the override |
| Backend.BackOffice.IngestSale | backend/apps/pos_ingest/services.py:56-155 | ingests as specified, or rolls back |
| Backend.BackOffice.ReresolveItems | backend/apps/pos_ingest/services.py:170-185 | looks up only items without a snapshot and says whether all are resolved |
| Backend.BackOffice.ReplaySale | backend/apps/pos_ingest/services.py:158-208 | replays as specified, or rolls back |
| SalesLifecycle.DeductionFaults | backend/apps/inventory/services.py:104-109 | an order's deduction is accepted iff every product's row stores non-zero and, without the override, Stores covers every need |
| SalesLifecycle.StrictDeduction | backend/apps/pos_ingest/services.py:126-133 | the strict posting fails for lack of stock exactly when stock is short and every row can be stored |
| SalesLifecycle.ResolvedIngestCommitsIff | backend/apps/pos_ingest/services.py:56-155 | a new, fully resolved sale is taken iff Stores exists and every deduction is at least half a thousandth |
| Witnesses.TinySaleIsRefused | backend/apps/inventory/models.py:57-62 | a run after which an ordinary, fully resolved sale needing 0.0004 of a product is refused by the ledger's non-zero constraint |
| SalesLifecycle.ResolvedIngestEffect | backend/apps/pos_ingest/services.py:124-151 | the insufficient-stock flag is set iff some Stores balance would go below zero, and balances end the same with or without the fallback |
| Guarantees.ResolvedSaleIsTaken | backend/apps/pos_ingest/services.py:56-155 | in every reachable state a new, fully resolved sale is taken iff storable, flagged iff short, and leaves each balance less its need |
| SalesLifecycle.SettleDeduction | backend/apps/pos_ingest/services.py:45-53 | a stored deduction leaves every balance at what it was less the order's need |
| SalesLifecycle.SaleStatusMeans | backend/apps/pos_ingest/services.py:111-151 | INGESTED or REPLAYED iff every item has a recipe iff the order's deduction is in the ledger; INGESTED iff moreover it was never replayed |
| Runs.SalesAreDeductedOnce | backend/apps/pos_ingest/services.py:75-208 | over any re-ingests and replays: one sale per id, status exact, deducted at most once, snapshots never changed |
| Snapshots.ResolvesToSnapshot | backend/apps/menu/models.py:95-110 | the version looked up for a code and a day is version i iff the menu has the code and version i covers the day, and none iff no version does |
| Snapshots.IngestedAsSold | backend/apps/pos_ingest/services.py:66-123 | in every reachable state a committed ingestion of a new sale id records one item per raw line with its code and quantity, each with the version in force on the day of the sale, and flags the sale iff some line has none; of a known sale id it changes nothing |
| Snapshots.ReplayedAsSold | backend/apps/pos_ingest/services.py:158-200 | in every reachable state a committed replay gives each item without a snapshot the version in force on the day of the sale and leaves the other items and sales alone |
| Snapshots.SnapshotsAreInForce | docs/SYSTEM_OVERVIEW.md:82 | every snapshot was taken by one ingestion or replay, from the menu of that time, as the version in force on the day of the sale |
| SaleWitnesses.LateSaleKeepsItsRecipe | backend/apps/pos_ingest/services.py:97-103 | a run in which a sale of day 8 that arrives after the recipe was replaced from day 10 deducts by the old version, and one of day 10 by the new one |
| Servings.NeedIsConsumed | backend/apps/pos_ingest/services.py:38-44 | what an order needs of a product is, over its items, quantity sold times conversion factor times quantity per serving |
| Servings.SalesTakeTheirServings | backend/apps/pos_ingest/services.py:32-53 | in every reachable state a sale whose items all have a recipe has taken, from Stores and nowhere else, what its servings consume of each product, and any other sale nothing |
| Servings.IngestCommitsIff | backend/apps/pos_ingest/services.py:56-155 | in every reachable state an ingestion commits iff it is well formed and its id is known, or its quantities are positive and some line has no recipe, or Stores exists and everything consumed can be deducted |
| Servings.ReplayCommitsIff | backend/apps/pos_ingest/services.py:158-200 | in every reachable state a replay commits iff the sale exists and some item still has no recipe, or Stores exists and the deduction is in the ledger or can be stored |
| SaleWitnesses.TwoServingsTakeTwice | backend/apps/pos_ingest/services.py:38-43 | a run that sells two servings of two ingredients, one with a conversion factor of three, and deducts 1.000 and 1.500 |
| Recipes.ActiveForCovers | backend/apps/menu/models.py:95-110 | `active_for` finds a covering version iff there is one |
| Recipes.OnePublished | backend/apps/menu/services.py:68-78 | at most one version is published |
| Recipes.ResolutionIsUnique | backend/apps/menu/models.py:95-110 | `active_for` names exactly the covering version |
| Recipes.NoGaps | backend/apps/menu/services.py:56-91 | from the first publication on every date resolves |
| Recipes.LastIsPublished | backend/apps/menu/services.py:68-82 | once anything has been published, some version is |
| Recipes.PublishAbortsIff | backend/apps/menu/services.py:63-78 | publishing fails iff the version is missing or live, the date is missing, or the version it would retire did not start strictly earlier |
| Recipes.PublishKeepsChain | backend/apps/menu/services.py:56-91 | publishing keeps live windows disjoint and gap-free |
| Recipes.PublishPreservesHistory | backend/apps/menu/services.py:56-91 | publishing from e leaves every date before e alone and takes over every date from e on |
| Guarantees.RecipesResolveUniquely | backend/apps/menu/models.py:95-110 | in every reachable state each date from the first window on is covered by exactly one version, the one `active_for` names, and at most one is published |
| Guarantees.ResolutionIsStable | backend/apps/menu/services.py:56-91 | through any calls that publish nothing for the item up to a date, that date resolves to the same version |
| CallEffects.RecipeIsDrafted | backend/apps/menu/services.py:14-42 | a recipe is accepted iff its item exists and its lines, at least one, name each ingredient once in a positive quantity; it becomes the item's next version, a draft standing for exactly those lines |
| CallEffects.RecipeMovesOn | backend/apps/menu/services.py:45-91 | submitting moves a draft to review; publishing gives the version its start, closes the one published before on that day, and changes no lines |
| Guarantees.CallIsAlwaysPossible | backend/apps/menu/models.py:66-73 | every reachable menu satisfies the window constraint, which is all `Call` requires |
| RecipeTables.RecipeBook.Save | backend/apps/menu/models.py:80-92 | stores the row, unless it edits a published version without retiring it or breaks the window constraint |
| RecipeTables.RecipeBook.CreateRecipeVersion | backend/apps/menu/services.py:13-42 | appends the next draft with its lines, or leaves the menu alone |
| RecipeTables.RecipeBook.Submit | backend/apps/menu/services.py:45-53 | moves a draft to review as specified |
| RecipeTables.RecipeBook.PublishVersion | backend/apps/menu/services.py:56-91 | retires the current version and opens the new one as specified, or leaves the menu alone |
| Delivery.ProcessKeepsLog | backend/apps/pastel/tasks.py:22-73 | processing a record keeps it SENT iff one success log, attempts equal to failure logs, ABANDONED only from five on |
| Delivery.ResendKeepsLog | backend/apps/pastel/views.py:93-108 | so does a resend |
| Delivery.DrainFirst | backend/apps/pastel/tasks.py:88-97 | a batch handled record by record leaves each selected record as processing it alone would, and the others alone |
| Delivery.DrainIsPointwise | backend/apps/pastel/tasks.py:88-97 | one record's exception never stops the rest: a selected record is processed with its own answer whatever the others got |
| Delivery.PastelSplits | backend/apps/pastel/tasks.py:152-180 | what Pastel lacks is what is unsent less what it holds without a SENT record |
| Delivery.DivergenceExplained | backend/apps/pastel/tasks.py:152-180 | divergence is the unsent net, less what crashed calls left applied, plus the storage error of the balance |
| StockTables.StockLedger.SendToPastel | backend/apps/pastel/adapter.py:39-74 | one log row per answered attempt |
| StockTables.StockLedger.ProcessRecord | backend/apps/pastel/tasks.py:22-73 | the statement-by-statement update is the specified one; an exception from the adapter is passed on |
| StockTables.StockLedger.DrainRecords | backend/apps/pastel/tasks.py:76-97 | catches each record's exception, goes on, and returns how many records it attempted and which raised |
| StockTables.StockLedger.Resend | backend/apps/pastel/views.py:93-108 | resends as specified, refuses a missing or sent record, and says when the adapter raised after the record was saved as PENDING |
| StockTables.StockLedger.Reconcile | backend/apps/pastel/tasks.py:134-191 | one line per balance with on-hand, Pastel's answer (zero when it fails) and their difference |
| Reconciliation.DeliveryAgreesWithLog | backend/apps/pastel/tasks.py:22-97 | over any run SENT iff exactly one success log, never two, attempts equal failure logs, ABANDONED implies five or more |
| DeliveryStatus.RecordFollows | backend/apps/pastel/tasks.py:100-131 | over any run a record's status, attempt counter, log and what Pastel has applied follow from the attempts made on it, and a batch makes any attempt but the first only right after a resend that crashed |
| DeliveryStatus.StatusMeansLastAttempt | backend/apps/pastel/tasks.py:36-66 | over any run SENT iff the last attempt was accepted, FAILED or ABANDONED iff it was refused, ABANDONED iff moreover a batch made it and it was at least the fifth refusal |
| DeliveryStatus.AbandonedTakesACrash | backend/apps/pastel/tasks.py:50-64 | a record is only ever ABANDONED by a batch right after a resend that crashed |
| DeliveryStatus.AnsweredRunStatus | backend/apps/pastel/tasks.py:22-73 | while every attempt is answered a record is PENDING iff nothing is logged, FAILED iff its last log row is a failure, SENT iff it is a success, and never ABANDONED |
| DeliveryStatus.BatchLeavesAnswered | backend/apps/pastel/tasks.py:110-114 | after such a run no batch touches a record that was ever answered |
| DeliveryStatus.RefusalOutcome | backend/apps/pastel/tasks.py:46-66 | in every reachable state a refused batch attempt gives ABANDONED iff it is at least the fifth failure, else FAILED; a refused resend always gives FAILED |
| DeliveryStatus.RetriedIff | backend/apps/pastel/tasks.py:110-131 | a batch tries a record again iff it is due and its last attempt was a resend that crashed |
| DeliveryWitnesses.FiveRefusals | backend/apps/pastel/views.py:93-108 | a run with five refusals that leaves the record FAILED, passed by when a batch would be accepted, and ABANDONED only after a crashed resend and one more refusal |
| Reconciliation.RunAppliesOnce | backend/apps/pastel/tasks.py:22-97 | in crash-free runs Pastel has applied exactly the SENT records, each once |
| Reconciliation.DivergenceIsUnsent | backend/apps/pastel/tasks.py:152-180 | in crash-free runs the divergence of a key is the net of records not yet SENT plus the storage error of its balance, so equal to that net iff the error is zero, as it is on three decimals |
| Reconciliation.ReportShowsUnsent | backend/apps/pastel/tasks.py:152-180 | the same of every report line for which Pastel answers truthfully |
| Backend.BackOffice.RaiseOrder | backend/apps/procurement/services.py:66-121 | creates the order as specified, or rolls back |
| Builders.BuildReceipts | backend/apps/procurement/services.py:276-288 | one Stores receipt per GRN line at its cost |
| Purchasing.ReceiptAcceptedIff | backend/apps/procurement/services.py:250-295 | a GRN is accepted iff the order exists, its lines are non-empty, distinct, of the order and valid, Stores exists, and for each line Stores is not deeper below zero than the delivery |
| Guarantees.GoodsAreAcceptedIff | backend/apps/procurement/services.py:250-295 | that condition in every reachable state |
| Backend.BackOffice.FulfilLines | backend/apps/procurement/services.py:297-302 | adds to each PO line what was received on it |
| Backend.BackOffice.ReceiveGoods | backend/apps/procurement/services.py:227-314 | posts the GRN, the totals and the order status as specified, or rolls back |
| Builders.SumPo | backend/apps/procurement/services.py:348-351 | the order's value |
| Builders.SumGrns | backend/apps/procurement/services.py:353-360 | the double sum over the order's GRNs and their lines |
| Backend.BackOffice.RecordInvoice | backend/apps/procurement/services.py:317-385 | records the invoice with exactly the discrepancies that hold |
| Purchasing.FulfilledIsReceived | backend/apps/procurement/services.py:277-302 | fulfilled is the sum over all posted GRNs and over their ledger rows |
| Purchasing.ReceivedIffCovered | backend/apps/procurement/services.py:304-309 | right after a GRN the order is RECEIVED iff every total covers its line, and a covered order stays so at later GRNs |
| Guarantees.OrderStatusIsExact | backend/apps/procurement/services.py:304-309 | over any run an order is RECEIVED iff every line is covered and, of the sends and committed GRNs on it, the last was not a send |
| Guarantees.SentIffSentLast | backend/apps/procurement/services.py:170-180 | an order's status is a sent one iff, of the calls that set it, the last was a send |
| Guarantees.SendingOnlyMarks | backend/apps/procurement/services.py:124-197 | sending changes one order's status, whatever it was, and nothing else in any table |
| QueueWitnesses.SendingLosesReceived | backend/apps/procurement/services.py:170-180 | a run in which a fully received order is sent again and is no longer RECEIVED |
| Guarantees.ReceiptsAreExact | backend/apps/procurement/services.py:277-302 | over any run fulfilled quantities equal all receipts and their ledger rows, and never decrease |
| Purchasing.GrnByPoLine | backend/apps/procurement/services.py:353-360 | within one GRN, summing by GRN line or by PO line gives the same value |
| Purchasing.DoubleSum | backend/apps/procurement/services.py:353-360 | over any number of GRNs at PO prices the double sum is the priced total received per PO line |
| Purchasing.GrnValueIsFulfilledValue | backend/apps/procurement/services.py:348-360 | at PO prices the receipts are worth the priced fulfilled quantities; received exactly in full, they are worth the order |
| Purchasing.MatchCollapses | backend/apps/procurement/services.py:362-376 | goods received exactly in full at PO prices: matched iff the amount is the order's value, else both discrepancies are recorded |
| Guarantees.InvoiceMatchCollapses | backend/apps/procurement/services.py:362-376 | in every reachable state: received in full at PO prices, matched iff the amount is the order value, else both discrepancies |
| Purchasing.MatchMeans | backend/apps/procurement/services.py:362-376 | at PO prices: matched iff the amount is both the order's value and the value received |
| Invoicing.GrnValueIsReceivedCost | backend/apps/procurement/services.py:353-360 | over any run each committed GRN adds its quantities at its own unit costs to its order's value received and nothing to any other; no other call changes it |
| Invoicing.InvoicesAreMatched | backend/apps/procurement/services.py:317-385 | in every reachable state an invoice is accepted iff its order exists, its amount is not negative and its reference is new for the supplier; it matches iff the amount is both the price of the order and the cost of what was received, each recorded as a discrepancy iff the amount differs from it |
| Invoicing.InvoicesAreFinal | backend/apps/procurement/models.py:281-289 | over any run invoices are only added, one per supplier and reference, none negative |
| CostWitnesses.CostFailsMatch | backend/apps/procurement/services.py:353-373 | a run in which goods ordered at 2.00, received in full at 2.50 and invoiced at the order's value fail the match on 25.00, with 2.50 on the ledger row |
| CallEffects.ReceiptRowsAre | backend/apps/procurement/services.py:276-288 | in every reachable state the rows of a GRN are its lines in order: each product into Stores, in its quantity, at its own unit cost |
| CallEffects.OrdersAreRaised | backend/apps/procurement/services.py:88-121 | an order is raised iff its budget is approved and covers every product and its lines name each product once in a positive quantity at a price that is not negative; it is stored as asked for |
| CallEffects.SendingNeedsAddress | backend/apps/procurement/services.py:156-180 | a sent order is SENT iff its supplier has an address, else marked for manual contact |
| Reports.SumMovements | backend/apps/reports/selectors.py:491-514 | one negated sum per product with a row of the given types in the window |
| Reports.JoinAll | backend/apps/reports/selectors.py:519-532 | joins the two aggregates into one correct row per product |
| Reports.SortedIsPermutation | backend/apps/reports/selectors.py:534 | a permutation of the rows, largest gap first |
| Reports.Leakage | backend/apps/reports/selectors.py:461-535 | over the window of days, by default the last thirty, exactly one row for each product with a sale, wastage or stock-take row, with its theoretical, actual and gap quantities, largest gap first |
| Reports.ColumnsPartition | backend/apps/reports/selectors.py:483-488 | a product's ledger sum splits into receipts, actual consumption and internal moves |
| RowKinds.RowsHaveRightKinds | backend/apps/inventory/models.py:23-33 | in every reachable state each ledger row has the movement type, the sign and the place its document gives it, and carries a cost iff it is a receipt |
| RowKinds.LeakageByDocument | backend/apps/reports/selectors.py:480-535 | in every reachable state the all-time theoretical quantity of a product is what orders deducted, and its gap what wastage entries and stock-takes took away |
| Reports.PairRowsCancel | backend/apps/inventory/services.py:208-225 | the stored rows of an issue or transfer cancel per product |
| Reports.StockIsReceiptsLessLeakage | backend/apps/reports/selectors.py:480-535 | in every reachable state a product's stock over all locations is its receipts less the report's all-time actual quantity, exactly in the ledger |
| Reports.CachedStockIsReceiptsLessLeakageIff | backend/apps/reports/selectors.py:480-535 | cached stock is never below that figure, and equals it iff at no location a half-thousandth deduction left stock behind |
| Backend.BackOffice.Call | backend/config/urls.py:6-20 | one API call moves the tables exactly as one step of the state machine and returns its error |
| Runner.Run | backend/config/urls.py:6-20 | any sequence of calls on a new back office leaves its tables in the state reached by the same steps |

## Left out

- HTTP views other than resend, count entry and transfer creation, serializers, idempotency-key replay, permissions, authentication, notifications, audit-log text, PDF, email and websockets: I/O or plumbing.
- Database concurrency: transactions are serialised; `post_movements` checks for existing rows and then writes without a unique constraint.
- Foreign keys: products, suppliers, users, reason codes and orders behind extra usage are taken to exist; `max_digits` overflow is not modelled, and quantities and costs in requests have at most three and two decimals.
- Product conversion factors, once given, do not change during a run; the model's factors are those of the whole run.
- The Tue/Thu schedule check on issues to the Unit: settled by reading one branch.
- `transfer.total_value`, stock-take line values, menu prices, modifiers and `last_movement_at`: columns no rule reads.
- Outbox backoff: which pending records are due is a parameter of a drain. Eventual delivery is not claimed: it does not hold (`DeliveryStatus.RetriedIff`).
- Failure to write a sync-log row, an exception in the batch loop other than the adapter's, and Pastel product codes shared by two products.
- The kitchen lifecycle, menu item deactivation, invoice resolve, dispute and escalate, and the other reports.
- Moving `purchase_to_stock_factor` into receipts: the source ignores it, and so does the model.
- Row order of database queries that do not ask for one is the order of creation.
- Backend.BackOffice.CreateItems: creates the order and its items as one row of `sales`; the separate order-status event row is not modelled.
- Backend.BackOffice.LogWastage: covers both logging services; the order of an extra-usage entry and the reason code are not modelled.
- RecipeTables.RecipeBook.Submit: asks that the stored version satisfies its own check constraint, which every stored row does.
- Reconciliation.DivergenceIsUnsent: is stated for runs in which no call crashes after Pastel applied the payload; `Delivery.DivergenceExplained` covers all states.
- Reports.Leakage: leaves out product codes and names, and dates that do not parse; a row's day is given with it.
- Deduction.BuildDeductions: a recipe is found through the POS code of its menu item, which is taken to keep that code; the item serializer lets a PATCH change it.
- Backend.BackOffice.ResendRecord: a resend during which the adapter raises is a step that changed the record, where the request itself answers with a server error.
- Whether the email of a sent order can be delivered: only the resulting status is modelled.
