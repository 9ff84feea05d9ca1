# Rebate management: a verified model

The service turns imported card transactions into rebates. A nightly job hashes every user to one of N worker
processes; each worker walks its pending rows and hands them to the qualifying, fulfilment or refund strategy; the
master then exports new rebates to a partner and adds fulfilled amounts to running totals in Salesforce. The database
has no locks and no unique constraints: the code relies on "one user, one worker". This project models the tables, the
workers, the exporter and the sync as they are, and proves what that reliance buys.

`dafny verify dfyconfig.toml` checks everything.

## How the model is built

* **Tables are values** (`Domain`, `Store`). Rows are never deleted and ids are counters, so an id is a place in its
  table. Each repository statement is one function on the tables; class `Database` holds the tables and applies the
  same statements in place.
* **A row is several accesses** (`RowSteps`). `Step` makes one read or write and returns what comes next, and each may
  fail: a qualifying row swallows a failed mark and goes on, any other failure abandons the row. Decisions are taken on
  what was read earlier, so stale reads are possible.
* **Checks are independent conditions** (`Eligibility`) in a fixed order; `Outcomes` gives the closed form of a whole
  row and shows that the accesses come to it.
* **In columns** (`Verdicts`, `RowResults`, `ReportColumns`, `ExportColumns`): the status of every kind of row, what it
  leaves in each table, which rows are reported and what an export leaves are spelled out once more from the columns
  alone, without the checks, queries and orders above, and proved to be what those come to, whichever calls fail.
* **The code's own form** (`Qualifying`, `Fulfilment`, `Refunding`, `Processing`, `Exporting`, `MopSync`, `Ledger`,
  `Master`): classes with the cached fields, early returns, loops and breaks of the original. Each is proved to leave
  what the accesses leave, for every pattern of failing calls, so that what is proved about the accesses holds of it.
* **Parallel batches** (`Assignment`, `Views`, `Parallel`, `Refinement`, `Batches`). What a user's rows can see of the
  tables is a view; an access acts on the view of its own user and on no other. The invariant of an interleaving is what
  is still going to happen to each user.
* **The whole system over time** (`World`). Actions are: a row arrives, the workers restart with any number, a worker
  loads its list, makes an access that may fail, or crashes; the exporter makes an access that may fail, or crashes; an
  offer is flagged as synced. `Limits`, `Issuance`, `Settlement`, `Exports`, `ReportRuns`, `Journals` and `MopRuns`
  prove invariants over every sequence of actions; `Runs` shows that the interleavings of a batch are such sequences.

## What the guarantees rest on

* The redemption limit needs only the assignment by user, and offer terms that do not change.
* At-most-once issuance and fulfilment need one worker, or that rows with one transaction id belong to one user and so
  do the fulfilments naming one rebate. `SharedIds.SharedIdCanIssueTwiceIff` says exactly when two users' rows with one
  transaction id are issued twice.
* The refinement needs that no transaction id of the batch is shared between users, and that its fulfilments name
  rebates from before the batch, of their own user or of another account. Processed rows and rows outside the batch do
  not matter. Users, offers and ledger are fixed during it.
* Refund reports need that no worker is stopped while it reports, the journal that nobody is stopped between a rebate
  and its journal row. `ReportRuns.StoppingKeepsReportsIff`, `Journals.StoppingKeepsJournalIff` and
  `Journals.StoppingExportKeepsJournalIff` say exactly which stops do harm. All other failures and crashes are allowed.
* Conservation of totals needs complete syncs with no fulfilment meanwhile. `MopSync.HalfASyncConservesIff` and
  `MopSync.LateSyncConservesIff` say exactly when the law survives otherwise.
* The master's wait ends if no row throws and, while rows are left, some worker makes an access between two counts.

## Where the code does not do what its comments suggest

* The master waits until no row is pending and logs that the workers are done. A row is marked before its rebate or its
  reports are written, so a worker may still be at work when the export starts. `ZeroPending.ZeroPendingIff` and
  `ZeroPending.ZeroCanComeEarlyIff` say when. The export stays safe, since `World` lets both go on together.
* The ledger lookup speaks of the last possible time of the day but stops at the full second 23:59:59, and an upsert
  after it is only seen on later days: `Ledger.MissesTheLastSecondIff`, with an input in
  `Ledger.HalfASecondBeforeMidnight`.

## Model

| member | source | states |
|---|---|---|
| Ledger.CompressedAgreesWithHistory | db/migrations/sqls/20180813143626-alter-user-ledger-trigger-up.sql:7-23 | For any history with increasing times per user, reading the change-only log at any cutoff gives the last upsert of the full history at that cutoff |
| Ledger.StateAtAgreesWithHistory | app/database/repositories/user_ledger_repository.ts:18-36 | The state on a day is that of the last upsert by 23:59:59 of the day, and there is none exactly when there was no upsert by then |
| Ledger.StateAtIsNewest | app/database/repositories/user_ledger_repository.ts:18-36 | The state on a day is in the row of the user with the greatest time up to second 23:59:59, written out in columns; no other |
| Ledger.OnlyChangesAreKept | db/migrations/sqls/20180813143626-alter-user-ledger-trigger-up.sql:7-23 | Two consecutive rows of a user never carry the same lists |
| Ledger.MissesTheLastSecondIff | app/database/repositories/user_ledger_repository.ts:18-36 | The lookup gives the state at the true end of the day exactly if the day's last upsert, where it falls within the last second, repeats what was held before |
| Ledger.HalfASecondBeforeMidnight | app/database/repositories/user_ledger_repository.ts:20-21 | An upsert half a second before midnight is missed on its own day |
| Ledger.UserLedger.Trigger | db/migrations/sqls/20180813143626-alter-user-ledger-trigger-up.sql:7-23 | Appends a row exactly if the lists differ from the user's last upsert, and keeps the log equal to the compressed history |
| Ledger.UserLedger.GetStateAtDate | app/database/repositories/user_ledger_repository.ts:18-36 | The lookup returns what the full history held at the end of that day |
| Eligibility.LedgerDecidesByHistory | app/transaction_processing/qualifying_eligibility/offer_linking.ts:89-108 | Linked or targeted on a day means that the lookup succeeds and the last upsert by its end lists the offer |
| Reward.InterpretThenCalculate | app/offer_import/reward_calculation_interpretation.ts:37-71 | The sign flips of import and calculation cancel: the reward is exactly the terms amount, or that amount times spend or base points |
| Reward.RoundHalfUpIsNearest | app/transaction_processing/pending_rebate_issuance.ts:16-17 | Rounding yields the one whole number within half a unit, the upper one on a tie |
| Reward.StoredWithinHalfUnit | app/transaction_processing/pending_rebate_issuance.ts:15-17 | A non-negative reward is stored as a non-negative amount within 0.005 dollars or 0.5 points of its exact real value |
| Reward.StoredAmountExact | app/transaction_processing/pending_rebate_issuance.ts:15-17 | The stored amount is the only multiple of a cent, or of a point, within half a unit, half-up on ties |
| Reward.StoredIsOdd | app/transaction_processing/pending_rebate_issuance.ts:15-17 | Negative rewards are rounded like positive ones, with ties away from zero |
| Reward.StoredIsMonotone | app/transaction_processing/pending_rebate_issuance.ts:15-17 | A larger reward is never stored as a smaller amount |
| Reward.ExportKeepsStoredAmount | app/database/serializers/rebate_export_serializer.ts:27 | The ceiling taken at export changes no stored amount |
| Reward.CeilingIsLeastAbove | app/database/serializers/rebate_export_serializer.ts:27 | The rounding at export gives the least whole number not below, for any sign |
| Reward.ExportedIsPromised | app/database/serializers/rebate_export_serializer.ts:27 | From terms to file: the exported amount is non-negative and within half a cent, or half a point, of what the terms promise for the spend and base points |
| Reward.MoreSpendMoreReward | app/transaction_processing/pending_rebate_issuance.ts:15-17 | With the same terms, more spend or more base points never store a smaller reward |
| Eligibility.FirstOfIffForemost | app/transaction_processing/fulfillment_validation.ts:14-19 | A state is the first match exactly if it applies and none of higher priority does |
| Eligibility.FulfilmentVerdictTotal | app/transaction_processing/fulfillment/states/index.ts:10-19 | Every fulfilment gets an applicable state; it is the successful one exactly when the payment is unused, the client known and the named rebate due with equal account and amount |
| Eligibility.RefundVerdictTotal | app/transaction_processing/refund/states/index.ts:6-11 | Every refund gets one of the four states; the tracking states imply an offer and a rebate of the client for it |
| Verdicts.FulfilmentColumns | app/transaction_processing/fulfillment/states/index.ts:10-19 | The first applicable state is, read off the columns: no rebate id, payment used, unknown client, no such rebate, other account, other amount, not pending fulfilment, or successful |
| Verdicts.RefundColumns | app/transaction_processing/refund/context.ts:13-35 | The first applicable state is, read off the columns: no offer, no rebate of the client for it, or tracked exactly if the offer is activated and redeemable and the date is between its start and its end plus the refund period |
| Fulfilment.RebateIsThere | app/transaction_processing/fulfillment/states/index.ts:10-19 | By the time a state dereferences the rebate, the earlier states have ruled out that it is missing |
| Fulfilment.FulfillmentContext.GetRebate | app/transaction_processing/fulfillment/context.ts:15-18 | The remembered rebate is the one named in the table |
| Fulfilment.FulfillmentContext.Matches | app/transaction_processing/fulfillment/states/index.ts:10-19 | Each state tests its own condition on the current tables |
| Fulfilment.Validate | app/transaction_processing/fulfillment_validation.ts:11-26 | The loop returns the highest-priority applicable state and never UnknownIssue |
| Refunding.Matches | app/transaction_processing/refund/states/index.ts:6-11 | Each state tests its own condition; the last two are only reached with an offer |
| Refunding.Validate | app/transaction_processing/refund_validation.ts:10-25 | The loop returns the highest-priority applicable state and never UnknownIssue |
| Outcomes.WaterfallDecides | app/transaction_processing/qualifying_strategy.ts:44-212 | The stored status is that of the first failing check in the fixed order; a pending rebate of the rounded reward is created exactly when none fails; nothing else changes |
| Outcomes.FirstRefusalMeans | app/transaction_processing/qualifying_strategy.ts:44-212 | The first refusal is the check that fails while all before it in the order hold |
| Verdicts.WaterfallColumns | app/transaction_processing/qualifying_strategy.ts:44-212 | The status of the first failing check is the one read off the columns of offer, client, product, ledger and rebates, each check and each status spelled out in one chain of cases |
| RowResults.QualifyingResult | app/transaction_processing/qualifying_strategy.ts:44-212 | A row gets the status that the columns give it, and a rebate exactly for RebateCreated; a failed mark is swallowed and the rebate issued all the same, a failed read or a throw changes nothing |
| RowResults.FulfilmentResult | app/transaction_processing/fulfillment_strategy.ts:16-34 | A payment gets the status that the columns give it; rebate and journal row are settled exactly for FulfilledTransSuccessful; a failed read or mark changes nothing, a later failure leaves out itself and what follows |
| RowResults.RefundResult | app/transaction_processing/refund_strategy.ts:15-46 | A refund gets the status that the columns give it, and only reports and their flags follow, for a known offer; a failed read or mark changes nothing |
| RowResults.RowResult | app/transaction_processing/index.ts:77-98 | Without failures: the status read off the columns is stored, nothing where there is none; a new rebate exactly for RebateCreated, a settled one exactly for FulfilledTransSuccessful, and no other change to rebates or journal |
| RowResults.RebateKeepsPromise | app/transaction_processing/pending_rebate_issuance.ts:15-43 | The rebate row that a purchase earns is in the unit of the terms and within half a cent or half a point of what they promise for its spend and base points |
| Outcomes.OpenOfferIsRewarded | app/transaction_processing/qualifying_strategy.ts:44-212 | A first purchase with an eligible product on an activated, redeemable offer in its period and without conditions earns its rebate |
| Outcomes.LeftPendingExactly | app/transaction_processing/qualifying_strategy.ts:44-212 | A row stays pending, with nothing written, exactly where one of two throws is reached |
| Outcomes.CardTypeDecides | app/transaction_processing/qualifying_strategy.ts:274-284 | When the unrecognised card type decides the row, in terms of offer, client and date |
| Outcomes.UnlistedProductDecides | app/transaction_processing/qualifying_eligibility/offer_linking.ts:54-68 | When the link check meets an authorised user's product that the offer does not list |
| Outcomes.FulfilmentDecides | app/transaction_processing/fulfillment_strategy.ts:16-34 | The row is marked with the highest-priority status; the named rebate and its one open journal row are settled, and nothing else changes, exactly when the payment is unused, the client known and the rebate due with equal account and amount |
| Outcomes.OptInCardTypeKnown | app/transaction_processing/qualifying_eligibility/offer_opt_in_file.ts:20-30 | Past the screening the card type is recognised, so the throw in the opt-in filter is unreachable |
| Outcomes.RowComesTo | app/transaction_processing/index.ts:77-98 | The separate accesses of a row, run to the end, come to the closed form of its strategy |
| Eligibility.PrimaryFallbackImpliesOwnership | app/transaction_processing/qualifying_eligibility/offer_product_ownership.ts:7-43 | Whenever linking is checked against the primary account holder, the later ownership check accepts |
| Eligibility.ProductUsedIffHeld | app/transaction_processing/qualifying_strategy.ts:286-295 | A product is found exactly when the client holds one with the code and account of the transaction |
| Qualifying.HeadOfFilter | app/transaction_processing/qualifying_strategy.ts:286-289 | The head of the filtered products is the first match |
| Qualifying.QualifyingStrategy.FindProduct | app/transaction_processing/qualifying_strategy.ts:274-296 | Throws exactly on an unrecognised card type and finds a product exactly when there is one; caches the first |
| Qualifying.ShouldCheckLinkingToPrimary | app/transaction_processing/qualifying_eligibility/offer_linking.ts:54-87 | Throws exactly when an authorised user's product is not listed; otherwise decides whether the primary holder is asked |
| Qualifying.FirstEligible | app/transaction_processing/qualifying_eligibility/offer_linking.ts:60-65 | The search loop stops at the first eligible product of the code |
| Qualifying.QualifyingStrategy.LinkingAccepts | app/transaction_processing/qualifying_eligibility/offer_linking.ts:8-51 | Accepts exactly when the right client was linked on the day, refuses when the ledger lookup fails, and throws exactly where the product is not listed |
| Qualifying.QualifyingStrategy.TargetingAccepts | app/transaction_processing/qualifying_eligibility/offer_targeting.ts:7-42 | Accepts exactly when targeting is not asked for or the client was targeted on the day; a failed lookup refuses |
| Qualifying.QualifyingStrategy.OwnershipAccepts | app/transaction_processing/qualifying_eligibility/offer_product_ownership.ts:7-43 | Accepts exactly when the ownership of the product is redeemable for the offer |
| Qualifying.QualifyingStrategy.OptInAccepts | app/transaction_processing/qualifying_eligibility/offer_opt_in_file.ts:6-40 | Accepts exactly when an opt-in record matches; throws only for an unrecognised card type |
| Qualifying.QualifyingStrategy.Screen | app/transaction_processing/qualifying_strategy.ts:44-160 | Every early return up to the redemption limit leaves what the refused row's steps leave |
| Qualifying.QualifyingStrategy.Conclude | app/transaction_processing/qualifying_strategy.ts:162-211 | The rest, up to the issuance, leaves what the second half of the steps leaves |
| Qualifying.QualifyingStrategy.Perform | app/transaction_processing/qualifying_strategy.ts:44-212 | For any pattern of failing reads, ledger lookups and writes the tables end as the row's separate accesses leave them |
| Fulfilment.SettleNamedRebate | app/transaction_processing/successful_fulfilled_rebate.ts:20-43 | Settles the row of the named rebate, and the remembered copy with it |
| Fulfilment.UpdateJournalReport | app/transaction_processing/report/rebate_journal_update.ts:17-60 | Updates the open journal row of the rebate, or nothing if there is none |
| Fulfilment.Perform | app/transaction_processing/fulfillment_strategy.ts:16-34 | For any pattern of failing reads and writes the tables end as the row's separate accesses leave them |
| Refunding.InsertRefundReportFromTransaction | app/transaction_processing/report/refund_create.ts:36-54 | A row without the flag gets one report and then its flag, unless a call fails in between |
| Refunding.CreateReports | app/transaction_processing/report/refund_create.ts:14-34 | The two loops leave what the report steps of the row leave |
| Refunding.Perform | app/transaction_processing/refund_strategy.ts:15-46 | For any pattern of failing reads and writes the tables end as the row's separate accesses leave them |
| Processing.ProcessTransaction | app/transaction_processing/index.ts:77-98 | Dispatch by type; a type without a strategy changes nothing |
| Processing.Perform | app/transaction_processing/index.ts:42-70 | Processes a date-ordered list of exactly the worker's pending rows, one after the other |
| Processing.WithoutFaultsRow | app/transaction_processing/index.ts:77-98 | When no call fails, a row of any type comes to the closed form of its strategy |
| Processing.WithoutFaults | app/transaction_processing/index.ts:64-66 | When no call fails, the loop comes to the sequential pass |
| Assignment.ProcessorInRange | app/database/repositories/transaction_for_rebate_criteria_repository.ts:41-45 | Any hash, negative or not, gives a processor in 1..n |
| Assignment.AssignsPendingRows | app/database/repositories/transaction_for_rebate_criteria_repository.ts:34-53 | Exactly the unprocessed rows get a processor, one more than the remainder of the absolute hash of their user; nothing else changes |
| Assignment.PendingListMeans | app/database/repositories/transaction_for_rebate_criteria_repository.ts:55-61 | A list is one the query may return exactly if it is ordered by date and holds each unprocessed row of the processor once and nothing else |
| Assignment.PendingAreCounted | app/database/repositories/transaction_for_rebate_criteria_repository.ts:18-32 | The pending count is the number of unprocessed rows |
| Assignment.PendingListIsOne | app/database/repositories/transaction_for_rebate_criteria_repository.ts:55-61 | A date-ordered list of exactly the pending rows of a processor exists |
| Assignment.AssignmentPartitions | app/database/repositories/transaction_for_rebate_criteria_repository.ts:34-61 | After an assignment each pending row is on the list of exactly one worker, and all rows of a user on the same |
| World.OneUserOneWorker | app/database/repositories/transaction_for_rebate_criteria_repository.ts:34-36 | In every reachable state no two workers hold rows of one user |
| World.NextKeepsBase | app/scheduler/job_runner.ts:77-115 | Arrivals, accesses, failures, crashes, restarts and exports keep the assignment discipline |
| Views.StepCongruent | app/transaction_processing/index.ts:77-88 | Two databases that look alike to a row's user still do after the same access |
| Views.StepFrame | app/transaction_processing/index.ts:77-88 | An access for one user is invisible to every other user |
| Views.ErasedAlike | app/transaction_processing/pending_rebate_issuance.ts:19-41 | What the refinement disregards of a rebate is its id alone, and only of rebates issued during the batch |
| Parallel.AdvanceKeepsFuture | app/transaction_processing/index.ts:64-66 | Whoever steps, what is still going to happen to a user's part of the tables does not change |
| Refinement.ParallelRefinesSequential | app/transaction_processing/index.ts:42-70 | Every finished interleaving leaves the transactions, journal, refund reports and, up to generated ids, rebates of any sequential pass that keeps each user's order, if no transaction id of the batch is shared between users and its fulfilments name earlier rebates of their own user or of another account |
| Refinement.InterleavingsAgree | app/transaction_processing/index.ts:42-70 | Any two finished interleavings agree, whatever the number of workers |
| Refinement.OneAfterAnotherKeepsOrder | app/database/repositories/transaction_for_rebate_criteria_repository.ts:34-61 | Running the workers one after another is such a sequential pass |
| Parallel.BatchCanFinish | app/scheduler/job_runner.ts:93-99 | From anywhere in a batch some interleaving finishes it |
| Batches.AssignmentStartsBatch | app/database/repositories/transaction_for_rebate_criteria_repository.ts:34-61 | What the assignment hands out satisfies what the refinement needs, for any hash |
| Batches.AssignedBatchRefinesSequential | app/scheduler/job_runner.ts:77-98 | The refinement for a batch as the master starts it |
| Runs.BatchIsRun | app/scheduler/job_runner.ts:77-115 | Every interleaving of an assigned batch is a run of the whole system: restart, loads, successful accesses |
| Runs.ArrivedIsAssigned | app/database/repositories/transaction_for_rebate_criteria_repository.ts:34-61 | A row that arrives at any time is on the list of exactly one worker of the next batch, that of its user |
| Limits.ScreenedIsUnderLimit | app/transaction_processing/qualifying_eligibility/redemption_limit_validation.ts:9-55 | Passing the limit check means being under the limit, per card for the per-card type |
| Limits.RedemptionLimitHolds | app/transaction_processing/qualifying_eligibility/redemption_limit_validation.ts:9-55 | Over any run, with failures, crashes and reruns, the number of rebate rows of a user and offer, and of the card for the per-card type, never exceeds the larger of the initial number and the limit |
| Issuance.HeadsApart | app/database/repositories/transaction_for_rebate_criteria_repository.ts:34-36 | Rows in the hands of two workers have different users and transaction ids |
| Issuance.AtMostOneRebatePerTransaction | app/transaction_processing/qualifying_eligibility/transaction_used.ts:7-27 | Over any run no two rebates share an account transaction id, with duplicate deliveries, swallowed marks and crashes between mark and insert |
| SharedIds.SharedIdCanIssueTwiceIff | app/transaction_processing/qualifying_strategy.ts:162-171 | Two users on different workers, each with a row of one transaction id: some interleaving issues two rebates for it exactly if the columns of the initial tables give each row RebateCreated |
| Settlement.StepKeepsSettled | app/transaction_processing/fulfillment_strategy.ts:16-34 | A settled rebate has the paid amount equal to its own and a marked row of the same account behind it, after every single access |
| Settlement.NextKeepsFulfilled | app/transaction_processing/successful_fulfilled_rebate.ts:20-43 | A fulfilled rebate only ever changes its sync flag |
| Settlement.FulfilmentIsSafe | app/transaction_processing/fulfillment_strategy.ts:16-34 | Over any run a payment settles at most one rebate, a settled rebate is final, and its marked payment row is there even after a crash |
| Exports.EndStepDeliversTheFile | app/database/repositories/rebate_repository.ts:133-147 | The end step moves exactly the rebates of the file just uploaded, each with a journal row |
| Exports.RollBackUndoesClaim | app/database/repositories/rebate_repository.ts:105-117 | The roll-back undoes the claim exactly if nothing was being extracted before |
| Exports.ExportIsSafe | app/exports/rebates/rebate_export.ts:44-68 | Over any run each delivered rebate was in an uploaded file and is journaled; delivery and sync stamps match the status |
| Exports.DeliveredIsOnFile | app/database/repositories/rebate_repository.ts:133-147 | The same in columns: a rebate is stamped as delivered exactly in its last two statuses, and then some uploaded file holds its id and some journal row names it |
| Exports.ExportRecovers | app/exports/rebates/rebate_export.ts:198-211 | After any failed or crashed exports, one that completes delivers every rebate that existed at its start |
| Exporting.RebateExport.RebatesToExport | app/database/repositories/rebate_repository.ts:85-103 | Claims all rebates pending extraction and selects all being extracted |
| Exporting.RebateExport.CreateJournalRecords | app/exports/rebates/rebate_export.ts:121-129 | The loop journals the rebates being extracted in order, up to a failure, and succeeds exactly if no journal call fails |
| Exporting.RebateExport.Perform | app/exports/rebates/rebate_export.ts:44-68 | For any pattern of failing calls tables and files end as the exporter's steps leave them; it succeeds exactly if there is nothing to export or every call succeeds |
| ExportColumns.ExportResult | app/exports/rebates/rebate_export.ts:44-68 | For every pattern of failing calls, in columns: which file goes out, which rebates get which status, which journal rows are written; a failure before the upload is rolled back, one after it is not |
| ExportColumns.ExportDelivers | app/exports/rebates/rebate_export.ts:44-68 | When no call fails, exactly the rebates pending or left in extraction are in the file, get one new journal row and await their fulfilment |
| MopSync.SyncOrderDoesNotMatter | app/database/repositories/offer_repository.ts:27-41 | A complete sync ends in the same books however the handlers of different offers interleave |
| MopSync.SyncConserves | app/database/repositories/offer_repository.ts:13-44 | A complete sync keeps running total plus unsynced and leaves nothing unsynced for its offers |
| MopSync.SyncColumns | app/database/repositories/offer_repository.ts:13-44 | Each row of a handled offer gains the number of fulfilled rebates without a flag and the sum paid for them; exactly the fulfilled rebates of handled offers are flagged; nothing else changes |
| MopSync.TotalsAreConserved | app/database/repositories/rebate_repository.ts:26-62 | Over any alternation of fulfilments and complete syncs, running total plus unsynced equals the initial one plus everything fulfilled |
| MopSync.SecondSyncChangesNothing | app/database/repositories/offer_repository.ts:13-44 | A second sync changes neither totals nor rebates |
| MopSync.OfferRepository.SyncTotalsToMOP | app/database/repositories/offer_repository.ts:13-44 | The read loop and the update loop leave the books of a complete sync |
| MopSync.HalfASyncConservesIff | app/database/repositories/offer_repository.ts:29-40 | Stopped between increment and flag, the law holds exactly if nothing was unsynced |
| MopSync.LateSyncConservesIff | app/database/repositories/offer_repository.ts:18-40 | With rebates fulfilled after the totals were read, the law holds exactly if the totals read are still current |
| MopRuns.TotalsFollowFulfilments | app/database/repositories/offer_repository.ts:13-44 | The conservation law over whole runs of the system, with any failures by day and one complete sync a night |
| MopRuns.SettlingIsTallied | app/transaction_processing/successful_fulfilled_rebate.ts:20-43 | Settling a rebate by a payment raises what is fulfilled, and what is unsynced, for its offer by one rebate and the amount paid, and for no other offer |
| MopRuns.OthersAreNotTallied | app/transaction_processing/successful_fulfilled_rebate.ts:20-43 | Nothing else that happens by day changes what is fulfilled or unsynced |
| RefundReports.ReportAllExactly | app/transaction_processing/report/refund_create.ts:36-54 | Reporting a list gives each of its rows one flag, one report to those that had none, and changes nothing else |
| RefundReports.ListedOnce | app/transaction_processing/report/refund_create.ts:56-87 | Because only refunds are tracked, no row is in both report lists |
| RefundReports.RowKeepsSound | app/transaction_processing/refund_strategy.ts:15-46 | One report per flagged row, reports only and always where two refunds are tracked; after a refund all tracked refunds and listed purchases of its client and offer are reported |
| ReportColumns.RefundSetsFlags | app/transaction_processing/report/refund_create.ts:14-87 | After a refund of a known offer, in columns: where two refunds are tracked exactly these and the purchases in one of four statuses gain a flag, otherwise none does; each flagged row has one report, with its columns |
| ReportColumns.OthersSetNoFlags | app/transaction_processing/refund_strategy.ts:15-46 | No other row sets a flag or writes a report |
| ReportColumns.IssuedIsReported | app/transaction_processing/report/refund_create.ts:56-72 | A purchase that earned a rebate is reported, once and with its amount, with the second tracked refund of its client and offer |
| RefundReports.SequentialReportsAreSound | app/transaction_processing/index.ts:64-66 | The same after any sequential pass |
| ReportRuns.ReportsStayInStep | app/transaction_processing/report/refund_create.ts:14-54 | Over any run in which no reporting worker is stopped, whatever else arrives, fails, crashes or is exported: one report per row flagged or being flagged, reports only for pairs with two tracked refunds, and none missing for a tracked refund of a pair nobody is reporting |
| ReportRuns.ReportingCompletes | app/transaction_processing/report/refund_create.ts:14-34 | A worker that leaves its report loops has reported all tracked refunds and all listed purchases of the pair |
| ReportColumns.CompletedReports | app/transaction_processing/report/refund_create.ts:14-34 | The same in columns: tracked refunds, and purchases in one of the four statuses, are flagged |
| ReportRuns.StoppingKeepsReportsIff | app/transaction_processing/report/refund_create.ts:36-54 | Stopping a reporting worker keeps this exactly if it was not between a report and its flag and no tracked refund of its pair was unreported |
| ReportRuns.BatchReportsAreSound | app/scheduler/job_runner.ts:77-98 | Every finished interleaving of an assigned batch leaves the reports in order, whoever the ids belong to |
| Journals.LookupFinds | app/transaction_processing/report/rebate_journal_update.ts:42-60 | The lookup at fulfilment finds the one open row of the rebate |
| Journals.JournalUpdated | app/transaction_processing/report/rebate_journal_update.ts:17-40 | The update leaves one settled row with the amount in the columns of the payment's card type and of the reward type |
| Journals.JournalStaysInStep | app/transaction_processing/report/rebate_journal_create.ts:18-45 | Over any run in which nobody is stopped between a rebate and its journal row, each delivered rebate has exactly one such row: pending, with client and card of the rebate, until it is settled, then fulfilled, with those of the payment; the amount stands in the column of its card type and of its reward type only; the lookup at fulfilment finds the row |
| Journals.SplitsAddUp | app/transaction_processing/report/rebate_journal_create.ts:18-45 | The reward columns add up to the amount, and the card columns do exactly for a recognised card type or no amount |
| Journals.StoppingKeepsJournalIff | app/transaction_processing/fulfillment_strategy.ts:25-34 | Stopping a worker keeps the journal in step exactly if it was not between settling a rebate and its journal row |
| Journals.StoppingExportKeepsJournalIff | app/exports/rebates/rebate_export.ts:121-129 | Stopping an export keeps it exactly if no rebate was journaled that is still being extracted |
| Master.StepLowersPending | app/database/repositories/transaction_for_rebate_criteria_repository.ts:18-32 | Marking a pending row lowers the pending count, and no access raises it |
| Master.StepDecides | app/transaction_processing/qualifying_strategy.ts:302-325 | A row that never throws is marked before it is done |
| Master.AllDoneNonePending | app/scheduler/job_runner.ts:93-99 | When the workers are through and no row throws, nothing is pending |
| Parallel.WorkLeavesLess | app/scheduler/job_runner.ts:93-99 | Every access of a worker with rows left lowers the work left: rows, then stages, then reports |
| Master.JobRunner.WaitForWorkers | app/scheduler/job_runner.ts:91-99 | The wait loop ends with a pending count of zero, if between two counts some worker with rows left makes an access |
| Master.JobRunner.MasterProcess | app/scheduler/job_runner.ts:77-108 | Export starts only after a zero count, on what the workers left; sync only after an export all of whose calls succeeded |
| ZeroPending.ZeroPendingIff | app/scheduler/job_runner.ts:93-99 | In an assigned batch nothing is pending exactly if every worker is through or past the mark of its last row |
| ZeroPending.ZeroCanComeEarlyIff | app/scheduler/job_runner.ts:93-103 | With one pending row a zero count can come too early exactly for a refund of a known offer, and where the columns give RebateCreated or FulfilledTransSuccessful |

## Left out

- Master.JobRunner.MasterProcess: worker accesses left after a zero count are not interleaved with its export; `World` covers them.
- Master.JobRunner.WaitForWorkers: that some worker with rows left makes an access between two counts is assumed; after a crash the original waits for ever.
- Qualifying.QualifyingStrategy.Perform: whether the reads of the first or of the second half succeed is one parameter each; a failed ledger lookup, which the original catches and counts as not linked or not targeted, is a parameter of its own in `Env`.
- Fulfilment.Perform: the reads before the rebate is looked at, and those after, are one parameter each.
- Exporting.RebateExport.Perform: recording the transfer details, the CSV and zip files and the upload are one call that may fail.
- Refinement.ParallelRefinesSequential: each worker's list is read at the start of the batch, and no call fails.
- Journals.JournalStaysInStep: an unrecognised card type on the payment makes the card split zero instead of the amount.
- Ledger.CompressedAgreesWithHistory: offer lists are non-null, and times of one user's upserts increase strictly.
- Kafka consumers, producers and dispatch, SFTP, logging, configuration and process forking.
- Web routes, views and search, which edit tables directly and would break the single-writer conditions.
- The `Promise.all` mode of transaction processing, which drops the order per user.
- Two exporters at once, and fulfilments during a sync beyond the exact conditions above.
- MD5: any function from users to integers stands for it.
- Time zones and date formats: instants are whole microseconds in UTC; floating point in Salesforce columns: exact cents.
- Columns that no decision reads (merchant, currency, masked account, timestamps other than those modelled), the unfulfilled-rebate report, and most of the serializers.
- The JSON snapshots of transactions inside a rebate, of which only the row ids are kept; journal rows keep their status, client and amounts.
- Strings: ids, codes and account numbers are numbers, and an empty primary account is the same as a missing one.
- Query results among rows of equal date or status: any order in `Assignment.IsPendingList`, table order elsewhere.
- Gaps in generated ids, row deletion, and partition and schema migrations other than the ledger trigger.
