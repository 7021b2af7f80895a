# Verification of the order engine and its neighbours

A Dafny model of the parts of the repository that carry the hardest guarantees, with proofs of those
guarantees. `dafny verify dfyconfig.toml` verifies everything.

Code that changes state is modelled as classes, methods and loops proved equal to specification
functions; the properties are then proved of those functions, over every input and every run.

| Files | What they model |
|---|---|
| `Fefo`, `AllocationOutcome`, `AllocateCommits` | first-expired-first-out lot selection, and when an allocation and a whole allocate call commit |
| `Orders`, `OrderService` | every customer-order transaction, as a function of the database and as the loops of the service |
| `OrderFacts` | reservations, demand, movement plans, withdrawals and history of single transactions |
| `OrderAnswers` | what each call of the order service answers on any database, and what a repeated call does |
| `FulfilmentProtocol`, `FulfilmentInvariant`, `FulfilmentTheorems` | the fulfilment engine as a transition system of concurrent, retried and crashing calls |
| `StockSafety`, `CancelRace` | stock safety over whole runs, and exactly which cancellations endanger it |
| `OrderRuns`, `KeyClash`, `FulfilRetry` | runs of one-line orders, posting keys that somebody else has taken, and exactly when a retry goes through |
| `AllocationLocks` | allocation at the level of row locks, interleaved with postings, withdrawals and cancels |
| `ImageBytes`, `ImageTokens`, `JpegStrip`, `ChunkStrip` | the JPEG, PNG and WebP metadata strippers |
| `LinearFit`, `BrandTrend` | the least-squares trend and what brand analysis concludes from it |
| `AlertDelivery`, `AlertEpisodes` | the leased email outbox, and alert episodes with their digests |
| `SessionCache` | the two bounded session maps |
| `BusinessTime`, `Attendance` | business days, the punch gate and punch pairing |
| `LineArithmetic`, `OrderEntry`, `Decimal` | fixed-point decimals, the resolution of order lines, and the drafts they become |
| `CommercialTerms` | effective-dated rates and their lookup |

## How the engine is modelled

- A transaction is one atomic step on the database. The posting service is modelled from its own code:
  it looks up the document, claims the key, replays an equal request, refuses a different one, checks
  eligibility and running balances and advances the document, all in one step. An equal request is one of
  the same group, order, movements and `details`, which stand for the rest of what the request hash covers.
  `CancelRace.PostingAccepted` says exactly when a posting is accepted.
- A fulfil call is a prepare transaction, up to two postings and a finalize transaction, with any other
  step in between. It may be retried, may lose a posting's acknowledgement, may fail and compensate with
  either delete missing, and may stop for good anywhere.
- Conservation of stock needs no hypothesis. Backing of reservations does: the order lock is dropped when
  prepare commits (src/modules/customer-orders/service.ts:868) while cancel accepts READY (line 1012).
  `CancelRace.CancelSafeIffQuiet` gives the exact condition on a cancel and
  `CancelRace.CancelOvertakesFulfil` the run that shows it is needed.
- Enough stock does not make an allocate call succeed: a second ACTIVE row for a line and lot breaks the
  partial unique index. `AllocationOutcome.AllocateItemIff` is the exact condition for one selection,
  `AllocateCommits.AllocateIff` and `AllocateCommits.AllocateIffEnough` for the whole call.
- FAILED does not by itself mean that an alert email was not delivered: a lease may have lapsed, and an answer
  may have been lost (src/modules/alerts/resend.ts:50-54). `AlertDelivery.FailedMeansUndelivered` is the exact
  condition, `AlertDelivery.FailedForSure` the one that a log of lapses and timeouts can tell, and
  `AlertDelivery.FailedAfterTimeouts` and `AlertDelivery.FailedYetDelivered` show that both its parts are needed.
- A digest selects without locking rows, so a scan may commit before the link: `AlertEpisodes` takes the two as
  separate steps, and `AlertEpisodes.ResolvedYetEmailed` is a run where it matters.

## Where the code and its comments differ

The model follows the code.

- Attendance forfeits a shift when it is more than 24 hours old; the comment on the status says 24 hours
  or more (src/modules/ems/attendance-shared.ts:76-77, 125).
- Ending a commercial term may lengthen it; the comment says it only narrows
  (src/modules/commercial-terms/routes.ts:194). `CommercialTerms.EndCanLengthen` and
  `CommercialTerms.EndFailsIff` say what happens then.
- Retries never wait for the thirty-minute cap of the email backoff, because the sixth attempt is the last
  (`AlertDelivery.RetriesDouble`).
- A line entered in a unit called "base" is always refused, because its key is taken for a component's
  (src/modules/customer-orders/validation.ts:197, `LineArithmetic.BaseUnitRejected`).
- The job-output step says it narrows to the exact output lot, but it searches the production warehouse by
  item and ignores the lot record (src/modules/customer-orders/service.ts:274-307); no lot identity is claimed here.
- A retry is said to replay safely (src/modules/customer-orders/service.ts:757-766). It does exactly when each
  key it needs is free, or is its own under the details the retry reads (`FulfilRetry.RetrySucceedsIff`). Two
  things can refuse it with IDEMPOTENCY_KEY_REUSED:
  - The key is somebody else's, for ever. Keys are unique across modules (src/db/enterprise-schema.ts:215) and a
    job order posts under its bare number (src/modules/production/job-order-service.ts:901); and an order whose
    number is another's plus ":JOBOUT" shares a key with it. No stock is lost, but such an order is fulfilled in
    no continuation, and a READY order with no such key is fulfilled in some (`FulfilRetry.FulfillableIff`,
    `KeyClash.NumberTakenElsewhere`, `KeyClash.SuffixedOrderStuck`).
  - The details have changed since an earlier call posted (`FulfilRetry.ChangedDetailsRefused`). The hash covers
    the movements sorted by balance row (src/modules/stock/canonical.ts:76-93), so rows of one order that share a
    balance row enter it in the order the query returns them, which it does not fix
    (src/modules/customer-orders/service.ts:797-810); item units cannot change while in use and lot costs are
    never rewritten. A later call that reads the old details goes through.

## Model

| member | source | states |
|---|---|---|
| `Fefo.SelectPortions` | src/modules/customer-orders/allocation.ts:75-177 | the portion loop over candidates, on-hand and reservations returns exactly `Select` of their availabilities |
| `Fefo.SelectionExact` | src/modules/customer-orders/allocation.ts:154-176 | selection succeeds if and only if a warehouse and a candidate exist and the positive availabilities cover the need; portions then sum to the need within each availability, and a failure reports exactly the missing quantity |
| `Fefo.EarlierExhausted` | src/modules/customer-orders/allocation.ts:154-172 | no candidate is drawn from before every earlier one is exhausted |
| `Fefo.GreedyDominates` | src/modules/customer-orders/allocation.ts:154-172 | no other way of covering the need takes more from any prefix of the candidates |
| `Fefo.DrawsEarliestExpiring` | src/modules/customer-orders/allocation.ts:75-172 | for every date, no feasible draw takes more stock from lots expiring by that date, when candidates come in expiry order |
| `Fefo.DrawWithinAvailable` | src/modules/customer-orders/allocation.ts:148-172 | with each balance row offered once, a row is drawn within its own availability |
| `AllocationOutcome.InsertAllIff` | src/db/customer-orders-schema.ts:199-201 | the inserts of one selection commit if and only if none of its lots is ACTIVE on the line and none occurs twice |
| `AllocationOutcome.AllocateItemIff` | src/modules/customer-orders/service.ts:236-253 | one allocation commits exactly when source, candidates and unreserved stock suffice and the drawn lots are free on the line |
| `AllocationOutcome.AllocateItemRefused` | src/modules/customer-orders/allocation.ts:108-176 | otherwise it says why: no warehouse, no stock row, exactly the quantity missing, or the unique index |
| `AllocationOutcome.SameItemTwiceFails` | src/modules/customer-orders/service.ts:256-271 | a component list naming one item twice fails on a single lot that holds more than enough |
| `AllocateCommits.LinesServe` | src/modules/customer-orders/service.ts:554-575 | the line loop is a list of FEFO requests served in order, refused outright only by an unrecorded job output or an empty snapshot |
| `AllocateCommits.ServeIff` | src/modules/customer-orders/service.ts:236-271 | requests served with their inserts commit exactly when each is covered by what the earlier ones left and no line draws on one lot twice |
| `AllocateCommits.AllocateIff` | src/modules/customer-orders/service.ts:525-588 | a whole allocate call commits exactly when it is a replay, or the guards hold, job outputs are recorded, every request is covered and no line draws on one lot twice |
| `AllocateCommits.ReadyIff` | src/modules/customer-orders/service.ts:664-696 | mark-ready commits exactly when it is a replay, or the order is ALLOCATED or IN_PRODUCTION at its version, each line has its rows or a completed job order with its lot, each output asked for is found, and no line draws on one lot twice |
| `AllocateCommits.LinesRefused` | src/modules/customer-orders/service.ts:554-575 | the first line that cannot be allocated gives its error to the whole call |
| `AllocateCommits.LineRefused` | src/modules/customer-orders/service.ts:256-307 | a completed job order without its lot is JOB_ORDER_NOT_READY, an empty snapshot VALIDATION |
| `AllocateCommits.ReadyLineRefused` | src/modules/customer-orders/service.ts:673-696 | mark-ready refuses a line without rows, or with a job order not done, with the error of its kind |
| `AllocateCommits.DrawIffEnough` | src/modules/customer-orders/service.ts:554-575 | with sources apart, all requests are covered exactly when each source has unreserved stock for all that the order asks of it |
| `AllocateCommits.AllocateIffEnough` | src/modules/customer-orders/service.ts:525-588 | so a whole allocate call is decided by per-source totals and by the lots its lines would draw |
| `OrderEntry.ResolvedLinesAreValid` | src/modules/customer-orders/service.ts:329-330 | the rows of a resolved request are lines the order tables accept |
| `OrderEntry.DraftFromRequest` | src/modules/customer-orders/service.ts:329-368 | a resolved request becomes a draft exactly when its number and its job orders are free |
| `OrderFacts.AllocateItemAdds` | src/modules/customer-orders/service.ts:236-253 | one FEFO allocation appends ACTIVE rows of the right item that sum to the need, and leaves every balance row it touches within on-hand |
| `OrderFacts.AllocateComponentsAdds` | src/modules/customer-orders/service.ts:256-271 | a component line gains rows equal to its demand item by item |
| `OrderFacts.AllocateLineAdds` | src/modules/customer-orders/service.ts:554-575 | a line gains rows covering its demand, or it is a job-order line waiting for its job |
| `OrderFacts.AllocateLinesAdds` | src/modules/customer-orders/service.ts:554-575 | after allocate every line is covered exactly or deferred, reservations stay within on-hand, and other rows are untouched |
| `OrderFacts.ReadyLinesAdds` | src/modules/customer-orders/service.ts:673-696 | after mark-ready every line is covered exactly |
| `OrderFacts.PlanIsFull` | src/modules/customer-orders/service.ts:795-848 | with every row of the order ACTIVE, the prepared plan is the whole of its group |
| `OrderFacts.PlanCarries` | src/modules/customer-orders/service.ts:830-848 | a group's plan carries exactly the rows of that group |
| `OrderFacts.FullPlanOrdered` | src/modules/customer-orders/service.ts:830-848 | a plan lists no row twice |
| `OrderFacts.PlanMovesOwned` | src/modules/customer-orders/service.ts:830-848 | a plan takes from each balance row exactly what its rows reserve there |
| `OrderFacts.WithdrawExact` | src/modules/stock/posting-service.ts:676-696 | an accepted posting takes from each balance row exactly what its movements name, and none goes negative |
| `OrderFacts.WithdrawFits` | src/modules/stock/posting-service.ts:676-696 | the running balance check passes whenever every row holds what the whole plan takes |
| `OrderFacts.ConsumeAllExact` | src/modules/customer-orders/service.ts:935-972 | the consume loop flips exactly the planned ACTIVE rows and writes one history row for each |
| `OrderService.OrderTables.SumReservations` | src/modules/customer-orders/allocation.ts:148-152 | the reserved sum of one balance row over all ACTIVE allocations |
| `OrderService.OrderTables.CreateDraft` | src/modules/customer-orders/service.ts:314-373 | creates a version-1 draft, or changes nothing when lines, number or the unique job-order index refuse it, as `Orders.CreateDraft` says |
| `OrderService.OrderTables.UpdateDraft` | src/modules/customer-orders/service.ts:377-428 | the draft edit, its new lines held against the job orders of all other lines: state and error of `Orders.UpdateDraft` |
| `OrderService.OrderTables.Submit` | src/modules/customer-orders/service.ts:430-474 | the submit transaction: state and error are those of `Orders.Submit` |
| `OrderService.OrderTables.Approve` | src/modules/customer-orders/service.ts:476-519 | the approve transaction with its maker-checker test: state and error are those of `Orders.Approve` |
| `OrderService.OrderTables.AllocateItem` | src/modules/customer-orders/service.ts:236-253 | select, then insert portion by portion: state or error of `Orders.AllocateItem` |
| `OrderService.OrderTables.AllocateComponents` | src/modules/customer-orders/service.ts:256-271 | the component loop: state or error of `Orders.AllocateComponents` |
| `OrderService.OrderTables.AllocateLine` | src/modules/customer-orders/service.ts:554-575 | the three consumption owners of a line: state or error of `Orders.AllocateLine` |
| `OrderService.OrderTables.Allocate` | src/modules/customer-orders/service.ts:525-599 | the allocate transaction, replay before the version check, rolled back whole on any error |
| `OrderService.OrderTables.MarkInProduction` | src/modules/customer-orders/service.ts:601-646 | the in-production transition: state and error are those of `Orders.MarkInProduction` |
| `OrderService.OrderTables.MarkReady` | src/modules/customer-orders/service.ts:648-715 | the mark-ready transaction with its deferred allocations, rolled back whole on any error |
| `OrderService.OrderTables.Cancel` | src/modules/customer-orders/service.ts:1014-1068 | the cancel transaction: every ACTIVE row of the order released, in place, or nothing changed |
| `OrderService.OrderTables.BuildPlan` | src/modules/customer-orders/service.ts:830-848 | the movement plan of one group in row order |
| `OrderService.OrderTables.Prepare` | src/modules/customer-orders/service.ts:773-869 | the prepare transaction: plans and documents of `Orders.Prepare` |
| `OrderService.OrderTables.Post` | src/modules/stock/posting-service.ts:585-805 | the posting service: document lookup, key claim, replay of an equal request or refusal, eligibility, running balance check, document advance |
| `OrderService.OrderTables.ConsumePlan` | src/modules/customer-orders/service.ts:935-972 | the consume loop over both plans |
| `OrderService.OrderTables.Finalize` | src/modules/customer-orders/service.ts:935-1000 | finalize: consume and advance the order, or replay, or roll everything back |
| `OrderAnswers.CreateAnswers` | src/modules/customer-orders/service.ts:329-368 | a creation files its lines as version 1 of a new draft exactly when they are storable and number and job orders are free, and otherwise says which is not |
| `OrderAnswers.EditAnswers` | src/modules/customer-orders/service.ts:386-424 | an edit commits exactly for a DRAFT order at its version, with storable lines whose job orders no other order uses, and leaves exactly the lines given, or the old ones, at the next version, and all else alone |
| `OrderAnswers.SubmitAnswers` | src/modules/customer-orders/service.ts:436-470 | a submit commits exactly for a DRAFT order at its version with a line, and records its submitter |
| `OrderAnswers.ApproveAnswers` | src/modules/customer-orders/service.ts:482-519 | an approval commits exactly for a SUBMITTED order at its version by someone else than its submitter, and records who |
| `OrderAnswers.AllocateAnswers` | src/modules/customer-orders/service.ts:532-584 | allocate replays on an ALLOCATED order, is refused for status, version and missing lines in that order, and advances the order when it commits |
| `OrderAnswers.ProductionAnswers` | src/modules/customer-orders/service.ts:610-642 | start of production replays once IN_PRODUCTION, and otherwise commits exactly for an ALLOCATED order at its version with a job-order line |
| `OrderAnswers.ReadyAnswers` | src/modules/customer-orders/service.ts:655-712 | mark-ready replays on a READY order, is refused for status and version in that order, and advances the order when it commits |
| `OrderAnswers.CancelAnswers` | src/modules/customer-orders/service.ts:1014-1068 | a cancel commits exactly with a reason, for an order not yet final at its version, and releases exactly its ACTIVE rows |
| `OrderAnswers.PrepareAnswers` | src/modules/customer-orders/service.ts:773-870 | prepare answers a FULFILLED order with a replay at any version and writes nothing; otherwise it commits exactly for a READY order at its version with an ACTIVE row, with a plan of exactly the ACTIVE rows of each group and its documents on file |
| `OrderAnswers.FulfilledReplays` | src/modules/customer-orders/service.ts:779-872 | once an order is FULFILLED, a fulfil call at any version, after any further steps, is a replay that leaves everything as it is |
| `OrderAnswers.FinalizeAnswers` | src/modules/customer-orders/service.ts:935-986 | finalize commits exactly when its movements are in its postings and its order is READY at its version or already FULFILLED, the latter a replay |
| `OrderAnswers.PostAnswers` | src/modules/stock/posting-service.ts:605-805 | the posting service on any request: each refusal in its order, the replay, and what a new posting writes |
| `OrderAnswers.AbandonAnswers` | src/modules/customer-orders/service.ts:917-931 | compensation removes exactly the documents of the failed call that nothing has posted |
| `OrderAnswers.RepeatReplays` | src/modules/customer-orders/service.ts:532-660 | allocate, start-production and mark-ready, once committed, answer the same call with the order as it is |
| `OrderAnswers.RepeatRefused` | src/modules/customer-orders/service.ts:314-503 | create, edit, submit, approve and cancel, once committed, are refused when sent again |
| `OrderAnswers.LinesAsEntered` | src/modules/customer-orders/service.ts:398-404 | in every run an order carries exactly the lines last entered for it by a committed creation or edit |
| `FulfilmentInvariant.AllocatedRows` | src/modules/customer-orders/service.ts:525-588 | a committed allocate appends fresh rows within on-hand and leaves each line covered or deferred |
| `FulfilmentInvariant.ReadiedRows` | src/modules/customer-orders/service.ts:648-712 | a committed mark-ready leaves each line of the order covered |
| `FulfilmentInvariant.PreparedCall` | src/modules/customer-orders/service.ts:773-869 | a prepared call holds the full plan of both groups of a READY order |
| `FulfilmentInvariant.AcceptedPosting` | src/modules/stock/posting-service.ts:605-660 | an accepted posting of a call is a replay that changes nothing or the first posting of the whole group, under the details of its request |
| `FulfilmentInvariant.FinalizeExact` | src/modules/customer-orders/service.ts:917-986 | finalize consumes exactly the rows of a READY order and fulfils it, or changes nothing |
| `FulfilmentInvariant.StepKeeps` | src/modules/customer-orders/service.ts:314-1068 | every transaction, posting, crash and compensation keeps the invariant |
| `FulfilmentInvariant.EveryRun` | src/modules/customer-orders/service.ts:314-1068 | the invariant holds in every run from any stock on hand |
| `FulfilmentTheorems.ExactlyOnce` | src/modules/customer-orders/service.ts:744-767 | however calls are retried or crash: each allocation is in one posting at most and once in it, the history is exactly the CONSUMED rows, and an order is FULFILLED exactly when its rows are CONSUMED, each then posted |
| `FulfilmentTheorems.ConsumedForever` | src/modules/customer-orders/service.ts:949-972 | over whole runs CONSUMED and RELEASED rows never change again and the history only grows |
| `FulfilmentTheorems.HistoryIsConsumed` | src/modules/customer-orders/service.ts:958-967 | the quantity recorded for a line is the quantity of its CONSUMED rows |
| `FulfilmentTheorems.CoverageByStatus` | src/modules/customer-orders/service.ts:554-575 | in every reachable state: no rows before allocation, exact coverage when READY, exactly the demand consumed and recorded when FULFILLED, nothing held when CANCELLED |
| `FulfilmentTheorems.OrderStep` | src/modules/customer-orders/service.ts:386-424 | every step leaves an order alone or advances it along the lifecycle, by one version, at the version its caller expected |
| `FulfilmentTheorems.VersionsLinearize` | src/modules/customer-orders/service.ts:577-584 | the changes of an order were requested at versions 1, 2, ..., n, each once, and its version is n + 1 |
| `FulfilmentTheorems.FinalStatuses` | src/modules/customer-orders/service.ts:1023-1047 | FULFILLED and CANCELLED orders never change again |
| `FulfilmentTheorems.ApproverDiffers` | src/modules/customer-orders/service.ts:492-503 | an order past SUBMITTED was approved by someone other than its submitter |
| `FulfilmentTheorems.StockConserved` | src/modules/customer-orders/service.ts:891-934 | on-hand plus everything posted equals everything received, per balance row, in every reachable state |
| `FulfilmentTheorems.JobFeedsOneLine` | src/db/customer-orders-schema.ts:143-145 | in every run no two lines share a job order |
| `FulfilmentTheorems.KeyCollision` | src/modules/customer-orders/service.ts:903-934 | two idempotency keys are equal exactly for the same group and document, or when one number is the other plus the job-output suffix |
| `StockSafety.SafeStep` | src/modules/customer-orders/service.ts:1014-1068 | a step whose cancellations overtake no fulfilment keeps reservations backed and cancelled orders unposted |
| `StockSafety.NoDocumentsIsQuiet` | src/modules/customer-orders/service.ts:850-866 | an order with no document row for either key is quiet: nothing posted, nothing about to be |
| `StockSafety.StockSafe` | src/modules/customer-orders/service.ts:891-972 | in every run where no committed cancel overtakes a fulfilment of its order, every reservation not yet posted is on hand and nothing is both posted and released |
| `CancelRace.PlanFits` | src/modules/customer-orders/service.ts:891-934 | in a safe state the plan of an unposted group of a READY order fits the stock on hand |
| `CancelRace.PostingNeverShort` | src/modules/customer-orders/service.ts:891-934 | so a posting is never refused for stock |
| `CancelRace.PostingAccepted` | src/modules/stock/posting-service.ts:605-660 | a READY order's posting is accepted exactly when its document exists and its key is free and the plan eligible, or taken by the same group with the same details |
| `CancelRace.CancelSafeWithoutDocuments` | src/modules/customer-orders/service.ts:1010-1047 | a cancel of an order with no document rows is safe whatever follows |
| `CancelRace.CancelSafeIffQuiet` | src/modules/customer-orders/service.ts:1010-1047 | a committed cancel keeps every continuation safe if and only if nothing of the order is posted and no call is about to post for it |
| `CancelRace.CancelOvertakesFulfil` | src/modules/customer-orders/service.ts:868-1012 | a concrete run in which a cancel between prepare and posting leaves five units reserved with none on hand |
| `KeyClash.TakenBy` | src/modules/customer-orders/service.ts:903-934 | a key under which an order has posted is its own group's, or that of the other group of the order whose number differs by the suffix |
| `KeyClash.NotBlocked` | src/modules/customer-orders/service.ts:903-934 | a group whose key no other module has taken, of an order without such a namesake, is not blocked |
| `KeyClash.NeverFulfilled` | src/modules/customer-orders/service.ts:891-986 | once the key of one of its lines' groups is another order's or another module's, an order is FULFILLED in no continuation |
| `KeyClash.SuffixedOrderStuck` | src/modules/customer-orders/service.ts:903-934 | a run that leaves the order numbered A:JOBOUT READY, refused with IDEMPOTENCY_KEY_REUSED, and FULFILLED in no continuation |
| `KeyClash.NumberTakenElsewhere` | src/modules/production/job-order-service.ts:900-902 | the run in which another module posts under an order's number: the order is left READY, refused with IDEMPOTENCY_KEY_REUSED, and FULFILLED in no continuation |
| `FulfilRetry.RetrySucceedsIff` | src/modules/customer-orders/service.ts:757-767 | in a safe state one more undisturbed call leaves a READY order FULFILLED exactly when each key it needs is free or its own under the details the call reads |
| `FulfilRetry.FulfillableIff` | src/modules/customer-orders/service.ts:757-767 | in a safe state some continuation fulfils a READY order exactly when no key it needs is another order's or another module's |
| `FulfilRetry.ChangedDetailsRefused` | src/modules/stock/posting-service.ts:636-644 | a run in which a call that reads other details after an unheard posting is refused with IDEMPOTENCY_KEY_REUSED, its order blocked by nobody |
| `AllocationLocks.EveryRun` | src/modules/customer-orders/allocation.ts:103-166 | the lock discipline is kept by every interleaving of allocations, cancels, receipts, postings of held rows and withdrawals by others |
| `AllocationLocks.NeverOvercommitted` | src/modules/customer-orders/allocation.ts:103-166 | in every interleaving the unposted reservations of a balance row, with those its lock holder has not committed, exceed on-hand by no more than what others withdrew |
| `AllocationLocks.OnlyWithdrawalsOvercommit` | src/modules/customer-orders/allocation.ts:68-77 | from any reachable state only a withdrawal from a balance row takes it from covered to over-committed, never an allocation |
| `AllocationLocks.OnlyHolderAdds` | src/modules/customer-orders/allocation.ts:125-166 | only a commit of the transaction holding the lock of a balance row adds reservations to it |
| `AllocationLocks.UndisturbedAllocates` | src/modules/customer-orders/allocation.ts:75-177 | left alone, a transaction adds exactly the portions that `Select` draws from the unreserved stock, or nothing when that falls short, and leaves no lock behind |
| `AllocationLocks.ActiveIsReserved` | src/modules/customer-orders/allocation.ts:148-152 | the sum taken under the lock is the reservation sum of the order tables, posted rows included |
| `AllocationLocks.WithdrawAnswers` | src/modules/stock/posting-service.ts:676-696 | a withdrawal by others is granted exactly when the row is free and holds enough, and takes just that |
| `AllocationLocks.RowAnswers` | src/modules/customer-orders/service.ts:949-972 | what cancelling, posting and consuming do to a row in each state |
| `ImageTokens.StrippedIsKept` | src/modules/discounts/evidence.ts:130-237 | stripping is reading, dropping metadata tokens and writing out the rest |
| `ImageTokens.Reparse` | src/modules/discounts/evidence.ts:130-237 | reading the stripped data finds exactly the tokens that were not metadata, in order |
| `ImageTokens.Idempotent` | src/modules/discounts/evidence.ts:130-237 | stripping twice is stripping once |
| `ImageTokens.NeverGrows` | src/modules/discounts/evidence.ts:130-237 | the stripped data is no longer than the data |
| `ImageTokens.ParseInvertsBytes` | src/modules/discounts/evidence.ts:130-237 | reading inverts writing for every token list whose tokens read back |
| `ImageTokens.TokensInFront` | src/modules/discounts/evidence.ts:130-237 | the tokens read are the front of the data, so only a tail is ever left over |
| `ImageTokens.LeftOverIs` | src/modules/discounts/evidence.ts:130-237 | what is left over could not be read, or lies behind a token that ends the data |
| `ImageTokens.UnchangedIff` | src/modules/discounts/evidence.ts:130-237 | stripping changes nothing exactly when there is no metadata token and nothing is left over |
| `ImageTokens.TailVerbatim` | src/modules/discounts/evidence.ts:130-237 | from a token that runs to the end on, data and stripped data are the same |
| `JpegStrip.StripJpegMetadata` | src/modules/discounts/evidence.ts:130-183 | the walker over offsets and chunks returns `Strip` of any byte string |
| `JpegStrip.SkipFill` | src/modules/discounts/evidence.ts:142-143 | the inner loop stops at the marker after the fill bytes, or at the end |
| `JpegStrip.JpegReadsAgain` | src/modules/discounts/evidence.ts:130-183 | every token the walker keeps is read again in front of the stripped rest, malformed lengths included |
| `JpegStrip.StripsMetadata` | src/modules/discounts/evidence.ts:164-183 | no APP1-APP15 or COM segment is left to read, every other token keeps its place and bytes, nothing grows, and a second pass changes nothing |
| `JpegStrip.PersonalGone` | src/modules/discounts/evidence.ts:164-173 | on any bytes: no segment with marker 0xE1 to 0xEF or 0xFE reads from the output, and every segment with another marker, APP0 included, still does |
| `JpegStrip.StripIdempotent` | src/modules/discounts/evidence.ts:130-183 | idempotence on every byte string, JPEG or not |
| `JpegStrip.StripsExactly` | src/modules/discounts/evidence.ts:162-181 | from every image of the marker grammar exactly the metadata segments are removed |
| `JpegStrip.WritesStripped` | src/modules/discounts/evidence.ts:136-181 | a JPEG written marker by marker comes out without its APP1 to APP15 and COM segments and with all the rest, byte for byte |
| `JpegStrip.NotJpeg` | src/modules/discounts/evidence.ts:131 | anything that does not begin like a JPEG is returned as it is |
| `JpegStrip.Dropped` | src/modules/discounts/evidence.ts:136-150 | beside metadata only a lone byte, fill bytes without a marker, or what follows the end marker is dropped |
| `JpegStrip.UnchangedExactly` | src/modules/discounts/evidence.ts:130-183 | a JPEG is left as it is exactly when it has no metadata segment and nothing but tokens |
| `JpegStrip.ScanVerbatim` | src/modules/discounts/evidence.ts:169-179 | from the start of scan on the output equals the input |
| `ChunkStrip.StripPngMetadata` | src/modules/discounts/evidence.ts:189-207 | the PNG walker returns `StripPng` of any byte string |
| `ChunkStrip.StripWebpMetadata` | src/modules/discounts/evidence.ts:212-237 | the WebP walker returns `StripWebp` of any byte string, or the range error of the length field |
| `ChunkStrip.WriteHeader` | src/modules/discounts/evidence.ts:231-236 | the RIFF header written around the payload |
| `ChunkStrip.StripsPng` | src/modules/discounts/evidence.ts:189-207 | exactly the five metadata chunk types go, the rest stays in order and unchanged, and a second pass changes nothing |
| `ChunkStrip.StripsWebp` | src/modules/discounts/evidence.ts:212-237 | EXIF and XMP chunks go, the RIFF length equals the output length minus 8, a second pass changes nothing, and failure is exactly an unrepresentable length |
| `ChunkStrip.StripsExactly` | src/modules/discounts/evidence.ts:186-237 | from every well-formed chunk list exactly the metadata chunks are removed |
| `ChunkStrip.PersonalGone` | src/modules/discounts/evidence.ts:186-227 | on any bytes: no chunk spelling one of the seven metadata types reads from the output, and every other chunk still does |
| `ChunkStrip.WritesPngStripped` | src/modules/discounts/evidence.ts:189-207 | a PNG written chunk by chunk comes out without its eXIf, tEXt, zTXt, iTXt and tIME chunks and with all the rest |
| `ChunkStrip.WritesWebpStripped` | src/modules/discounts/evidence.ts:212-237 | a WebP written chunk by chunk comes out without its EXIF and XMP chunks, with all the rest, under a true size field |
| `ChunkStrip.NeitherFormat` | src/modules/discounts/evidence.ts:190-215 | anything that does not begin like a PNG, or like a WebP, is returned as it is |
| `ChunkStrip.Dropped` | src/modules/discounts/evidence.ts:189-237 | beside metadata only a tail of fewer than eight bytes or what follows IEND is dropped |
| `ChunkStrip.PngUnchangedIff` | src/modules/discounts/evidence.ts:189-207 | a PNG is left as it is exactly when it has no metadata chunk and nothing but chunks |
| `ChunkStrip.WebpUnchangedIff` | src/modules/discounts/evidence.ts:212-237 | a WebP is left as it is exactly when, beside that, its RIFF header is true |
| `ChunkStrip.CutOffVerbatim` | src/modules/discounts/evidence.ts:197-201 | a final chunk cut off by the end of the data is copied as it is |
| `LinearFit.LeastSquares` | src/modules/analytics/brand-performance.ts:92-117 | the loops compute `FitOf` the series |
| `LinearFit.Spreads` | src/modules/analytics/brand-performance.ts:98-101 | the first loop computes the centred sums |
| `LinearFit.Squares` | src/modules/analytics/brand-performance.ts:106-109 | the second loop computes the residual and total sums of squares |
| `LinearFit.NormalEquations` | src/modules/analytics/brand-performance.ts:92-104 | the residuals of the fitted line sum to zero and are orthogonal to the positions |
| `LinearFit.ExcessSquares` | src/modules/analytics/brand-performance.ts:92-117 | any line is worse than the fitted one by exactly the squares of their difference |
| `LinearFit.Optimal` | src/modules/analytics/brand-performance.ts:92-117 | no line has a smaller residual sum of squares |
| `LinearFit.UniquelyOptimal` | src/modules/analytics/brand-performance.ts:92-117 | with two points or more no other line is as close |
| `LinearFit.RSquaredBounded` | src/modules/analytics/brand-performance.ts:114-115 | r-squared lies between 0 and 1 and the residual variance is not negative |
| `LinearFit.FitExplains` | src/modules/analytics/brand-performance.ts:111-116 | the variance times the points beyond two is the residual sum of squares, zero up to two points, and r-squared is the explained part of the squares about the mean |
| `LinearFit.SquaresAdd` | src/modules/analytics/brand-performance.ts:107-109 | each point adds the square of its distance from the line |
| `LinearFit.SmallFits` | src/modules/analytics/brand-performance.ts:92-104 | no points give the zero fit, one point a level line through it |
| `LinearFit.RecoversFit` | src/modules/analytics/brand-performance.ts:92-117 | a series on a straight line gives that line, with r-squared 1 and no residual variance |
| `LinearFit.SteepnessShows` | src/modules/analytics/brand-performance.ts:112-115 | a series on a line has an r-squared exactly when the line is not level |
| `LinearFit.RecoversLine` | src/modules/analytics/brand-performance.ts:92-117 | a series on a straight line is recovered exactly, with r-squared 1 and an exact next value |
| `BrandTrend.HistoryStartsWithSales` | src/modules/analytics/brand-performance.ts:138-143 | the history is everything from the first completed month with sales on |
| `BrandTrend.OnlyHistoryMatters` | src/modules/analytics/brand-performance.ts:135-169 | months without sales before the first sale, and the month in progress, change nothing of the trend |
| `BrandTrend.TrendMeans` | src/modules/analytics/brand-performance.ts:145-169 | which series are fitted, the grade by months and r-squared, and the projection of both fits to the next month |
| `BrandTrend.MeanSalesMeans` | src/modules/analytics/brand-performance.ts:170-193 | momentum is measured against the total net sales of the history shared by its months |
| `BrandTrend.MomentumMeans` | src/modules/analytics/brand-performance.ts:194-202 | growing and declining mean exactly a monthly change beyond 5% of average sales over at least three months |
| `BrandTrend.ProjectsLine` | src/modules/analytics/brand-performance.ts:145-169 | sales on a line are projected to its next point, floored at zero, graded HIGH exactly for six months or more of a line that is not level |
| `BrandTrend.ProjectsContribution` | src/modules/analytics/brand-performance.ts:156-169 | contribution on a line is projected exactly and without a band |
| `AlertDelivery.EveryRun` | src/modules/alerts/deliver.ts:34-83 | the outbox invariant holds under every interleaving of workers, crashes, lapsed leases, late requests and lost answers |
| `AlertDelivery.DeliveryBounds` | src/modules/alerts/deliver.ts:34-83 | PENDING rows have attempts left, attempts are at most six beyond the lapsed leases, SENT rows were accepted, and no row is emailed twice |
| `AlertDelivery.FencesIncrease` | src/modules/alerts/deliver.ts:52-58 | later claims of a row carry strictly larger fences, never beyond its attempts |
| `AlertDelivery.StaleForever` | src/modules/alerts/deliver.ts:66-79 | a worker whose row was claimed again never writes it, whatever happens later |
| `AlertDelivery.OneHolder` | src/modules/alerts/deliver.ts:66-68 | one worker at most can still write a row |
| `AlertDelivery.FinalRowsStay` | src/modules/alerts/deliver.ts:69-80 | SENT and FAILED rows never change again |
| `AlertDelivery.ClaimRace` | src/modules/alerts/deliver.ts:52-57 | a second claim changes nothing exactly while the two-minute lease runs |
| `AlertDelivery.DeliverOneSettles` | src/modules/alerts/deliver.ts:51-81 | an undisturbed worker leaves a due row SENT exactly when it hears the acceptance, else FAILED or waiting for the backoff of its attempt, a lost answer counting as a retryable refusal |
| `AlertDelivery.FailedMeansUndelivered` | src/modules/alerts/deliver.ts:66-79 | a FAILED row is undelivered now and in every continuation exactly when the provider has not accepted it and no request for it is outstanding, on its way or about to be made |
| `AlertDelivery.FailedForSure` | src/modules/alerts/resend.ts:50-54 | in every run a row that FAILED without a lapsed lease and without a lost answer was not delivered and never will be |
| `AlertDelivery.FailedAfterTimeouts` | src/modules/alerts/resend.ts:50-54 | the run that shows what lost answers can do: six timeouts, no lapsed lease, FAILED and delivered |
| `AlertDelivery.FailedYetDelivered` | src/modules/alerts/deliver.ts:66-79 | the run that shows what a lapsed lease can do: FAILED and delivered |
| `AlertDelivery.RequestsBounded` | src/modules/alerts/deliver.ts:47-60 | the provider is asked for a row at most once per attempt, so at most six times beyond its lapsed leases |
| `AlertDelivery.BackoffBounds` | src/modules/alerts/deliver.ts:23-25 | waits never shrink and stay between one and thirty minutes |
| `AlertDelivery.BackoffExact` | src/modules/alerts/deliver.ts:23-25 | one minute, doubled per attempt, thirty minutes from the sixth on |
| `AlertDelivery.RetriesDouble` | src/modules/alerts/deliver.ts:23-25 | waits of retries that can happen double and never reach the cap |
| `AlertDelivery.TickIsRun` | src/modules/alerts/deliver.ts:34-83 | a tick of one worker is a run of the protocol |
| `AlertDelivery.BatchMeans` | src/modules/alerts/deliver.ts:35-44 | a row is picked exactly when it is PENDING and due, or SENDING under a lapsed lease, and fewer than five such rows were created before it |
| `AlertDelivery.TickSettles` | src/modules/alerts/deliver.ts:46-83 | one undisturbed tick settles each picked row by how its send went, waits of 1, 2, 4, 8 and 16 minutes included, and leaves every other row alone |
| `AlertDelivery.Outbox.Candidates` | src/modules/alerts/deliver.ts:39-44 | the first five due rows in creation order |
| `AlertDelivery.Outbox.Deliver` | src/modules/alerts/deliver.ts:34-83 | one tick: the rows of the batch claimed, sent and finished in turn, answers heard or lost, and each counter the number of rows that came to its status |
| `AlertDelivery.Outbox.DeliverRow` | src/modules/alerts/deliver.ts:47-80 | the loop body: claim if still due, send, finish under the fence |
| `AlertEpisodes.SyncExact` | src/modules/alerts/scan.ts:103-124 | after a scan exactly the subjects found have an open alert of the kind, opened only where none was |
| `AlertEpisodes.SyncRows` | src/modules/alerts/scan.ts:103-124 | row by row: gone alerts are resolved as of now, other rows stay as they are, new ones are open, unsent and of now |
| `AlertEpisodes.OneAlertPerEpisode` | src/modules/alerts/scan.ts:103-124 | over any run, open alerts are the latest findings, never two for a subject, and every maximal run of findings has had exactly one alert |
| `AlertEpisodes.LinkedOnce` | src/modules/alerts/compose.ts:46-70 | an alert is put in one digest at most, ever, and once resolved in none, but for those a composer had selected before |
| `AlertEpisodes.ResolvedYetEmailed` | src/modules/alerts/compose.ts:46-70 | the run in which a scan between selection and link resolves an alert that is emailed all the same |
| `AlertEpisodes.DigestsBounded` | src/modules/alerts/compose.ts:46-72 | every digest of a run holds between one and a hundred alerts |
| `AlertEpisodes.FirstIsOldest` | src/modules/alerts/compose.ts:46-51 | sorting the unsent alerts by opening time, ties in any order, and taking the first hundred takes the oldest |
| `AlertEpisodes.SelectsOldest` | src/modules/alerts/compose.ts:46-51 | the selection loop's answer is such a sort, so it is the hundred oldest |
| `AlertEpisodes.OldestFirst` | src/modules/alerts/compose.ts:46-70 | after a digest, whatever was scanned between selection and link, no alert left out and still unsent was opened before one it holds |
| `AlertEpisodes.BacklogCleared` | src/modules/alerts/compose.ts:42-72 | a backlog is cleared by exactly as many undisturbed digests as it has hundreds, and then no more are queued |
| `AlertEpisodes.BacklogDrains` | src/modules/alerts/compose.ts:46-72 | while no scan commits the backlog falls by a hundred a digest, whichever composers find the lock taken or roll back |
| `AlertEpisodes.AlertTable.SyncKind` | src/modules/alerts/scan.ts:103-124 | the resolving and opening loops, and the two counts returned |
| `AlertEpisodes.GoneCounts` | src/modules/alerts/scan.ts:103-124 | the resolved count is the number of open alerts of the kind that were not found |
| `AlertEpisodes.AlertTable.SelectPending` | src/modules/alerts/compose.ts:46-51 | the query: unsent rows sorted by opening time, the first hundred of them |
| `AlertEpisodes.AlertTable.ComposeDigest` | src/modules/alerts/compose.ts:42-72 | no recipients, lock taken, nothing unsent, or the hundred oldest selected, queued and linked: outcome and table of each |
| `SessionCache.RememberGets` | src/modules/auth/session-cache.ts:41-48 | remembering stores the entry, loses at most the first-inserted key, and changes nothing else |
| `SessionCache.RememberOrder` | src/modules/auth/session-cache.ts:41-48 | a refresh does not move a key; a full map drops its oldest key and appends |
| `SessionCache.AlwaysBounded` | src/modules/auth/session-cache.ts:41-48 | neither map ever exceeds 5000 entries |
| `SessionCache.HoldsLatest` | src/modules/auth/session-cache.ts:24-93 | whatever a map holds is the latest remember of its key, not revoked since |
| `SessionCache.LookupSound` | src/modules/auth/session-cache.ts:27-35 | a hit answers the latest remember, made less than 15 seconds before |
| `SessionCache.LatestIs` | src/modules/auth/session-cache.ts:24-93 | the latest remember is an event of the history with no matching remember, forget or clear after it |
| `SessionCache.NoneIsRevoked` | src/modules/auth/session-cache.ts:24-93 | and when there is none every remember of the key has been revoked since |
| `SessionCache.LookupExact` | src/modules/auth/session-cache.ts:27-35 | with fewer than 5000 remembers of the map since the key was last inserted, and a clock that does not go back, a lookup hits exactly when it should |
| `SessionCache.ForgottenUser` | src/modules/auth/session-cache.ts:84-87 | after forgetting a user neither map holds an entry of theirs |
| `SessionCache.Cache.KnownValidSessionWorkspace` | src/modules/auth/session-cache.ts:27-35 | lookup with expiry |
| `SessionCache.Cache.RememberValidSession` | src/modules/auth/session-cache.ts:41-48 | remember with eviction |
| `SessionCache.Cache.ForgetSession` | src/modules/auth/session-cache.ts:51-53 | deletes one session |
| `SessionCache.Cache.CachedClerkIdentity` | src/modules/auth/session-cache.ts:62-70 | lookup with expiry in the identity map |
| `SessionCache.Cache.RememberClerkIdentity` | src/modules/auth/session-cache.ts:72-78 | remember with eviction in the identity map |
| `SessionCache.Cache.ForgetUserSessions` | src/modules/auth/session-cache.ts:84-87 | deletes every entry of a user from both maps |
| `SessionCache.DropUser` | src/modules/auth/session-cache.ts:85-86 | the deleting walk over one map |
| `SessionCache.Cache.ClearSessionCache` | src/modules/auth/session-cache.ts:90-93 | empties both maps |
| `BusinessTime.MonthLengths` | src/modules/business-time.ts:110-116 | the lengths of the twelve months and the Gregorian leap years |
| `BusinessTime.Epoch` | src/modules/business-time.ts:110-116 | day numbers are those of the Unix clock, 719162 days on |
| `BusinessTime.NextDayCounts` | src/modules/business-time.ts:110-116 | the calendar's next date has the next day number |
| `BusinessTime.CountsInOrder` | src/modules/business-time.ts:110-116 | day numbers follow calendar order |
| `BusinessTime.Bijection` | src/modules/business-time.ts:110-116 | dates and day numbers are in bijection |
| `BusinessTime.AddDaysAdds` | src/modules/business-time.ts:110-116 | adding days is an additive action on dates |
| `BusinessTime.AddOneDay` | src/modules/business-time.ts:110-116 | adding one day is the calendar's next date |
| `BusinessTime.DaysPartitionTime` | src/modules/business-time.ts:71-95 | an instant is dated d if and only if it lies between the start and the end of d |
| `BusinessTime.DaysAbut` | src/modules/business-time.ts:86-89 | consecutive business days abut and last 24 hours |
| `BusinessTime.DayRangeContains` | src/modules/business-time.ts:97-101 | the day range of an instant contains it |
| `BusinessTime.MonthIsItsDays` | src/modules/business-time.ts:103-108 | a month range is exactly the instants dated in that month |
| `Attendance.PairDtrEntries` | src/modules/ems/attendance-shared.ts:92-134 | the two passes over rows and entries return `Paired` |
| `Attendance.Collect` | src/modules/ems/attendance-shared.ts:96-115 | the collecting pass |
| `Attendance.PairingMeans` | src/modules/ems/attendance-shared.ts:82-134 | time-ordered punches pair into one entry per employee and day with the earliest TIME_IN, the latest TIME_OUT, rounded minutes and the stated status |
| `Attendance.GateDisciplines` | src/modules/ems/attendance-shared.ts:174-207 | every log of the gate has at most one TIME_IN and one TIME_OUT per employee and day, the TIME_OUT after the TIME_IN |
| `Attendance.GatedPairing` | src/modules/ems/attendance-shared.ts:92-207 | pairing such a log never shows a TIME_OUT alone, and minutes lie between 0 and 1440 |
| `Attendance.TodayIsDay` | src/modules/ems/attendance-shared.ts:185-198 | the gate's window is exactly the punches of the business day of now |
| `Attendance.GateAnswers` | src/modules/ems/attendance-shared.ts:142-234 | the gate admits a punch exactly when photo, employee and upload are in order and the day asks for its kind, and otherwise says why |
| `Attendance.AttendanceTable.RecordPunch` | src/modules/ems/attendance-shared.ts:142-234 | the gate and the insert, with each refusal |
| `Attendance.AttendanceTable.Todays` | src/modules/ems/attendance-shared.ts:185-198 | the two flags of the day |
| `LineArithmetic.MultiplyRoundedMeans` | src/modules/customer-orders/validation.ts:29-49 | for non-negative factors the result is the half-up rounding of the exact product, exact when no digits are dropped |
| `LineArithmetic.MultiplyRoundedMonotone` | src/modules/customer-orders/validation.ts:29-49 | the rounded product is monotone in each factor |
| `LineArithmetic.HalfUpUnique` | src/modules/customer-orders/validation.ts:46-48 | there is one half-up rounding |
| `LineArithmetic.NegativeRounding` | src/modules/customer-orders/validation.ts:46-48 | for a negative product the rounding is half-up exactly when at most half a unit is dropped |
| `LineArithmetic.ResolveLineMeans` | src/modules/customer-orders/validation.ts:222-282 | a checked line resolves exactly when its job, factor, exactness and discount allow, and its row is then exact |
| `LineArithmetic.ResolveMeans` | src/modules/customer-orders/validation.ts:86-287 | resolution succeeds exactly on acceptable requests; rows are in order, exact, never negative, and satisfy every row check |
| `LineArithmetic.BaseUnitRejected` | src/modules/customer-orders/validation.ts:189-199 | a unit called base is never accepted |
| `LineArithmetic.FirstFault` | src/modules/customer-orders/validation.ts:99-165 | the first pass: the first fault of the first faulty line |
| `LineArithmetic.LineFaults` | src/modules/customer-orders/validation.ts:99-165 | what a line is refused for by itself, and when it is not |
| `LineArithmetic.FirstFaultMeans` | src/modules/customer-orders/validation.ts:99-165 | the first faulty line gives its fault to the request |
| `LineArithmetic.FactorMeans` | src/modules/customer-orders/validation.ts:189-199 | the factor of a unit, and none for the name base or what ends in it |
| `LineArithmetic.JobMeans` | src/modules/customer-orders/validation.ts:222-250 | each refusal of a job order, and when it is accepted |
| `LineArithmetic.ResolveLineRefused` | src/modules/customer-orders/validation.ts:222-282 | a checked line is refused for its job order, then its unit, then a negative total |
| `LineArithmetic.ResolveRefused` | src/modules/customer-orders/validation.ts:86-287 | the passes in their order: size, lines, items, units |
| `LineArithmetic.ResolveLines` | src/modules/customer-orders/validation.ts:220-284 | the last pass, stopping at the first error |
| `LineArithmetic.ResolveAndValidateLines` | src/modules/customer-orders/validation.ts:86-287 | all passes: the result of `Resolve` |
| `Decimal.RoundTrip` | src/modules/stock/decimal.ts:17-50 | every value is read back from its own text at every scale up to 12 |
| `Decimal.NormalizedOnce` | src/modules/stock/decimal.ts:52-54 | a normalized text is its own normal form and has the value of the text it came from |
| `Decimal.NormalFormsDecide` | src/modules/stock/decimal.ts:52-54 | two texts have the same normal form exactly when they are the same number |
| `Decimal.ReadsWritten` | src/modules/stock/decimal.ts:17-40 | every sign, digits and fraction is read at scales up to twelve that hold its digits, as exactly that number |
| `Decimal.OnlyWritten` | src/modules/stock/decimal.ts:22-24 | and no other text is |
| `Decimal.WritesSign` | src/modules/stock/decimal.ts:42-50 | only a negative value is written with a sign |
| `Decimal.ParseExact` | src/modules/stock/decimal.ts:17-40 | reading never rounds: the value is exactly the decimal written |
| `CommercialTerms.EveryTable` | src/modules/commercial-terms/routes.ts:118-212 | no reachable table holds two overlapping terms of a listing and rate, nor an inverted range |
| `CommercialTerms.VersionCountsEnds` | src/modules/commercial-terms/routes.ts:118-212 | a term starts at version 1 and its version counts the end steps it has been through |
| `CommercialTerms.CoveredOnce` | src/modules/commercial-terms/service.ts:44-58 | a date is covered by one term at most |
| `CommercialTerms.LookupIsFunction` | src/modules/commercial-terms/service.ts:44-58 | the lookup gives that term's percent whatever order the rows come back in |
| `CommercialTerms.CreateAnswers` | src/modules/commercial-terms/routes.ts:134-165 | a create answers with the new term inside its range and as before everywhere else |
| `CommercialTerms.CreateFailsIff` | src/modules/commercial-terms/routes.ts:118-166 | each refusal of a create, the overlap exactly when a term of the listing and rate shares a day |
| `CommercialTerms.SnapshotsMean` | src/modules/commercial-terms/service.ts:75-95 | commission and marketing are the percents of the base and the marketing term in force, or the legacy rate of a listing without terms |
| `CommercialTerms.CreateChangesSnapshots` | src/modules/commercial-terms/service.ts:75-95 | outside its range a create changes no snapshot exactly when the listing had a term or no legacy rate |
| `CommercialTerms.EndAnswers` | src/modules/commercial-terms/routes.ts:176-205 | an end step changes the answers between the old and the new last day and no others |
| `CommercialTerms.ShorteningIsSafe` | src/modules/commercial-terms/routes.ts:189-205 | shortening a term changes no answer up to its new end |
| `CommercialTerms.EndFailsIff` | src/modules/commercial-terms/routes.ts:189-205 | an end step breaks the constraint exactly when it lengthens a term into another |
| `CommercialTerms.EndRefused` | src/modules/commercial-terms/routes.ts:176-195 | the other refusals of an end step |
| `CommercialTerms.EndCanLengthen` | src/modules/commercial-terms/routes.ts:189-205 | an end step can lengthen a term and fill days that had no answer |
| `CommercialTerms.TermTable.PostTerm` | src/modules/commercial-terms/routes.ts:118-166 | the create step with each refusal |
| `CommercialTerms.TermTable.PatchEnd` | src/modules/commercial-terms/routes.ts:176-205 | the end step with each refusal |

## Left out

- StockSafe: holds under the hypothesis that no committed cancel overtakes a fulfilment of its own order; without it the property is false, as `CancelRace.CancelOvertakesFulfil` shows.
- LookupExact: says nothing once 5000 remembers of a map have followed the key's insertion, when the entry may have been evicted (`RememberGets` says which is), nor of a clock that goes back.
- GatedPairing: takes each row's captured time to be the instant the gate read, and a clock that does not go back; the database fills that column itself.
- NormalizedOnce: text is taken as already trimmed, and as text rather than a floating-point number.
- MomentumMeans: over exact reals, before the reported figures are rounded.
- DaysPartitionTime: for zones a fixed number of whole minutes ahead of UTC; daylight-saving transitions are not modelled.
- Authorization, feature flags, outlet scope, customers, audit rows and the listing queries.
- The candidate query of lot selection and the warehouse, expiry and status filters in it: its answer is an input, each balance row once and of the item asked for.
- NextDayCounts: the calendar is that of years from 1 on, here and in the other statements of `BusinessTime`; `Date.UTC` (src/modules/business-time.ts:66, 79, 114) reads years 0 to 99 as 1900 to 1999, so the code agrees with it from year 100 on.
- Stock movements of other modules in `FulfilmentProtocol`, apart from receipts and the keys they take; withdrawals of others are in `AllocationLocks`.
- CancelRace.PostingNeverShort: takes the reserved column of a balance row to be zero, as do `CancelRace.PostingAccepted` and `OrderService.OrderTables.Post`; a posting must leave at least that much (src/modules/stock/posting-service.ts:682), and no code of the repository ever writes anything but its default of zero.
- OrderService.OrderTables.Post: the reserved column is zero, as above; who may post, feature switches and topology checks are not modelled; the outcome of the route, item, unit and lot checks is an input, and `details` names what the request hash covers beside the plan.
- FulfilmentInvariant.AcceptedPosting: `details` is compared as one value; the canonical JSON and its SHA-256 are not modelled.
- OrderService.OrderTables.CreateDraft: the customer, location and authorization checks before the insert are not modelled.
- AllocationLocks.EveryRun: a posting of released rows is a withdrawal like those of other modules; that it can happen is what `CancelRace.CancelOvertakesFulfil` shows.
- AllocateCommits.DrawIffEnough: assumes that different sources share no balance row; `AllocateIff` needs no such assumption.
- AlertDelivery.FailedMeansUndelivered: given a provider that emails a row id once and whose replies say truly what became of the request; only answers that never arrive are in doubt.
- AlertDelivery.Outbox.Deliver: asks for the outbox invariant, which every run keeps (`AlertDelivery.EveryRun`).
- AlertEpisodes.SelectsOldest: alerts opened at the same instant are taken in table order; `FirstIsOldest` covers every other order of ties.
- Document rows are named by module and number, so a compensating delete may also remove a document that a later prepare recreated; the code deletes by row id and can do less.
- Deadlocks between lines of one order: locks are sorted within one selection only.
- The candidate list of `AllocationLocks` may be any list of distinct rows.
- Metadata after the first JPEG scan, WebP feature flags, data-URI parsing and signed links.
- Profit status, signals and wording of the brand verdict; the SQL aggregation behind the month series.
- Rendering and recipients of alert emails, the queries behind findings, and the test email. Scans of one kind are taken one after the other.
- How long the email provider remembers a row id.
- Date text, and the parsing of the timezone and day-start settings.
- Photo storage and audit of attendance; an employee row lock is one atomic step.
- Listing and authorization of commercial terms.
