# LightFee: the close of a position, the entry planner, and the recovery of a journal

LightFee opens a position with two legs, long on one venue and short on another, and closes it again with
reduce-only orders that may fill, fill in part, be refused, or leave their outcome unknown. This project models the parts
of the engine where a mistake costs money, and proves what they keep over whole runs:

- **The close** (`exchange.dfy`, `close_accounting.dfy`, `close_evidence.dfy`, `close_records.dfy`,
  `reconciliation_queue.dfy`, `close_state.dfy`, `close_chunks.dfy`, `close_submission.dfy`, `close_compensation.dfy`,
  `close_origins.dfy`, `close_account.dfy`, `close_position.dfy`, `close_theorems.dfy`, `position_lifecycle.dfy`). The venues are an object whose methods may answer
  anything their contract allows: any error, any fill, positions that shrink between two looks, probes that fail. It keeps
  a trail of every order, probe and reconciliation, and the theorems relate the trail to what the engine has on record. A
  close accounts for every order it sends, on every path; it never loses an acknowledged fill or an unresolved order;
  every leg on record came of an order of its own, and when two legs are of one order is stated exactly; a leg is
  submitted under one client id until that id was reconciled, and every order follows from the one before it; a close
  ends as the answers of the venues make it end; a compensation trades only against what is live, sends at most eight
  orders a leg, and returns only with the venues flat, on current evidence, or fails closed; a close that reaches its end
  is billed exactly when its evidence is complete, else registered in the journal for reconciliation.
- **The entry planner** (`execution_planner.dfy`, `quantity_step.dfy`): the split between maker and hedge is found exactly when
  there is one, and the common quantity step is the least common multiple of the steps.
- **The journal** (`journal_reader.dfy`, `journal_merge.dfy`, `recovery_fold.dfy`): the backward block reader, the budgeted merge of
  rotations, and the fold that decides which residual exposures are settled and which positions closed, each equal to a
  plain specification.
- **Selections, sessions and suppression** (`tracked_selection.dfy`, `session_runtime.dfy`, `universe_selection.dfy`,
  `liquidity_qualification.dfy`): stable primaries, the sessions held after any run of calls, an order-independent choice
  of the most liquid symbols, and suppression windows as a function of the trace of results.
- `domain.dfy` and `ordering.dfy` hold shared values, sorting and text order.

Floats are `real`, the tolerances 1e-9 and 1e-12 are named constants, ids are values of a datatype in which the client ids of the engine are
determined by position and stage.

## What the code does not keep

Behaviours a reader may not expect, kept as they are, each under its exact condition and most with a concrete input:

- A duplicate client id is "clear" when the position probe fails with an exception whose text is empty, whatever the
  venue holds: `ClearIsSoundExactly`, `SilentProbeFailureClearsLivePosition`
  (lightfee/engine/order_truth_ledger.py:454-553, lightfee/engine/bybit_duplicate_reconcile.py:104-109).
- A retry after a partly filled duplicate asks for target minus reconciled, which leaves exposure exactly when the position
  was larger than that, also when the position is not known: `RetryFlattensExactly`, `StalePartialRetryLeavesExposure`,
  `BlindRetryLeavesExposure`. The claims of flatness of a compensation are therefore proved on the condition `Fresh`, which
  reads only the answers of lookup and probe, and is exactly the evidence on which the decision is right: `FreshExactly`.
  Only the reconciliations of the compensation itself have to meet it.
- A compensation forgets the orders whose adapter raised an exception outside the submit error type and that named no
  accepted order: `CompensationKeepsExactly`, `TimeoutIsForgotten`, `ForgottenExactly`
  (lightfee/engine/close_executor.py:57-70). The close itself keeps them.
- A duplicate that is retried is dropped: the quantity it was reconciled with is in no leg, exactly when the ledger wants a
  retry and an attempt is left: `SubmitCloseLegWithRetry` (by `ReconciledKept`), `RetryDropsReconciledQuantity`. A final
  bill misses nothing else: `FinalBillMissesOnlySuperseded`.
- A retry may ask for more than its chunk, the notional cap, or a partial request: after a lookup that found the order
  before it filled in full, the ledger asks for all that is live. Some order of a close exceeds the size of its chunks if
  and only if one was sent after such a lookup with that much live: `OrdersExceedChunksExactly`, `RetryExceedsExactly`; an
  order for 5, 5 found, 45 live, and a retry for 45: `StaleFullRetryAsksForAllLive`
  (lightfee/engine/close_executor.py:1966-1982).
- One order may be booked on two legs. The client id of a retry names position, leg and attempt, but not the chunk
  (lightfee/engine/close_executor.py:1974-1979), so two chunks can send it. Two legs of a close are of one order if and
  only if a later chunk sent the id of a retry again and both orders settled the leg: `OneOrderOnTwoLegsExactly`. 6 on
  record where 3 have gone: `OneOrderIsBookedTwice`. No client id names the close either, so the legs of two closes of a
  position may be of one order: `OneOrderInTwoClosesExactly`, `SecondCloseBooksTheFirst`. What is on record is at most
  what was acknowledged and looked up, which counts such an order twice: `EveryQuantityIsCredited`.
- A refused short leg ends the close without registering anything, also what earlier chunks and attempts left. An
  unresolved order is left unregistered if and only if the short leg was refused and some order is unresolved:
  `LeftUnregisteredExactly`; the short leg is refused exactly when the last order was its order and was answered by a
  rejection that is neither a duplicate nor settled as flat, or when it has no adapter: `EndsAs` in `ExecuteClose`. An
  input: `RefusedChunkLosesEvidence`.
- Registration always reaches the journal, but not always the queue: a pending reconciliation of the same position and kind
  is replaced, or the new one is dropped. What stays pending of either is stated exactly:
  `RegistrationHeldExactly`, `EarlierRegistrationHeldExactly`, `OneItemHoldsForBothExactly`; two partial closes that lose
  order identities: `SecondPartialCloseErasesFirst`, `SecondPartialCloseIsDropped` (lightfee/engine/state.py:1496-1577).
- Closing the legs in different calls leaves a position open although both of its legs are gone:
  `DroppedExactlyWhenMatchedPartwise`, `LegByLegCloseKeepsPositionOpen` (lightfee/engine/close_executor.py:1453-1456).
- The running net holds the captured funding once per part, where one close of all legs holds it once:
  `CompletePartsRealizeOneClose`.
- The planner divides by the chunk: it fails exactly in the case `PlanIncrementalEntryExecution` states for
  `DivisionByZero`.
- Skipping a rotation by its modification time loses records exactly when it holds some of the window:
  `SkippingIsHarmlessExactly`.
- An opened position is reported closed when any position of its key or on its symbol ended, before it was opened too:
  `SummarizeResiduals`, `EarlierEndClosesLaterPosition`, `ReopenedKeyIsReportedClosed`
  (scripts/diagnose_live.py:3466-3472).
- The sticky pairs are meant to be the recent primaries; they are the 64 greatest names of all that were ever primary:
  `StickyIsTopOfMarked`, `KeptExactly`, `NewestPrimaryIsNotKept` (lightfee/engine/entry_local_l2.py:493-502).
- The legs of a closed session are handed out like those of any other: `ClosedPairIsHandedOut`.
- The minimum notional fallback of chunk planning never changes the number of chunks: `MinNotionalNeverChangesCount`.
- Probes granted under suppression keep their interval if and only if the last result of the pair is an escalation; missing
  data after it lifts the limit while the pair stays suppressed: `ProbesKeepEveryIntervalExactly`,
  `MissingDataLiftsTheProbeLimit` (lightfee/engine/entry_liquidity_qualification.py:120-142).

## Model

| member | source | states |
|---|---|---|
| Exchange.ClearMeansSeenFlat | lightfee/engine/order_truth_ledger.py:454-553 | a duplicate client id is cleared exactly when the probe saw no position, or failed without a text |
| Exchange.ClearIsSoundExactly | lightfee/engine/order_truth_ledger.py:454-553 | clear implies a flat venue for every truthful probe, if and only if the probe is not a failure without a text |
| Exchange.SilentProbeFailureClearsLivePosition | lightfee/engine/bybit_duplicate_reconcile.py:104-109 | a live position of 5 that is cleared as flat |
| Exchange.RetryFlattensExactly | lightfee/engine/order_truth_ledger.py:454-553 | whatever the probe answered: filling the retry quantity flattens the position if and only if the old order was filled in full, or the position is within target minus reconciled |
| Exchange.FreshExactly | lightfee/engine/order_truth_ledger.py:454-553 | the condition on lookup and probe under which, for every position a truthful probe allows, clear means flat and a retry asks for all that is live; exactly that |
| Exchange.StalePartialRetryLeavesExposure | lightfee/engine/close_executor.py:2436-2469 | a duplicate whose retry fills completely and leaves 4 open |
| Exchange.BlindRetryLeavesExposure | lightfee/engine/close_executor.py:2436-2469 | a probe that fails with a text, a retry for 6, and 4 of 10 left open |
| Exchange.ForgottenExactly | lightfee/engine/close_executor.py:57-70 | which orders may have executed and are not treated as unresolved: those of a compensation whose adapter failed outside the submit error type, naming no order |
| Exchange.Venues.PlaceOrder | lightfee/engine/close_executor.py:1629-1771 | the contract of an adapter: any answer, reduce-only orders only shrink positions, a reported fill did execute |
| Exchange.Venues.FetchPosition | lightfee/engine/close_executor.py:2354-2362 | a probe is truthful or fails, and is recorded; positions may shrink meanwhile |
| Exchange.Venues.ReconcileDuplicate | lightfee/engine/bybit_duplicate_reconcile.py:82-123 | the ledger's answer is that of the recorded lookup and a truthful probe |
| CloseAccounting.SumConcat | lightfee/engine/close_executor.py:327-385 | sums over legs add up under concatenation |
| CloseAccounting.PricePnlIsVwapForm | lightfee/engine/close_executor.py:327-385 | the leg-by-leg price PnL is (vwap - entry) times quantity on the long leg, reversed on the short leg |
| CloseAccounting.CloseExecutionIsAdditive | lightfee/engine/close_executor.py:327-385 | closing in two parts realizes the PnL and fees of the joined legs; only funding is counted per part |
| CloseAccounting.AttributionChargesEntryFees | lightfee/engine/close_executor.py:2563-2582 | the attributed net is the execution net less exactly the entry fees |
| CloseAccounting.NoGapsMeansCompleteEvidence | lightfee/engine/close_executor.py:618-676 | no gap is reported if and only if nothing is unresolved, the entry is known, and every counted fill has a price and a fee |
| CloseAccounting.ResidualTaskSettlesWriteback | lightfee/engine/close_executor.py:393-436 | what the write-back keeps as matched exceeds the balance by exactly the residual task, and filling it on its venue and side settles both legs |
| CloseRecords.PlaceholdersCloseNothing | lightfee/engine/close_executor.py:720-788 | records added for unresolved orders change no closed quantity |
| CloseRecords.LegRecordsAddUp | lightfee/engine/close_executor.py:702-717 | the records of the legs add up to the counted fills |
| CloseRecords.RegisteredQuantityIsFilledQuantity | lightfee/engine/close_executor.py:791-876 | a registered reconciliation closes what the fills closed |
| CloseState.AppendIdentities | lightfee/engine/close_executor.py:734-770 | every unresolved identity is answered for, by order id or else client id, and no order id is repeated |
| CloseState.AppendUnresolvedSubmissions | lightfee/engine/close_executor.py:720-788 | so is every unresolved client id; only placeholders are added, for nothing else |
| CloseState.RegisterReconciliation | lightfee/engine/close_executor.py:791-876 | one reconciliation is journalled, with the records, quantities, snapshot and finality of this close, and enqueued as the queue takes it |
| CloseState.EngineState.EnqueueReconciliation | lightfee/engine/state.py:1496-1577 | the queue of the state after enqueuing |
| CloseState.BucketsShareRealized | lightfee/engine/close_executor.py:1457-1475 | each realized sum goes to at most the one bucket its reason names |
| ReconciliationQueue.Enqueue | lightfee/engine/state.py:1496-1577 | the loop over the pending items: append and cap, replace in place, or leave |
| ReconciliationQueue.EnqueuedExactlyIfAccepted | lightfee/engine/state.py:1496-1577 | an item is pending afterwards if and only if no item of its position and kind was pending, that one gives way, or it was pending already |
| ReconciliationQueue.EarlierItemStaysExactly | lightfee/engine/state.py:1565-1577 | an earlier item stays if and only if it does not give way and is not the oldest of a full queue |
| ReconciliationQueue.OneItemHoldsForBothExactly | lightfee/engine/state.py:1502-1572 | one item holds for both closes; it has the order identities of both if and only if those of the one that goes are among those of the one that stays |
| ReconciliationQueue.EnqueuedKeepsOneItemPerOwner | lightfee/engine/state.py:1496-1577 | there is never a second item of a position and kind |
| ReconciliationQueue.RegistrationReplacesExactly | lightfee/engine/state.py:1521-1568 | when a registered close replaces a pending one: not terminal, no leg weaker, and other identities, a stronger mode or a weaker debt |
| ReconciliationQueue.RegistrationHeldExactly | lightfee/engine/state.py:1496-1577 | the identities of a registered close are pending afterwards if and only if it is taken up or they were pending already |
| ReconciliationQueue.EarlierRegistrationHeldExactly | lightfee/engine/state.py:1496-1577 | those of an earlier close stay pending if and only if it is not displaced or the new one has them too |
| ReconciliationQueue.SecondPartialCloseErasesFirst | lightfee/engine/state.py:1556-1571 | two partial closes with one unresolved order each: the identity of the first is erased |
| ReconciliationQueue.SecondPartialCloseIsDropped | lightfee/engine/state.py:1525-1572 | a second partial close with fewer unresolved orders is never enqueued |
| CloseChunks.CeilIsLeastFitting | lightfee/engine/close_executor.py:547-549 | the planned count is the least number of equal chunks within the cap |
| CloseChunks.MinNotionalNeverChangesCount | lightfee/engine/close_executor.py:551-566 | fewer chunks always exceed the cap, and the cap check restores the count |
| CloseChunks.ComputeCloseChunks | lightfee/engine/close_executor.py:511-577 | chunks are equal, add up to the total, respect the cap on both legs, and are the fewest that do |
| CloseChunks.FillChunks | lightfee/engine/close_executor.py:568-577 | the chunk loop hands out exactly the total |
| CloseSubmission.SubmitCloseLeg | lightfee/engine/close_executor.py:1629-1771 | one order, whose positive fill is the result, whose identity is the result when it is unresolved, and whose rejection is the outcome exactly when it was rejected |
| CloseSubmission.ResolveDuplicateRejection | lightfee/engine/close_executor.py:1814-2004 | a duplicate client id asks, under a new id that counts the attempts, for exactly what remains but no more than was seen live, if and only if the ledger wants a retry and an attempt is left; else it settles the leg as the ledger decided, with the reconciled quantity as fill |
| CloseSubmission.ResolveRejection | lightfee/engine/close_executor.py:2006-2073 | another rejection counts as closed if and only if the venue says so or was just seen flat, is retried exactly for a pending order with attempts left, and else stays a rejection |
| CloseSubmission.SubmitAndJudge | lightfee/engine/close_executor.py:1805-2088 | one attempt either ends the leg as its answer means, or leaves everything the loop promises with another attempt due, whose request repeats the last or asks for the rest of it |
| CloseSubmission.SubmitCloseLegWithRetry | lightfee/engine/close_executor.py:1772-2095 | the first order is the request; each later one repeats the one before it, or asks for exactly the rest of it under a new id once its id was reconciled; every unresolved attempt is remembered, also superseded ones; only the last order may settle the leg, exactly when the leg has a positive fill, which came of it; every outcome is the judgement of the last order, and what becomes of every reconciliation is exact |
| CloseSubmission.ChainIsIdempotent | lightfee/engine/close_executor.py:1772-1800 | along such a chain every order is the first request again, with its client id, until an id was reconciled |
| CloseSubmission.RetryExceedsExactly | lightfee/engine/order_truth_ledger.py:454-553 | the ledger wants a retry for more than the order before it asked for, or any larger quantity, if and only if the lookup found that order filled in full and the probe saw more live |
| CloseSubmission.StaleFullRetryAsksForAllLive | lightfee/engine/close_executor.py:1966-1982 | target 5, found 5, live 45: the next order asks for 45 |
| CloseSubmission.LastReconciliation | lightfee/engine/close_executor.py:1938-2004 | a reconciliation ends the leg with its quantity, or is superseded by the next request |
| CloseSubmission.RetryDropsReconciledQuantity | lightfee/engine/close_executor.py:1966-1982 | 4 of an order for 10 are reconciled, the retry for 6 fills, and every result the leg may report holds 6 |
| CloseEvidence.EvidenceCompose | lightfee/engine/close_executor.py:276-283 | joined outcomes account for the orders of both steps, and hold nothing that did not happen |
| CloseCompensation.StepsCompose | lightfee/engine/close_executor.py:2312-2484 | two steps on a venue are one: orders add up, legs are joined and keep an order of their own each, no evidence is lost, what was flat stays flat |
| CloseCompensation.OrderPlaced | lightfee/engine/close_executor.py:2340-2374 | the outcome of one order holds its fill, or its identity when it is unresolved |
| CloseCompensation.CompensationKeepsExactly | lightfee/engine/close_executor.py:2364-2374 | the identity of an order that may have executed is kept if and only if the adapter failed within the submit error type or named an accepted order; else nothing of it is kept |
| CloseCompensation.TimeoutIsForgotten | lightfee/engine/close_executor.py:2366-2374 | a timeout outside the submit error type leaves no trace of an order for 5 |
| CloseCompensation.Submit | lightfee/engine/close_executor.py:2364-2374 | places one order against the live position and adds what came of it |
| CloseCompensation.AdoptDuplicate | lightfee/engine/close_executor.py:2375-2435 | what the lookup of the order just sent finds is kept, as a leg that came of that order; on current evidence clear means flat, and the retry covers the position |
| CloseCompensation.SettleDuplicate | lightfee/engine/close_executor.py:2375-2469 | a duplicate is settled with at most one more order, and flat is claimed only when it is so on current evidence |
| CloseCompensation.CompensateCloseLegExposure | lightfee/engine/close_executor.py:2312-2484 | the first order is for the whole quantity; at most two orders; evidence kept; flatness sound |
| CloseCompensation.Reprobe | lightfee/engine/close_executor.py:2510-2524 | the next attempt still covers the position, on the side that reduces it, also when the probe fails |
| CloseCompensation.FlattenCloseLegWithRetries | lightfee/engine/close_executor.py:2486-2526 | at most six orders; it gives up only after three attempts |
| CloseCompensation.HardStopCloseLeg | lightfee/engine/close_executor.py:2528-2555 | one last order for exactly what the recorded new probe saw, none when it saw flat or failed |
| CloseCompensation.MergeJoins | lightfee/engine/close_executor.py:276-283 | merging outcomes keeps every leg and every known identity of both |
| CloseCompensation.RetainedOncePerKey | lightfee/engine/close_executor.py:2134-2160 | legs are appended once per key, and no leg or key is lost |
| CloseCompensation.RetainedAtMostOnce | lightfee/engine/close_executor.py:2134-2160 | retaining adds at most the quantity of the legs it is given |
| CloseCompensation.RetainOutcome | lightfee/engine/close_executor.py:2134-2165 | the ledger of the leg has every fill and unresolved order of the compensation, and gains nothing else; each leg it gains came of an order of its own |
| CloseCompensation.CompensateVenue | lightfee/engine/close_executor.py:2167-2296 | as the recorded first probe obliges: nothing to do when flat, fail when it failed, else an order for all that is live and no giving up before three; at most eight orders, all against the live position; a return means flat on current evidence |
| CloseCompensation.FailedForAReason | lightfee/engine/close_executor.py:2175-2290 | a venue is given up only after a failed probe or three orders |
| CloseCompensation.SecondVenueStep | lightfee/engine/close_executor.py:2167-2310 | work on the second venue undoes nothing on the first |
| CloseCompensation.CompensateFailedFullClose | lightfee/engine/close_executor.py:2101-2310 | a return means every reachable venue is flat on current evidence; else a venue was given up for a reason and the engine fails closed; positions never grow or change sign; every order and reconciled quantity is on record, every new leg came of an order of its own, and no client id is sent twice |
| CloseOrigins.DistinctAfterLeg | lightfee/engine/close_executor.py:1042-1054 | a leg under a new chunk number shares a client id with an earlier order a leg came of only through its retries, and then another leg was begun between them |
| CloseOrigins.DistinctAfterCompensation | lightfee/engine/close_executor.py:2312-2484 | the orders of a compensation share no client id with any order before them, nor among each other |
| CloseOrigins.AttributedAfterLeg | lightfee/engine/close_executor.py:1073-1093 | after a leg, every leg on record still came of an order of its own that settled it, and every order that settled the leg has one |
| CloseOrigins.OnTwoLegsExactly | lightfee/engine/close_executor.py:1974-1979 | however the legs are said to come of orders: two came of orders under one client id if and only if a later leg sent the id of a retry again and both orders settled the leg |
| CloseAccount.RegistrationCoversUnresolved | lightfee/engine/close_executor.py:720-876 | every unresolved order of a run has a registered record on its venue, by order id or else client id |
| CloseAccount.AccountedAfterLeg | lightfee/engine/close_executor.py:1042-1308 | submitting a leg keeps the account: every order and reconciliation is on record, nothing is on record without an order of its own, and one order is on two legs only where a retry id was sent again |
| CloseAccount.AccountedAfterCompensation | lightfee/engine/close_executor.py:2101-2310 | a compensation keeps the account as well |
| CloseAccount.JudgementStays | lightfee/engine/close_executor.py:1806-2073 | what settled a leg keeps settling it, and what was not refused never becomes refused |
| ClosePosition.CloseExecutor.RecordLeg | lightfee/engine/close_executor.py:1073-1093 | a fill becomes a leg, an unresolved identity is retained once, doubt is never withdrawn |
| ClosePosition.CloseExecutor.SubmitLeg | lightfee/engine/close_executor.py:1060-1121 | buys on the short venue or sells on the long venue the quantity of the chunk, each further order following from the one before it, is judged by its last order, and accounts for it |
| ClosePosition.CloseExecutor.SubmitChunk | lightfee/engine/close_executor.py:1042-1308 | refused exactly when the last order was refused for the short leg; compensated, for a close with a reason, exactly when the last order of the close leaves a leg unsettled; else both legs were sent and, with a reason, settled; no other orders than those of the chunk and what follows from them |
| ClosePosition.CloseExecutor.RunChunks | lightfee/engine/close_executor.py:1042-1308 | the same for the whole loop: how it ends is decided by the recorded answers; when it ends in order, both legs of every chunk were sent and settled; every order opens a leg of a chunk or follows from the one before it |
| ClosePosition.CloseExecutor.WritebackToState | lightfee/engine/close_executor.py:1424-1559 | new quantities, sums and buckets, the pending close, the partial close event, the dust pause, and removal exactly when the matched quantity is used up |
| ClosePosition.CloseExecutor.PersistTruthGap | lightfee/engine/close_executor.py:1003-1040 | a failed compensation still journals every unresolved order |
| ClosePosition.CloseExecutor.EmitBill | lightfee/engine/close_executor.py:1385-1420 | a bill, with the closed quantities and the attributed net, exactly when something was closed and no gap is left |
| ClosePosition.CloseExecutor.FinishClose | lightfee/engine/close_executor.py:1310-1420 | exactly one of billed and registered in the journal, by the completeness of the evidence; the bill, the quantities, sums, buckets and pause of the position, its pending close, the residual task and the open positions are as the legs on record make them |
| ClosePosition.CloseExecutor.ExecuteClose | lightfee/engine/close_executor.py:907-1422 | on every path: all orders and reconciliations accounted for, only reducing; the chunk plan carried out on both legs or ended as the recorded answers make it end, with no order but those of the plan and what follows from them; the outcome, the position, the state, the queue and the contents of the bill follow from the records of the run |
| CloseTheorems.BilledExactlyOnCleanRecord | lightfee/engine/close_executor.py:1310-1336 | final if and only if the evidence has no gap; a final bill leaves no order unresolved; a run without unresolved orders and reconciliations leaves no doubt |
| CloseTheorems.LegsAreWhatVenuesReported | lightfee/engine/close_executor.py:1073-1093 | every reported fill is among the legs of its side, and every leg came of an order of its own |
| CloseTheorems.FinalBillMissesOnlySuperseded | lightfee/engine/close_executor.py:1966-1982 | behind a final bill, every reconciled quantity is among the legs unless a retry under a new client id superseded it |
| CloseTheorems.EveryQuantityIsCredited | lightfee/engine/close_executor.py:1073-1093 | what is on record for a venue is at most what it acknowledged plus what was found there for duplicates; without duplicates, at most what has gone from the position |
| CloseTheorems.OneOrderOnTwoLegsExactly | lightfee/engine/close_executor.py:1974-1979 | two legs of a close are of one order if and only if a later chunk sent the client id of a retry again and both orders settled the leg; where venues honor client ids, the later one was turned down as a duplicate and looked up |
| CloseTheorems.OneOrderIsBookedTwice | lightfee/engine/close_executor.py:1974-1979 | two chunks of 5 whose retries share a client id: order 7 is on two short legs, 6 on record where 3 have gone |
| CloseTheorems.OneOrderInTwoClosesExactly | lightfee/engine/close_executor.py:1042-1054 | the legs of two closes hold one order if and only if an order of each settled the leg under one client id |
| CloseTheorems.SecondCloseBooksTheFirst | lightfee/engine/close_executor.py:1042-1054 | the first order of a second close is a duplicate of the first close, and its leg counts as filled by it |
| CloseTheorems.OrdersExceedChunksExactly | lightfee/engine/close_executor.py:1966-1982 | some order of a close asks for more than the size of its chunks, or any larger quantity, if and only if one was sent after the order before it was found filled in full with more than that live |
| CloseTheorems.LeftUnregisteredExactly | lightfee/engine/close_executor.py:1122-1149 | an unresolved order is left unregistered if and only if the short leg was refused and some order is unresolved |
| CloseTheorems.RefusedChunkLosesEvidence | lightfee/engine/close_executor.py:1122-1149 | two chunks, the first order unresolved, the second chunk refused: the order is registered nowhere |
| PositionLifecycle.OpenedFeesAreAttributed | lightfee/engine/entry.py:248-258 | a new position charges each fill's fee in proportion, the smaller fill's in full, and starts at minus those fees |
| PositionLifecycle.OpenedPositionIsMatched | lightfee/engine/entry.py:224-235 | after any run of closes, the matched quantity of an opened position covers both legs |
| PositionLifecycle.MatchedAlwaysCoversLegs | lightfee/engine/close_executor.py:1453-1456 | however asymmetric the fills are, a position is dropped only with both legs below the tolerance |
| PositionLifecycle.FinishedCloseIsAPart | lightfee/engine/close_executor.py:1541-1545 | every finished close is one part of such a run, and touches no other open position |
| PositionLifecycle.RunQuantities | lightfee/engine/close_executor.py:1453-1456 | the quantities after any run, in closed form |
| PositionLifecycle.DroppedExactlyWhenMatchedPartwise | lightfee/engine/close_executor.py:1453-1456 | the position is dropped if and only if its parts matched its quantity within themselves; its legs are gone under a weaker condition |
| PositionLifecycle.LegByLegCloseKeepsPositionOpen | lightfee/engine/close_executor.py:1541-1545 | two closes, one leg each, that leave a position open without legs |
| PositionLifecycle.CompletePartsRealizeOneClose | lightfee/engine/close_executor.py:1457-1476 | realized PnL and fees of any run with complete evidence are those of one close with all legs; the running net adds funding per part |
| PositionLifecycle.IncompletePartsRealizeNothing | lightfee/engine/close_executor.py:1453-1476 | without complete evidence nothing is realized while quantities decrease |
| PositionLifecycle.RunningNetOfALife | lightfee/engine/close_executor.py:2563-2582 | from entry to exit the running net is the attributed net of one close, plus the funding of every further part |
| ExecutionPlanner.AlignmentIsTight | lightfee/engine/execution_planner.py:64-82 | rounding gives the greatest multiple that fits and the least that suffices |
| ExecutionPlanner.HedgeableChunkMeetsMinimums | lightfee/engine/execution_planner.py:111-132 | a hedgeable chunk meets minimum quantity and notional |
| ExecutionPlanner.HedgeableChunkIsLeast | lightfee/engine/execution_planner.py:111-132 | the chunk is the least quantity on the step that meets both minimums |
| ExecutionPlanner.ClipIsGridOrTooLarge | lightfee/engine/execution_planner.py:149-166 | a minimum clip is a number of chunks within the target, or exceeds the target |
| ExecutionPlanner.FitHedgeIsExact | lightfee/engine/execution_planner.py:256-327 | the hedge branch finds a split if and only if there is one, keeps the first slice if it is one, else gives the largest |
| ExecutionPlanner.SplitMeetsNotionals | lightfee/engine/execution_planner.py:149-166 | both parts of a split meet their minimum notionals |
| ExecutionPlanner.AlignTarget | lightfee/engine/execution_planner.py:195-214 | the target in whole chunks and its first slice |
| ExecutionPlanner.PlanSplit | lightfee/engine/execution_planner.py:256-338 | from the first slice: passive with a split if there is one, else fall back with the slice |
| ExecutionPlanner.PlanIncrementalEntryExecution | lightfee/engine/execution_planner.py:169-338 | route, reason and initial quantity for every input: each rejection and fallback under its exact condition, the passive route exactly when no maker test fires and a split exists, and the one input family that divides by zero |
| QuantityStep.LcmDividesCommonMultiples | lightfee/engine/execution_planner.py:96-108 | the least common multiple divides every common multiple |
| QuantityStep.CommonExecutableQuantityStep | lightfee/engine/execution_planner.py:85-108 | without steps, or with an unusable one, zero; else the common step of all |
| QuantityStep.CommonStepIsLeast | lightfee/engine/execution_planner.py:85-108 | the common step is on every step and no smaller positive quantity is |
| QuantityStep.CommonStepIsUnique | lightfee/engine/execution_planner.py:85-108 | so the order of the steps does not matter |
| JournalReader.SplitExtends | scripts/diagnose_live.py:156-162 | splitting a file at a block boundary and rejoining the held-back line gives the lines of the whole |
| JournalReader.ReadBlock | scripts/diagnose_live.py:156-172 | one block keeps the invariant of the backward reader |
| JournalReader.ReadFromTail | scripts/diagnose_live.py:138-174 | for every file and block size, the records of the whole file split at newlines, last first |
| JournalReader.SplitInvertsWritten | scripts/diagnose_live.py:138-174 | splitting inverts writing lines with newlines |
| JournalReader.TailOfWrittenJournal | scripts/diagnose_live.py:138-174 | an append-only journal is read back newest first |
| JournalMerge.SortIsStable | scripts/diagnose_live.py:287-301 | the sort orders by time and keeps the order of records of the same time |
| JournalMerge.DistinctHasNoRepeats | scripts/diagnose_live.py:287-298 | one record is left of every identity, and every identity is left |
| JournalMerge.DeduplicateAndSort | scripts/diagnose_live.py:287-301 | the loop keeps the first record of each identity, sorted by time |
| JournalMerge.DeduplicateAndSortIsIdempotent | scripts/diagnose_live.py:287-301 | doing it again changes nothing |
| JournalMerge.ReadRecord | scripts/diagnose_live.py:218-242 | one record against window, identity and budget |
| JournalMerge.CollectRecentEvents | scripts/diagnose_live.py:177-251 | the first records of the window over the rotations that are read, distinct and in order of time; capped if and only if there were more |
| JournalMerge.SkippingIsHarmlessExactly | scripts/diagnose_live.py:209-215 | skipping rotations by modification time loses nothing if and only if none of them holds a record of the window |
| RecoveryFold.Collect | scripts/diagnose_live.py:3404-3466 | the fold holds the last order of every role for every key |
| RecoveryFold.CloseKey | scripts/diagnose_live.py:3476-3519 | comparing last orders decides the declarative closure |
| RecoveryFold.SummarizeResiduals | scripts/diagnose_live.py:3391-3536 | a residual is closed if and only if it was completed since its last marker, or is a retry marker with no unsettled repair whose position ended since; an opened position is closed if and only if some position ended under its key or on the last symbol its openings name; closed and unclosed partition both |
| RecoveryFold.UnrelatedEventsNeverMatter | scripts/diagnose_live.py:3430-3435 | events of other positions, also on the same symbol, change nothing about a key |
| RecoveryFold.RepairsNeedACompletion | scripts/diagnose_live.py:3490-3519 | the end of a position never settles real repair work |
| RecoveryFold.NewMarkerReopens | scripts/diagnose_live.py:3424-3452 | a new last marker opens the key again |
| RecoveryFold.EndedKeyStaysClosed | scripts/diagnose_live.py:3466-3472 | an opened key that ended once is reported closed whatever follows |
| RecoveryFold.ReopenedKeyIsReportedClosed | scripts/diagnose_live.py:3466-3472 | also when it was opened again after all else |
| RecoveryFold.EarlierEndClosesLaterPosition | scripts/diagnose_live.py:3466-3472 | a position opened at 2 is reported closed by another one on its symbol that ended at 1 |
| LiquidityQualification.QualificationState.constructor | lightfee/engine/entry_liquidity_qualification.py:36-59 | loads records, the last of a key winning, unnamed ones dropped |
| LiquidityQualification.QualificationState.RecordResult | lightfee/engine/entry_liquidity_qualification.py:61-99 | the new window of the key, others untouched |
| LiquidityQualification.QualificationState.ShouldProbe | lightfee/engine/entry_liquidity_qualification.py:120-142 | grants and notes a probe |
| LiquidityQualification.QualificationState.CurrentClass | lightfee/engine/entry_liquidity_qualification.py:101-118 | structural exactly while suppression has not ended |
| LiquidityQualification.QualificationState.ToRecords | lightfee/engine/entry_liquidity_qualification.py:165-179 | every window once, in order |
| LiquidityQualification.SuppressionTrace | lightfee/engine/entry_liquidity_qualification.py:61-99 | failures count the failing results since the last eligible one, and suppression ends where the last escalation since then put it |
| LiquidityQualification.LastClassTrace | lightfee/engine/entry_liquidity_qualification.py:61-99 | the class on record is structural if and only if the last result is an escalation |
| LiquidityQualification.LastProbeTrace | lightfee/engine/entry_liquidity_qualification.py:120-142 | the probe time on record is that of the last probe granted under an escalation, unless an eligible or structural result followed |
| LiquidityQualification.SuppressedExactlyUntilEnd | lightfee/engine/entry_liquidity_qualification.py:101-118 | structural if and only if that end is not past |
| LiquidityQualification.OtherKeysDoNotMatter | lightfee/engine/entry_liquidity_qualification.py:181-187 | calls for other keys change nothing |
| LiquidityQualification.ProbesKeepTheirDistance | lightfee/engine/entry_liquidity_qualification.py:120-142 | while the last result is the escalation, probes granted under suppression with no result between them are at least the interval apart |
| LiquidityQualification.ProbesKeepEveryIntervalExactly | lightfee/engine/entry_liquidity_qualification.py:120-142 | for a suppressed pair, granted probes keep every interval if and only if the last result is an escalation |
| LiquidityQualification.MissingDataLiftsTheProbeLimit | lightfee/engine/entry_liquidity_qualification.py:127-135 | two probes one apart, both granted while suppressed, after missing data |
| LiquidityQualification.RoundTrip | lightfee/engine/entry_liquidity_qualification.py:36-59 | saving the windows of any run and loading them in any order keeps exactly the named keys, unchanged |
| TrackedSelection.KeepSlots | lightfee/engine/entry_local_l2.py:560-565 | held candidates keep slots in window order, up to the count |
| TrackedSelection.FillSlots | lightfee/engine/entry_local_l2.py:566-569 | the slots left go to the others by rank |
| TrackedSelection.SelectTracked | lightfee/engine/entry_local_l2.py:532-589 | the window in its order, each candidate primary if and only if its seniority is within the count |
| TrackedSelection.SelectionFillsSlots | lightfee/engine/entry_local_l2.py:560-569 | exactly the smaller of count and window size are primary |
| TrackedSelection.HeldStayExactlyIfTheyFit | lightfee/engine/entry_local_l2.py:560-569 | no earlier primary in the window is demoted if and only if they fit the slots |
| TrackedSelection.SelectionIsStable | lightfee/engine/entry_local_l2.py:541-546 | reordering the window, with the last primaries held, changes no candidate's class |
| SessionRuntime.PairReadyExactly | lightfee/engine/entry_local_l2.py:224-398 | both legs of a session are ready if and only if the books last applied were executable then and are not too old now; nothing seen before matters |
| SessionRuntime.EntrySessions.MarkSticky | lightfee/engine/entry_local_l2.py:493-502 | the 64 greatest of the sticky pairs and the new one are kept |
| SessionRuntime.EntrySessions.CloseMissing | lightfee/engine/entry_local_l2.py:504-510 | exactly the sessions that are neither active nor sticky go, the others are untouched |
| SessionRuntime.EntrySessions.RefreshReadiness | lightfee/engine/runtime.py:11202-11220 | every leg takes its book and every session its state, closed ones keep theirs |
| SessionRuntime.EntrySessions.ReadyPairLegs | lightfee/engine/entry_local_l2.py:458-486 | the legs of the pair if and only if all legs of its session are ready and both are there for the symbol |
| SessionRuntime.TopGrows | lightfee/engine/entry_local_l2.py:493-502 | keeping the greatest of the kept and a new one keeps the greatest of all |
| SessionRuntime.StickyIsTopOfMarked | lightfee/engine/entry_local_l2.py:493-502 | after any run, the sticky pairs are the 64 greatest names of all pairs that were ever marked |
| SessionRuntime.KeptExactly | lightfee/engine/entry_local_l2.py:493-502 | a marked pair is sticky if and only if fewer than 64 greater names were marked |
| SessionRuntime.NewestPrimaryIsNotKept | lightfee/engine/entry_local_l2.py:493-502 | with 64 greater names kept, a new primary is dropped at once |
| SessionRuntime.SessionHeldExactly | lightfee/engine/entry_local_l2.py:504-510 | after any run, a pair has a session if and only if it was tracked, and in scope or sticky whenever the missing were closed since |
| SessionRuntime.SessionsAreBounded | lightfee/engine/entry_local_l2.py:504-510 | right after the missing are closed, at most 64 sessions are held beside those in scope |
| SessionRuntime.ClosedExactly | lightfee/engine/entry_local_l2.py:155-165 | after any run, a session is closed if and only if it was closed since it was begun: tracking and refreshing never open it |
| SessionRuntime.ClosedPairIsHandedOut | lightfee/engine/entry_local_l2.py:458-486 | a closed session with good books is handed out |
| UniverseSelection.SelectDailyUniverse | lightfee/config/universe.py:215-286 | the head of the one ranking of all scored symbols, the source without pairs, or an error without usable pairs |
| UniverseSelection.BestIsIt | lightfee/config/universe.py:246-276 | the score kept for a symbol is the highest over its qualifying pairs |
| UniverseSelection.EveryQualifierIsScored | lightfee/config/universe.py:267-276 | with floors that are not negative every qualifying symbol is scored |
| UniverseSelection.SelectionIsTop | lightfee/config/universe.py:281-286 | the chosen are in strict order and outrank every scored symbol that was not chosen |
| UniverseSelection.SelectionIgnoresOrder | lightfee/config/universe.py:215-286 | the order of pairs and of source symbols does not matter |

## Left out

- Floating point: NaN, infinities and rounding; a missing or non-finite fee, number or timestamp is `None`.
- One symbol is traded; a fill is taken to be on the venue of its request; the hash behind client ids is not modelled, two ids of the engine are
  equal exactly when position and stage are.
- Text classification of exchange errors is a set of flags of the error; which text sets which flag is not modelled.
- The reconciliation call itself does not raise; its lookup and probe may fail.
- Delays, backoff, concurrency of tasks: the calls of one close are sequential.
- CloseCompensation.CompensateFailedFullClose: flatness is stated on current evidence (`Fresh`), for the reasons under "What the code does not keep".
- CloseState.RegisterReconciliation: its item in the queue carries what decides about replacement (owner, order identities, mode, debts, snapshot facts); attempt counters and fields copied for display are left out.
- ClosePosition.CloseExecutor.WritebackToState: of the pending close, the order ids copied for display are left out.
- CloseTheorems.EveryQuantityIsCredited: an upper bound; equality fails where the code drops a leg with the key of another, keeps a fill of at most 1e-12 as an unresolved order, or drops what a superseded reconciliation found.
- CloseTheorems.OneOrderInTwoClosesExactly: a caller may name the orders of a close by other stages (`short_stage`, `long_stage`); the model has the stages `execute_close` is called with by default.
- Journal events about single chunks, order-id lists and attempt counters.
- Residual repairs hold the tasks of closes, keyed by position.
- `execute_single_side_protection`, the minimum notional violation checks, `build_entry_orders` and the entry state machine: easy members.
- SessionRuntime.EntrySessions.RefreshReadiness: sessions are values of a map, so nobody holds on to one that is dropped; reasons for arming, fault details and diagnostics, `remove_session` and the tracking of pending entries without a class are left out.
- ExecutionPlanner.HedgeableChunkIsLeast: the two exceptions of the function are one `None`.
- QuantityStep.CommonExecutableQuantityStep: takes fractions; reading a float as a fraction within a denominator limit is left out, as are the wrapper `plan_entry_execution` and the floor table of venues.
- JournalReader.ReadFromTail: decoding one line is an abstract partial function; read errors in the middle of a file are left out.
- RecoveryFold.SummarizeResiduals: the kinds of event are those that matter to the summary, the rest is one kind.
- LiquidityQualification.QualificationState.ToRecords: keys are in canonical case; numbers in records are integers.
- UniverseSelection.SelectDailyUniverse: rows come keyed by canonical venue and symbol; case beyond ASCII, persistence, fallback and caching of the chosen universe are left out.
