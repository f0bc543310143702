# Verified models of the b1nary backend

This project models the parts of the backend whose correctness is hard to see from one function: the protocols
that must survive crashes and failing calls, and the arithmetic and parsing they rest on. Everything that lives
outside the process (RPC calls, transactions, database writes, clocks) is an arbitrary choice of the environment:
a write may be applied, refused, or applied although the call raises; a transaction may be confirmed, fail, or land
although the call raises; a process may die between any two of these. What decides an outcome (the answers to calls,
whether everything goes well) is given to a method as a parameter, so its contract says what it makes of it.

## The models

**Bridge relayer** (`BridgeMachine`, `BridgeSafety`, `BridgeRelayer`, `Cctp`). `BridgeMachine` is the persisted job
row, the two facts on the destination chain (minted, finalized) and the worker's position, with one step per
external call or write. `BridgeSafety` proves what every run keeps and which interrupted jobs recovery completes.
`BridgeRelayer.Worker` is the program's own code over a mutable row, proved to be a run of that machine.
`Cctp` is the amount parser the Arc branch uses. The model assumes one worker per job at a time.

**Expiry settlement** (`Settlement`, `ExpirySettler`). Rows, their two work queries and the marks a cycle writes are
values; `ExpirySettler.Settler` is the cycle over two stores that fail independently. A row is called tainted once a
mark did not reach it or a redeem landed although its call raised. The invariant says what holds for every row and
what holds for untainted ones; a cycle that runs to its end gives every selected row one outcome. In an environment
that is `reliable` (every mark lands, a redeem that raises was not applied, and the process does not die between a
redeem and its mark) no row is ever tainted.

**Indexers** (`EventIndexer`, `SolanaIndexer`, `DeliveryMatching`). The polling indexer's cursor over block ranges,
for order events and delivery events together; the order_events table, whose rows delivery events claim without a
vault id; and the paged history of the Solana indexer while new entries arrive between pages. Gap-freedom of the block
indexer needs logs in block order and one order event per transaction; both are shown to be exactly what is needed
(`EventIndexer.NoGapIffInBlockOrder`, `DeliveryMatching.StoresAllIff`).

**Capital reconciliation** (`CapitalReconcile`, `CapitalConservation`). One reconcile run as a class over the two
tables. Other writers, including other reconcile runs, may act between any two database calls as long as they keep
keys, amounts, collateral and a destination transaction that is already set. `CapitalConservation` relates the
capital created to the collateral of the events used.

**Pyth accumulator updates** (`PythAccumulator`, `PythVaa`, `Bytes`). The length-prefixed parser with Python's
truncating slices and its single check at the end, trimming of guardian signatures, and the packing of the posting
instruction.

**Yield** (`YieldSharing`, `YieldEstimates`, `YieldAirdrop`, `Arithmetic`). Time-weighted shares, fees, dust,
estimates, and the token movements of one distribution. The program divides in floating point and cuts with `int()`;
here a share is the exact quotient rounded down. A fee above 100% is not modelled.

**Settlement amounts** (`SettlementAmounts`), **wheel detection** (`Wheels`), **rate limiting** (`RateLimiter`),
**strikes** (`Strikes`) and **expiries** (`Expiries`). Underlyings have at least 8 decimals, as every configured one
has (below that the program leaves the integers). Prices and premiums are exact reals where the program uses floats,
so a strike is a whole multiple of the step. Instants are whole microseconds.

## Where a promise does not hold as stated

- Recovery does not complete every interrupted job. If the process dies after a mint (or an Arc finalize) and before
  the row update, the call is made again, the contract refuses it, and the job never completes although its funds arrived:
  `BridgeSafety.CrashAfterMintStrands`, `CrashAfterFinalizeStrands`. `RecoveryCompletesIff` is the exact condition.
- A Base or Solana job that failed after its attestation was stored must not be enqueued again: replaying it reports a
  mint that never happened. `BridgeSafety.ReplayIsSafeIff` is the exact condition, `UnsafeJobIsReachable` a run that
  produces such a job. The program's recovery never selects one.
- A traded Base or Solana job can end failed, if the write that completes it raises although it applied
  (`BridgeSafety.TradedJobCanEndFailed`); only finalized Arc deposits are protected.
- "Assign rounding dust to largest allocation" (`src/yield_tracking/calculator.py:100`): the code adds the dust to the
  first allocation. `YieldSharing.DustGoesToLargestIff` says when that is a largest one, `DustGoesToFirst` is an input
  where it is not.
- Fee plus allocations is the harvested yield only when nothing was distributable or some position's exact share
  reaches one unit (`YieldSharing.YieldIsConservedIff`); `YieldCanStayUnpaid` are inputs where nothing is paid out.
- After a settlement cycle the rows selected again at the same clock are not only those skipped for lack of a price:
  rows of a batch that stayed unsettled are selected again too (`Settlement.SelectedAgainIff`);
  `ExpirySettler.RefusedBatchIsSelectedAgain` is such a cycle.
- Two deployed intents that name one transaction are both rotated with its whole collateral
  (`CapitalConservation.SharedFillDoublesCapital`); capital equals the collateral of the events used exactly when that
  does not happen.
- A CCTP net amount is never negative except when a short message is combined with a negative fallback
  (`Cctp.NetIsNegativeIff`).
- Trimming a VAA that was cut short behind the kept signatures yields a complete one (`PythVaa.TrimmedIsCompleteIff`).

## Model

| member | source | states |
|---|---|---|
| BridgeSafety.EveryRunIsSafe | src/bridge/relayer.py:75-283 | in every state of every run from a new row, whatever crashes and fails: a job past its mint has its hash and its mint, a reservation is never minted, receive is called only without a mint hash, finalize only with one and never once a finalize hash exists; a Base or Solana job ends mint-completed only without a signed trade, and completed only with one and its trade hash; an Arc deposit completes only finalized, and its amounts are those of the attested message and balance |
| BridgeSafety.ProgressIsKept | src/bridge/relayer.py:75-283 | between any two states of a run the rank never falls, the mint hash never changes and is never minted again, the burn, amount and trade of a job that was broadcast stay, and a finalized Arc deposit is neither called again nor demoted |
| BridgeSafety.EveryRecordIsAnAnswer | src/bridge/relayer.py:75-446 | over every such run, the mint, trade and finalize hashes and the attestation on the row were returned by a confirmed receive, submission and finalize and by a poll of that run |
| BridgeSafety.FailureIsRecorded | src/bridge/relayer.py:238-283 | the handler completes a finalized Arc deposit, marks a job that was trading mint-completed-trade-failed, and any other one failed |
| BridgeSafety.TradeIsRetried | src/bridge/relayer.py:286-335 | a trade is given up only when every configured attempt raised |
| BridgeSafety.TradedJobCanEndFailed | src/bridge/relayer.py:222-283 | a traded job whose last write applied although it raised ends failed |
| BridgeSafety.RecoveryCompletesIff | src/bridge/relayer.py:75-283 | a job interrupted anywhere and selected by recovery completes in one processing of a cooperative environment, with its trade submitted and recorded if it holds a signed one, exactly when its row knows of every call that landed; otherwise no run ever marks it completed, as the contracts refuse a second receive or finalize |
| BridgeSafety.BroadcastReservationCompletes | src/bridge/routes.py:173-179 | a reservation is left alone until its burn is broadcast, and then completes with the burn, amount and trade of the broadcast |
| BridgeSafety.StrandedStays | src/bridge/relayer.py:598-621 | a job whose mint or finalize landed unrecorded is never completed again by anything the relayer does |
| BridgeSafety.CrashAfterMintStrands | src/bridge/relayer.py:166-197 | dying between the mint and its row update leaves such a job, and recovery goes on selecting it |
| BridgeSafety.CrashAfterFinalizeStrands | src/bridge/relayer.py:419-439 | the same between an Arc deposit's finalize and its row update |
| BridgeSafety.ReplayIsSafeIff | src/bridge/relayer.py:119-236 | enqueueing a job keeps "past the mint means minted" for all answers exactly when it is not a Base or Solana job that failed between attestation and mint (with a signed trade and no attempts configured it fails again at once) |
| BridgeSafety.UnsafeJobIsReachable | src/bridge/relayer.py:238-283 | a run that ends in a job for which that fails |
| BridgeSafety.ProcessingIsRun | src/bridge/relayer.py:75-118 | a processing is a run of the machine, and an allowed one exactly when the job is safe to replay |
| BridgeSafety.RunKeepsInv | src/bridge/relayer.py:75-451 | the invariant holds after every allowed run |
| BridgeMachine.StepKeepsInv | src/bridge/relayer.py:75-451 | every single step keeps the invariant and never undoes a recorded fact |
| BridgeMachine.RecoveryIsSafe | src/bridge/relayer.py:598-621 | every job that recovery selects and every new job is safe to hand to a worker |
| BridgeRelayer.Worker.ProcessBridgeJob | src/bridge/relayer.py:75-283 | the program's processing, cut off after any answer, leaves the row and the chain where the machine's run under the same answers is, and keeps the invariant |
| BridgeRelayer.Worker.Process | src/bridge/relayer.py:80-118 | the part before the try block follows the machine, including the early exits |
| BridgeRelayer.Worker.Attempt | src/bridge/relayer.py:119-236 | the try block follows the machine and reports a failure exactly where the handler takes over |
| BridgeRelayer.Worker.Attest | src/bridge/relayer.py:120-145 | polling and storing the attestation follow the machine |
| BridgeRelayer.Worker.MintAndTrade | src/bridge/relayer.py:166-218 | minting is attempted exactly from the three early states, and follows the machine |
| BridgeRelayer.Worker.Trade | src/bridge/relayer.py:201-236 | a job without a signed trade ends mint-completed, another one completed, as in the machine |
| BridgeRelayer.Worker.SubmitAndRecord | src/bridge/relayer.py:220-236 | submitting the trade and recording its hash follow the machine |
| BridgeRelayer.Worker.SubmitWithRetry | src/bridge/relayer.py:286-335 | the retry loop follows the machine: it ends with the hash of the first confirmed submission, in the handler after the configured number of refused ones, or with the process |
| BridgeRelayer.Worker.HandleException | src/bridge/relayer.py:238-283 | the handler re-reads the row and preserves a finalized Arc deposit, as the machine does |
| BridgeRelayer.Worker.ProcessArcDeposit | src/bridge/relayer.py:338-446 | the Arc branch follows the machine from its three entry conditions |
| BridgeRelayer.Worker.ReceiveDeposit | src/bridge/relayer.py:371-402 | receive and its row update follow the machine |
| BridgeRelayer.Worker.FinalizeArc | src/bridge/relayer.py:404-446 | intent lookup, finalize and its row update follow the machine |
| BridgeRelayer.Worker.UpdateJob | src/bridge/relayer.py:44-54 | a row update is applied or refused, and raises unless it was applied cleanly |
| Cctp.ParseBurnAmounts | src/bridge/cctp.py:49-74 | accepted amounts satisfy gross = fee + net with a fee that is not negative |
| Cctp.ParseOfEncoding | src/bridge/cctp.py:49-74 | parsing an encoded burn message returns the amounts put in, a zero gross amount being replaced by the fallback, and refuses exactly a malformed fallback then, or a fee above the gross amount |
| Cctp.NetIsNegativeIff | src/bridge/cctp.py:49-74 | when a net amount is negative |
| ExpirySettler.Settler.SettleOnce | src/bots/expiry_settler.py:794-1071 | whatever fails and wherever the cycle stops, the invariant holds, other rows stand still, and every redeem went to a selected, settled vault with a maker whose final price is below a put's strike or above a call's; a finished cycle gives every selected row one outcome and converges; every price that can be set for the selected expiries is final; vaults found settled at the start are carried on as observed; the cycle stops at a batch exactly if some row is left, and never if all batches are confirmed |
| ExpirySettler.Settler.RunCycles | src/bots/expiry_settler.py:794-1071 | over any number of cycles, with rows arriving in between, a row marked settled is settled on chain; every redeem was sent to a settled vault with a maker whose final price is below a put's strike or above a call's; no untainted vault was redeemed twice, and in a reliable environment none at all |
| ExpirySettler.CycleConcludes | src/bots/expiry_settler.py:834-1071 | phase by phase facts combine into one outcome per selected row, with the marks and redeems it stands for |
| ExpirySettler.CycleConverges | src/bots/expiry_settler.py:50-98 | the next cycle at the same clock selects exactly the unfinished rows among the untainted ones |
| ExpirySettler.OutcomeIsDecided | src/bots/expiry_settler.py:922-1071 | which outcome a row carried into phase 2 gets, on the columns: skipped without a final price that can be read, out of the money with a put's price not below or a call's not above the strike, delivered with the strict opposite, a maker and a confirmed attempt, and then with the hash of the first one |
| ExpirySettler.RowTellsOutcome | src/bots/expiry_settler.py:930-1071 | the columns of an untainted row after a finished cycle, for each outcome: settled, moneyness, final price, settlement type and delivery hash |
| ExpirySettler.RedeemedPutWithinStrikeValue | src/bots/expiry_settler.py:193-225 | every put a redeem was sent for costs at most its strike value, at any price that is not negative |
| ExpirySettler.UnsettledIsSelectedAgain | src/bots/expiry_settler.py:849-901 | a row whose vault is still unsettled on chain is left and selected again, price or no price |
| ExpirySettler.RefusedBatchIsSelectedAgain | src/bots/expiry_settler.py:849-901 | a cycle with a refused batch after which that is so |
| ExpirySettler.GivesUpIff | src/bots/expiry_settler.py:475-547 | retrying gives up exactly when none of the configured attempts would be confirmed, and then all of them were made; otherwise it ends with the first confirmed one |
| ExpirySettler.Settler.Reconcile | src/bots/expiry_settler.py:550-610 | the two result lists partition the positions, the second holds exactly those settled on chain whose read succeeds, and exactly these are marked |
| ExpirySettler.Settler.EnsureExpiryPrices | src/bots/expiry_settler.py:395-470 | a final price stays; every other feed of the expiries that can be checked and set becomes the asset's price, and no other one appears but those that others made final |
| ExpirySettler.Settler.MarkBatchSettled | src/bots/expiry_settler.py:1088-1126 | every row of the batch, or every row up to where the process died, carries its mark unless it became tainted, which a reliable environment never does |
| ExpirySettler.Settler.SettleBatch | src/bots/expiry_settler.py:849-901 | what one batch reports done is settled on chain even when the transaction raised, and the loop is ended exactly if part of the batch is not |
| ExpirySettler.Settler.SettleBatches | src/bots/expiry_settler.py:849-901 | over all batches: everything carried on is settled on chain, each key once, and nothing is missing unless the loop was ended |
| ExpirySettler.Settler.IdentifyItm | src/bots/expiry_settler.py:101-167 | on the columns: the in-the-money list is exactly the positions with a final price that can be read, below the strike for a put and above it for a call; the skipped set is exactly those without one |
| ExpirySettler.Settler.RedeemWithRetry | src/bots/expiry_settler.py:475-547 | the result is the first confirmed attempt among the configured number; transactions are sent, redeems land and the vault is tainted exactly as the answers to the attempts made say |
| ExpirySettler.Settler.DeliverAll | src/bots/expiry_settler.py:930-1030 | each in-the-money position gets the delivery result its attempts gave, and its row and redeem count match it |
| ExpirySettler.Settler.MarkOtm | src/bots/expiry_settler.py:1032-1071 | exactly the positions that are neither in the money nor skipped, or those of them before the process died, are marked out of the money with the price read |
| ExpirySettler.Settler.RunPhase2 | src/bots/expiry_settler.py:922-1071 | a phase 2 that ends has classified what it was given into in the money, skipped and out of the money, each with the row and redeem count of its kind; one that dies keeps the invariant and sent only to its own positions |
| ExpirySettler.Settler.Collect | src/bots/expiry_settler.py:796-832 | the positions to settle and the recovery seed are disjoint and together exactly the selected rows |
| ExpirySettler.Settler.SettlePhase | src/bots/expiry_settler.py:796-912 | everything carried into phase 2 is settled on chain, appears once and may be delivered |
| ExpirySettler.Settler.DeliverPhase | src/bots/expiry_settler.py:922-1071 | phase 2 sends only to carried positions and ends in one outcome each |
| ExpirySettler.Settler.GetExpiredUnsettled | src/bots/expiry_settler.py:50-69 | exactly the unsettled, expired, complete rows, each once |
| ExpirySettler.Settler.GetPendingPhase2 | src/bots/expiry_settler.py:72-98 | exactly the settled rows that still await delivery, each once |
| Settlement.SelectedAgainIff | src/bots/expiry_settler.py:50-98 | for every row and outcome, when the two queries select the row again at the same clock |
| Settlement.SkippedIsSelectedAgainIff | src/bots/expiry_settler.py:72-98 | a skipped row no earlier cycle classified is selected again exactly if it names a market maker |
| EventIndexer.Indexer.IndexOnce | src/bots/event_indexer.py:528-642 | one polling cycle keeps every order at or below the cursor stored and every delivery handled, never moves the cursor back, past a failing event or past the confirmed head, and when calm moves it as far as the range and the failures allow; a calm re-scan covers its range as stated for it |
| EventIndexer.Indexer.Poll | src/bots/event_indexer.py:528-642 | over any number of cycles and any chain growth, every order event after the start and up to the cursor is stored; every delivery event up to it is recorded on a row of its user and oToken, or all matching positions opened between the start and it have a delivery; no row or recorded delivery is lost and no transaction is recorded twice for a user and oToken; and the last cycle re-scanned the blocks around the cursor it began with |
| EventIndexer.Indexer.CatchUp | src/bots/event_indexer.py:528-642 | cycles at one head while the chain grows: if nothing goes wrong up to the confirmed head, the cursor is at that head exactly when there were ceil(gap / 2000) of them |
| EventIndexer.Indexer.ForwardPass | src/bots/event_indexer.py:528-607 | the same for the forward pass alone, with order and delivery failures of the range combined |
| EventIndexer.Indexer.Rescan | src/bots/event_indexer.py:610-642 | in the range re-scanned, also below the start, every order below the first failing one is stored and every delivery below the first failing one is on a row or finds none left |
| EventIndexer.Indexer.FetchAndStoreOrderEvents | src/bots/event_indexer.py:365-413 | stores exactly the events before the first failure and reports the lowest failing block; one that raises has stored them or nothing |
| EventIndexer.Indexer.FetchDeliveryEvents | src/bots/event_indexer.py:435-482 | marks the rows of exactly the delivery events before the first failure, or of a first part of them when it raises, and reports the lowest failing block |
| EventIndexer.NoGapIffInBlockOrder | src/bots/event_indexer.py:365-413 | stopping at the lowest failed block leaves no gap, whatever fails, exactly when the logs come in block order |
| EventIndexer.BlockOrderHasNoGap | src/bots/event_indexer.py:365-413 | logs in block order leave no gap |
| EventIndexer.OutOfOrderLosesAnEvent | src/bots/event_indexer.py:365-413 | in any log list out of order, the failure that loses an event |
| EventIndexer.ReachesHeadIff | src/bots/event_indexer.py:528-607 | the arithmetic of CatchUp: where the cursor is after any number of full passes, and that ceil(gap / 2000) of them are needed and enough |
| EventIndexer.CoveredBelowFailure | src/bots/event_indexer.py:528-607 | after the store every event below the target is in the database |
| EventIndexer.HandledBelowFailure | src/bots/event_indexer.py:435-482 | after the marking every delivery event below the target is handled |
| DeliveryMatching.StoresAllIff | src/bots/event_indexer.py:236-269 | one upsert stores every event of its list exactly when no two different ones share a transaction |
| DeliveryMatching.OrderEvents.UpdateDeliveryEvents | src/bots/event_indexer.py:272-343 | the rows are those of handling the events in order up to the point where it was cut off, each handled one being on a row or finding none left; the count is the number of newly marked rows, and at most one short when the last update landed and raised |
| DeliveryMatching.OrderEvents.FindCandidate | src/bots/event_indexer.py:305-324 | the unmarked row with the lowest vault id, if there is one |
| DeliveryMatching.EveryEventIsDelivered | src/bots/event_indexer.py:272-343 | every event handled has a row of its user and oToken with its transaction, or every row of them has a delivery |
| DeliveryMatching.MarkAllAssigns | src/bots/event_indexer.py:305-343 | a new delivery on a row is that of an event for its user and oToken, and no position with a lower vault id was passed over |
| DeliveryMatching.DeliveredAreCounted | src/bots/event_indexer.py:272-343 | the delivered rows of a user and oToken grow by the number of transactions not yet recorded for them, as far as there are rows |
| DeliveryMatching.MarkAllKeeps | src/bots/event_indexer.py:272-343 | no claimed row is overwritten, no transaction claims two rows of a user and oToken, and every handled event is absorbed |
| DeliveryMatching.ReplayIsHarmless | src/bots/event_indexer.py:272-343 | handling any of the events again, in any order and number, changes nothing |
| DeliveryMatching.ResumeAfterCrash | src/bots/event_indexer.py:272-343 | cut off anywhere and repeated from the start, the rows are those of one full pass |
| SolanaIndexer.Indexer.CollectCandidates | src/bots/solana_event_indexer.py:87-116 | for any page boundaries and entries arriving while paging, exactly the accepted entries newer than the cursor as of the first page, newest first (without a cursor: up to the first one before the day) |
| SolanaIndexer.Indexer.ReadPage | src/bots/solana_event_indexer.py:95-114 | one page extends the collected list by its stretch of history, or ends it with the whole result |
| SolanaIndexer.Indexer.ScanPage | src/bots/solana_event_indexer.py:100-110 | the accepted entries of a page up to the first one that is too old |
| SolanaIndexer.Indexer.IndexOnce | src/bots/solana_event_indexer.py:321-369 | every accepted order after the start and up to the cursor is stored whatever fails, the cursor never falls, and a run that does not raise leaves nothing accepted above it; the first run covers everything accepted down to the first entry before the day |
| SolanaIndexer.Indexer.StoreAndAdvance | src/bots/solana_event_indexer.py:357-369 | the cursor moves to the newest collected entry only after all rows are stored, also when a write lands and raises |
| SolanaIndexer.Indexer.FetchRows | src/bots/solana_event_indexer.py:326-355 | all or nothing: without an exception every collected order became a row |
| SolanaIndexer.StopsInside | src/bots/solana_event_indexer.py:100-113 | stopping inside a page gives what reading everything and cutting would give |
| SolanaIndexer.CursorAdvances | src/bots/solana_event_indexer.py:357-361 | the covered range grows up to the new cursor |
| SolanaIndexer.CollectedAbove | src/bots/solana_event_indexer.py:87-116 | everything accepted above the entry that ended the collecting was collected, and without a cut-off nothing ends it |
| SolanaIndexer.HeadIsNewest | src/bots/solana_event_indexer.py:327-328 | nothing accepted lies above the first collected entry |
| CapitalReconcile.Reconciler.ReconcileSettledPositions | src/capital_intents/reconcile.py:42-101 | under interference and failing writes every completed intent keeps its one successor; left alone, every row added redeploys the collateral of an intent whose event is settled, not in the money and neither physical nor physical_failed, every intent inspected with an assigned event ends assigned_rotating and with a failed one retryable, nothing is left to do, and the summary counts all of this |
| CapitalReconcile.RotationRowIs | src/capital_intents/reconcile.py:168-230 | the new row, column by column, and exactly when there is one |
| CapitalReconcile.Reconciler.Handle | src/capital_intents/reconcile.py:59-99 | one pass of the loop does exactly what the event calls for: nothing, retryable, assigned, resume, or create and complete |
| CapitalReconcile.Reconciler.Rotate | src/capital_intents/reconcile.py:84-99 | an existing successor is reused, a missing one created once, and the original completed |
| CapitalReconcile.Reconciler.InsertRotation | src/capital_intents/reconcile.py:239-242 | the insert adds one row, and only if its key was free; a free key is refused only when the call fails |
| CapitalReconcile.Reconciler.UpdateStatus | src/capital_intents/reconcile.py:249-269 | a status write changes one row's status or nothing |
| CapitalReconcile.Reconciler.ReadDeployedIntents | src/capital_intents/reconcile.py:104-119 | eligible intents only, each once, and all of them when the limit suffices |
| CapitalReconcile.AtMostOneRotation | src/capital_intents/reconcile.py:153-165 | however runs interleave, an intent never has two successors |
| CapitalReconcile.KeyRoundTrip | src/capital_intents/reconcile.py:153-154 | an idempotency key can be read back, so different pairs never share one |
| CapitalReconcile.InsertKeepsInv | src/capital_intents/reconcile.py:168-206 | an insert the unique index admits keeps every successor backed by its intent and the positive collateral of its event |
| CapitalConservation.CapitalIsConservedIff | src/capital_intents/reconcile.py:42-101 | capital created is the collateral of the rotated intents, and of the events used exactly when no two rotated intents share one |
| CapitalConservation.SharedFillDoublesCapital | src/capital_intents/reconcile.py:122-136 | two intents of one transaction are both rotated with its whole collateral |
| PythAccumulator.ParseAccumulatorUpdate | src/bots/solana_expiry_settler.py:347-385 | the loops compute the parse that the encoding theorems are about, including which check refuses |
| PythAccumulator.AcceptsExactly | src/bots/solana_expiry_settler.py:347-385 | a byte string is accepted exactly when all of it is an encoding, and then the parts are the encoded ones: the final length check is enough |
| PythAccumulator.EncodeOfParse | src/bots/solana_expiry_settler.py:347-385 | re-encoding what was parsed gives the input back |
| PythAccumulator.ParseOfEncode | src/bots/solana_expiry_settler.py:347-385 | parsing an encoding returns its parts |
| PythAccumulator.EncodingIsUnambiguous | src/bots/solana_expiry_settler.py:347-385 | equal encodings carry the same VAA and updates |
| PythVaa.TrimSignatures | src/bots/solana_expiry_settler.py:402-417 | the in-place edit computes the trimming the theorems are about |
| PythVaa.TrimOfEncoding | src/bots/solana_expiry_settler.py:402-417 | trimming keeps version, guardian set, the first signatures and the body, and refuses exactly too few signatures |
| PythVaa.TrimIsIdempotent | src/bots/solana_expiry_settler.py:402-423 | trimming twice is trimming once, and the guardian set index stays, on any bytes |
| PythVaa.TrimmedIsCompleteIff | src/bots/solana_expiry_settler.py:402-417 | when a trimmed VAA holds all the signatures it announces |
| PythVaa.GuardianSetOfEncoding | src/bots/solana_expiry_settler.py:420-423 | the index read is the index encoded |
| PythVaa.DecodeVaa | src/bots/solana_expiry_settler.py:402-423 | every complete byte string is the encoding of a VAA |
| PythVaa.MatchingUpdate | src/bots/solana_expiry_settler.py:463-472 | the first update of the feed, unless a malformed message comes before it |
| PythVaa.FeedIdOfEncoding | src/bots/solana_expiry_settler.py:388-399 | an encoded price feed message is accepted and its feed id is read back |
| PythVaa.DecodePriceFeed | src/bots/solana_expiry_settler.py:388-399 | every accepted message is an encoded price feed |
| PythVaa.PackProof | src/bots/solana_expiry_settler.py:338-344 | packs exactly the proofs whose items are 20 bytes |
| PythVaa.PackedIsDetermined | src/bots/solana_expiry_settler.py:334-344 | equal instruction data means equal VAA, message, proof and treasury |
| PythVaa.ParsedPacks | src/bots/solana_expiry_settler.py:453-487 | whatever parses and trims can be packed |
| PythVaa.BuildPostUpdate | src/bots/solana_expiry_settler.py:453-500 | the instruction carries the trimmed VAA and the first update of the feed, and which check refuses otherwise |
| YieldSharing.CalculateAllocations | src/yield_tracking/calculator.py:21-109 | the result is the floors of the kept positions with the dust on the first one; allocations and dust add up to the distributable amount, dust is less than the number of weighted positions, and everything is paid out if anything is |
| YieldSharing.AllocationsAreFloors | src/yield_tracking/calculator.py:81-98 | each allocation is the floor of its position's exact share, in row order, and only positions without a whole unit are left out |
| YieldSharing.YieldIsConservedIff | src/bots/yield_airdrop.py:200-203 | fee and allocations together are the harvested yield exactly when nothing is distributable or some position's exact share reaches one unit |
| YieldSharing.YieldCanStayUnpaid | src/yield_tracking/calculator.py:81-98 | two inputs whose yield nobody gets: one unit for two equal positions, and no positions |
| YieldSharing.DustGoesToLargestIff | src/yield_tracking/calculator.py:100-104 | the dust reaches a largest allocation exactly when the first position with a whole unit has the largest share |
| YieldSharing.DustGoesToFirst | src/yield_tracking/calculator.py:100-104 | two positions where the dust goes to the smaller share |
| YieldSharing.DustBound | src/yield_tracking/calculator.py:81-101 | dust is at least 0 and less than the number of positive weights |
| YieldSharing.FloorsLoseLittle | src/yield_tracking/calculator.py:81-101 | floors of shares lose less than one unit for each further positive weight |
| YieldSharing.FiltersAgree | src/yield_tracking/calculator.py:49-75 | the three weight computations divide by the same total |
| YieldSharing.DurationCounts | src/yield_tracking/calculator.py:65-75 | a position's duration is the number of instants of the period at which it is deposited and not yet settled |
| YieldSharing.WeightIsAdditive | src/yield_tracking/calculator.py:65-75 | a position's weight over a period is the sum over its two parts |
| YieldSharing.TotalIsAdditive | src/yield_tracking/calculator.py:65-75 | the same for the total |
| YieldSharing.EstimatePendingYield | src/yield_tracking/calculator.py:122-173 | the loop computes the user's share over all rows, filters notwithstanding |
| YieldSharing.EstimatesFitPending | src/api/yield_routes.py:89-118 | a user's estimates add up to at most the pending estimate, and fall short by less than the number of weighted positions |
| YieldSharing.EstimateAtMostAllocation | src/api/yield_routes.py:89-118 | an estimate is never more than what the same yield later allocates to the position |
| YieldSharing.EstimatedDistributableIff | src/yield_tracking/calculator.py:171-173 | the estimate's distributable part is at most one unit below the distribution's, and equal exactly when the fee divides |
| YieldEstimates.EstimatePerPosition | src/api/yield_routes.py:70-120 | every position gets its share of its own asset's yield, and no other key appears |
| YieldEstimates.EstimateAsset | src/api/yield_routes.py:89-118 | the same within one asset |
| YieldEstimates.GroupByAsset | src/api/yield_routes.py:82-85 | the groups are the rows of each asset, in order |
| YieldAirdrop.Airdrop.ProcessAsset | src/bots/yield_airdrop.py:188-270 | no token is created or lost, and a run that does not raise leaves the operator exactly the unsent fee and the failed allocations, less the transfers that landed although they raised; the new rows are the allocations, and delivered are exactly those whose transfer is confirmed |
| YieldAirdrop.Airdrop.Distribute | src/bots/yield_airdrop.py:113-166 | what was paid and seen to be paid is what stopped being pending, exactly the rows whose transfer is confirmed; delivered plus failed is all |
| SettlementAmounts.DecimalsCancel | src/bots/expiry_settler.py:193-225 | a put costs floor(amount * price / 10^10) for any underlying |
| SettlementAmounts.PutCostWithinStrikeValue | src/bots/expiry_settler.py:209-225 | a put in the money costs at most its strike value |
| SettlementAmounts.CeilingIsTight | src/bots/expiry_settler.py:227-228 | the buffer is the least whole amount not below its share |
| SettlementAmounts.PutParamIsPositiveIff | src/bots/expiry_settler.py:267-320 | a beta put has a positive parameter exactly when it costs at least one unit |
| SettlementAmounts.MinOutIff | src/bots/expiry_settler.py:235-264 | a minimum output is at most the contra amount, and positive exactly below 100% slippage |
| SettlementAmounts.MinOutIsTight | src/bots/expiry_settler.py:255-260 | the minimum output is the contra amount less the slippage, rounded up |
| SettlementAmounts.CallFailsIff | src/bots/expiry_settler.py:199-254 | a call is refused exactly when its strike value is below one unit |
| SettlementAmounts.BetaPutParam | src/bots/expiry_settler.py:267-330 | in beta mode a put delivers its amount of the underlying and may spend its oracle cost and 10% of it, rounded up |
| SettlementAmounts.QuotedPutParam | src/bots/expiry_settler.py:267-330 | otherwise it may spend the quote and the tolerated share of it, rounded up |
| SettlementAmounts.CallParam | src/bots/expiry_settler.py:235-264 | a call pays its strike value rounded down and asks for at least that less the mode's slippage, rounded up |
| SettlementAmounts.SlippageFailsIff | src/bots/expiry_settler.py:267-330 | when there is no parameter, and which check refuses |
| SettlementAmounts.SolanaRefusesIff | src/bots/solana_expiry_settler.py:1563-1584 | exactly when Solana refuses and with which error, and what it pays otherwise |
| Wheels.DetectWheels | src/api/leaderboard.py:88-133 | the loops find the greedy pairs, and half the number of ids is the number of pairs |
| Wheels.WheelsAreMaximal | src/api/leaderboard.py:88-133 | the pairs are disjoint wheels, and no wheel is left among the rows they do not use |
| Wheels.PairsAreWheels | src/api/leaderboard.py:88-133 | on the columns: every pair is two assigned rows on opposite sides of one asset, the second opened within 24 hours of the first one's settlement, and no such pair is left among rows that are in none |
| Wheels.GreedyIsHalfOptimal | src/api/leaderboard.py:88-133 | no set of disjoint wheels is more than twice as large |
| Wheels.TwoIdsPerPair | src/api/leaderboard.py:185-185 | each pair accounts for two ids of its own |
| Wheels.DetectPerfectWeek | src/api/leaderboard.py:136-164 | exactly the rows that earn the bonus, none of them in a wheel |
| Wheels.WalletStats | src/api/leaderboard.py:175-190 | the wheel count is the number of pairs; the bonus goes to exactly the rows in a pair or in a perfect week; the adjusted total is the premium plus half of that of the bonus rows, and for premiums that are not negative lies between the raw total and 1.5 times it |
| Wheels.LongestOtmStreak | src/api/leaderboard.py:197-205 | the length of the longest run out of the money |
| RateLimiter.Limiter.Check | src/api/routes.py:86-139 | with eviction and forgetting, the decision is that of a limiter that keeps everything |
| RateLimiter.Limiter.Serve | src/api/routes.py:86-139 | over any request sequence all decisions agree, and no address gets more than the maximum through in any half-open window |
| RateLimiter.AtMostMaxPerWindow | src/api/routes.py:105-112 | the window bound for the limiter that keeps everything |
| RateLimiter.AllowsIff | src/api/routes.py:105-112 | a request is let through exactly when the max-th newest one let through before it is at least 60 seconds old or missing |
| RateLimiter.AcceptedAreSpaced | src/api/routes.py:105-112 | any max + 1 requests of an address let through in a row span at least 60 seconds |
| RateLimiter.EvictionAgrees | src/api/routes.py:90-97 | evicting stale addresses changes no later decision |
| RateLimiter.StaleNewest | src/api/routes.py:91-95 | looking at the newest hit is enough to know that all are stale |
| Strikes.GenerateStrikes | src/pricing/price_sheet.py:25-51 | it ends; a gap-free progression around the centred strikes, with as many below (above) the spot as the larger of the minimum and the centred count |
| Strikes.AroundMeans | src/pricing/price_sheet.py:25-51 | the result strictly increases by one step, contains the centred strikes in their place, and its counts are the strikes below and above the spot |
| Strikes.ExtendPuts | src/pricing/price_sheet.py:41-44 | every strike the loop adds is below the spot, so it ends with the count wanted |
| Strikes.ExtendCalls | src/pricing/price_sheet.py:46-49 | the same above the spot |
| Strikes.CentreIsNearest | src/pricing/price_sheet.py:37-37 | no multiple of the step is nearer to the spot than the centre, and of two equally near ones the even one is taken |
| Strikes.CentredAre | src/pricing/price_sheet.py:38-39 | the centred strikes are num multiples of the step, half of them below the centre |
| Expiries.NextEightIsFirst | src/pricing/utils.py:50-55 | the first 08:00 UTC strictly after an instant |
| Expiries.NextFridayIsFirst | src/pricing/utils.py:39-47 | the first Friday 08:00 UTC strictly after an instant |
| Expiries.BiweeklyIsSecond | src/pricing/utils.py:85-87 | the biweekly expiry is the next Friday after the weekly one |
| Expiries.ShippedSelection | src/pricing/utils.py:73-87 | with the shipped cutoffs the order of the slots, and the near Friday is the weekly one or the one before it |
| Expiries.GetExpiries | src/pricing/utils.py:58-90 | strictly increasing, exactly the seconds of the selected instants, each aligned to 08:00 UTC |
| Expiries.ShippedExpiries | src/pricing/utils.py:16-90 | always three or four expiries at 08:00 UTC, the selection in order, each more than 4 hours away and clearing the dynamic cutoff test |
| Expiries.ClearsCutoffIff | src/pricing/utils.py:16-30 | with the shipped cutoffs an expiry passes the dynamic cutoff test exactly when it is more than 4 hours away |
| Expiries.EightIsAligned | src/pricing/price_sheet.py:17-22 | every 08:00 UTC passes the alignment check |

## Left out

- BridgeSafety.RecoveryCompletesIff: that a CCTP message is minted once and a deposit finalized once is the contracts' doing and assumed; the attestation, intent lookup and trade succeed.
- Building, signing and sending transactions, account derivation, HTTP, email and notification: only their outcome is modelled.
- The subscription handlers of the block indexer and `_pending_failure_block`: they move the cursor to the live block and do not keep gap-freedom.
- An ABI without PhysicalDelivery, where delivery events are not indexed at all (src/bots/event_indexer.py:446-453).
- EventIndexer.Indexer.IndexOnce: the per-event enrichment is a predicate of the event that may change from cycle to cycle.
- SolanaIndexer.Indexer.IndexOnce: decoding a transaction is reduced to the order it yields, if any.
- Error messages, settled_at, settlement_tx_hash, delivered_asset and delivered_amount columns, and the capital intent sync after a bridge row update.
- ExpirySettler.Settler.EnsureExpiryPrices: scaling a Chainlink answer to 8 decimals; prices that others make final are those of one moment of the cycle.
- ExpirySettler.Settler.RedeemWithRetry: the delay between attempts and the value of the slippage parameter are not part of it (the amounts are in SettlementAmounts).
- CapitalReconcile.Reconciler.ReconcileSettledPositions: intents may not lose or replace a destination transaction that is set; the bridge sync can replace one (src/capital_intents/sync.py:80-86), and RotatedAgainIff says what follows.
- CapitalReconcile.InsertKeepsInv: NOT NULL constraints of the intents table are part of the environment (an insert may be refused for any reason).
- YieldAirdrop.Airdrop.ProcessAsset: the harvested amount is what the operator received; the row of a transfer that landed although it raised stays pending, and what is done about it later is not part of it.
- YieldSharing.CalculateAllocations: floating-point rounding of shares.
- Strikes.GenerateStrikes: floating-point rounding of strikes, and the product of strikes, expiries and option types in generate_otoken_specs.
- Wheels.LongestOtmStreak: the sort by settlement time that orders its input, and the active-day count.
- RateLimiter.Limiter.Check: reading the client address and the warning logs.
- PythVaa.BuildPostUpdate: the account list and the discriminator of the instruction.
- Nonce handling, quote listing, capacity aggregation, the circuit breaker, account linking, the faucet and demo settlement would only add short branches.
- Black-Scholes pricing, implied volatility and simulation: transcendental functions over floats.
