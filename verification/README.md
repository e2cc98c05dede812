# SovRoute in Dafny

SovRoute swaps bitcoin on Lightning for USDC on Base. A payer's Lightning hold
invoice (OPEN, ACCEPTED, then SETTLED or CANCELED) and an HTLC on Base (EMPTY,
LOCKED, then CLAIMED or REFUNDED) are bound to one hash; SQLite rows are the
durable state. This project models the protocol that keeps the two rails
together and the engines around it, and proves what they keep in every run.

`dafny verify dfyconfig.toml` checks everything.

## How it is built

- **Cross-rail protocol.** `SwapTypes`, `Rails`, `ReservationRules` and
  `CoordinatorSteps` cut every coordinator method at its awaits, so a run is
  any interleaving of any number of workers with the payer, the client, the
  clock, lapsing leases, crashes and calls that fail before their effect or
  lose their reply. `CoordinatorSafety` is the invariant, `CoordinatorTheorems`
  the claims over whole runs, `CoordinatorEvidence` what finality the rails are
  moved on, `CoordinatorFinality` which records are final, `CoordinatorRecovery`
  how often recovery calls the rails, `CoordinatorConvergence` what it achieves,
  `CoordinatorOutcomes` the whole end state of every call in every cell of the
  two rails, of failed guards and of lost replies,
  `CoordinatorRaces` runs that undo a terminal record. `CoordinatorMethods` is
  the coordinator as a class whose methods update rails and record in place;
  each is proved equal to its path through the transition system, faults
  included, and each such path is a run of it. `RailBackends` are the two local
  backends with their tables.
- **EVM transactions.** `EvmTypes`, `EvmEngine` (intents, attempts, nonces, fees
  as functions on the tables), `EvmInvariant`, `EvmHistory`, `EvmTheorems`,
  `EvmOutcomes` (how every call ends, answer by answer), and
  `EvmManager`, the manager over its tables in place.
- **Liquidity.** `LiquidityLedger`, `LiquiditySolvency`, `LiquidityRuns`,
  `BootReconciliation`, `BootTheorems`, `LiquidityOutcomes` (what each operation
  and each boot leaves), and `LiquidityStore`, the tables in place. Capacity
  means the latest recorded snapshot.
- **Admission, pricing, relaying.** `AntiAbuse`, `PoissonBlocks`,
  `PriceAggregator`, `QuoteEngine`, `DecimalText`; `Relayer` (submissions cut at
  their awaits, over the admission table of `AntiAbuse`), `RelayerKeys` (what an
  idempotency key protects), `RelayerOutcomes` (what a submission leaves) and
  `RelayerService` (the class).

Hashes are injective constructors, SQLite transactions are atomic steps, and
node answers, observations, faults and crash points are free choices.

## What the proofs found

- Invariant A, no settlement before a verified claim (coordinator.ts:17), holds
  in all runs exactly under policies of at most two confirmations
  (`ClaimsAreVerifiedExactly`). Under stricter ones a claim on the client's
  behalf that finds the HTLC already claimed skips the evidence check and
  settles (`SettledBeforeFinal`); nothing else does
  (`SettledWithoutEvidenceExactly`), and a caller can tell beforehand
  (`ClaimSettlesWithoutEvidenceExactly`).
- Likewise Lightning is canceled only against final refunds exactly under those
  policies (`RefundsAreVerifiedExactly`). Otherwise a reconciliation that finds
  Base refunded, or a refund whose reply was lost, cancels too early
  (`ReconciledBeforeFinal`, `CanceledBeforeFinal`; before the call:
  `ReconcileCancelsEarlyExactly`, `RefundCancelsEarlyExactly`). Without chain
  reorganisations `CrossRailAtomicity` holds all the same.
- A refund in one reconciliation completes exactly when at most two
  confirmations are required, because a refund has two when its receipt is seen
  (`RefundConverges`); two suffice while a cancel retry is left
  (`RefundConvergesInTwo`).
- `REFUNDED` and `INVOICE_CANCELED` are final for any number of workers.
  `EXPIRED` is not in the stale-worker guard of `updateRecord`, and a hold
  detection already under way overwrites it (`ExpiredCanBeLeft`); recovery
  escalation bypasses the guard, so a reconciliation already under way can undo
  `COMPLETED` (`CompletedCanBeLeft`). `ExpiredIsFinalExactly` and
  `CompletedIsFinalExactly` say from which states this can happen, and
  `ExpiredLeftExactly` and `CompletedLeftExactly` in which steps.
- A fee-cap block gives a nonce back when no attempt is marked as sent. After a
  lost reply the transaction may already be out (`GivenBackNonceMayBeInFlight`),
  and a stale pending count then lets another intent sign for the same slot. A
  reservation can collide exactly when something was sent above every nonce that
  still counts (`CollisionsExactly`); one intent still takes effect at most once.
- The node's fee estimate can put the tip above the max fee when it leaves the
  tip out (`EstimateOrderedExactly`).
- Boot reads states and not the recovery flag (`BootIgnoresTheFlag`,
  `FlagDecidesAfterBoot`).
- An idempotency key is bound to one swapper, destination and pair of amounts
  (`KeyHasOneBargain`), but it is not broadcast once: a failed insert, a lost
  reply and two concurrent submissions each let the same bargain be broadcast
  twice over two quotes (`FailedInsertLeavesKeyOpen`, `LostReplyLeavesKeyOpen`,
  `ConcurrentSubmissionsBothBroadcast`). `KeyIsSpentExactly` names the states in
  which a key is safe, `OpenKeyServesExactly` whom an open key still serves.
  Quotes, signatures and nonces are never broadcast twice.
- Splitting a swap never pays more exactly when there is a fixed fee, no spread,
  or nothing but spread (`SplittingNeverPaysExactly`).
- The block search ends exactly for positive targets (`SearchEndsExactly`).

## Model

| member | source | states |
|---|---|---|
| `CoordinatorTheorems.CrossRailAtomicity` | src/atomic/coordinator/coordinator.ts:18-20 | invariants B, C and D: in every run of any number of workers, faults, crashes and environment moves, SETTLED implies CLAIMED, CANCELED implies REFUNDED or empty, LOCKED implies ACCEPTED; CLAIMED with CANCELED and REFUNDED with SETTLED never occur |
| `CoordinatorEvidence.ClaimsAreVerifiedExactly` | src/atomic/coordinator/coordinator.ts:17 | invariant A: in all runs Lightning is settled only against a final claim if and only if the finality policy asks for at most 2 confirmations |
| `CoordinatorEvidence.SettledWithoutEvidenceExactly` | src/atomic/coordinator/coordinator.ts:943-1001 | every settling step of every run: the claim is not final if and only if a claim on the client's behalf found the HTLC already claimed (`0x_preclaimed`) and the confirmations are lacking |
| `CoordinatorEvidence.ClaimSettlesWithoutEvidenceExactly` | src/atomic/coordinator/coordinator.ts:886-1023 | before the call: a fault-free `claimSwap` settles without final evidence if and only if the payment is held, the HTLC is already claimed, the row names no claim transaction and the confirmations are lacking |
| `CoordinatorEvidence.SettledBeforeFinal` | src/atomic/coordinator/coordinator.ts:943-974 | for every policy of more than 2 confirmations a reachable run that settles against a claim with only 2 |
| `CoordinatorEvidence.RefundsAreVerifiedExactly` | src/atomic/coordinator/coordinator.ts:1203-1262 | in all runs Lightning over a refunded HTLC is canceled only against a final refund if and only if the policy asks for at most 2 confirmations |
| `CoordinatorEvidence.CanceledWithoutEvidenceExactly` | src/atomic/coordinator/coordinator.ts:1203-1210 | every canceling step over a refunded HTLC: the refund is not final if and only if recovery cancels, or a refund whose hash is missing or `0x_reconciled`, and the confirmations are lacking |
| `CoordinatorEvidence.CanceledBeforeFinal` | src/atomic/coordinator/coordinator.ts:1183-1190 | for every stricter policy a reachable run in which a refund whose reply was lost cancels Lightning too early |
| `CoordinatorEvidence.ReconciledBeforeFinal` | src/atomic/coordinator/coordinator.ts:1543-1587 | the same for a reconciliation that finds Base refunded |
| `CoordinatorEvidence.ReconcileCancelsEarlyExactly` | src/atomic/coordinator/coordinator.ts:1541-1600 | before the call: over a refunded HTLC a fault-free `reconcileSwap` cancels Lightning without final evidence if and only if the payment is held, a cancel retry is left and the refund lacks the confirmations |
| `CoordinatorEvidence.RefundCancelsEarlyExactly` | src/atomic/coordinator/coordinator.ts:1059-1316 | before the call: over a refunded HTLC a fault-free `processRefund` does so if and only if the row is refundable and names no refund transaction (or `0x_reconciled`), the payment is held and the confirmations are lacking |
| `CoordinatorSafety.StepKeepsInv` | src/atomic/coordinator/coordinator.ts:582-1898 | one step of any worker, the payer, the client, the clock, a lapsing lease or a crash keeps the invariant that ties rails, record, reservation, counters and every suspended method together |
| `CoordinatorSafety.RunKeepsInv` | src/atomic/coordinator/coordinator.ts:582-1898 | the same over whole runs |
| `CoordinatorSafety.DecideGood` | src/atomic/coordinator/coordinator.ts:1347-1898 | every cell of the recovery case table, on observations that may be stale, leaves the books in order |
| `CoordinatorSafety.ApplyKeepsInv` | src/persistence/sqlite.ts:1907-1954 | because only the claim owner runs sections, nobody else relies on anything a section may break |
| `CoordinatorSafety.HoldKeepsInv` | src/atomic/coordinator/coordinator.ts:527-577 | hold detection owns no claim and may overwrite the state, but only with one that promises nothing about the rails |
| `CoordinatorSafety.EnvironmentKeepsFrame` | src/atomic/evm/fake-backend.ts:235-279 | what a suspended method relies on survives a payment, a client claim and the passing of time |
| `CoordinatorTheorems.RailsNeverGoBack` | src/atomic/lightning/fake-backend.ts:77-129 | no step moves either rail backwards: claimed, refunded, settled and canceled are final |
| `CoordinatorTheorems.CanceledIsNeverFundedLater` | src/atomic/coordinator/coordinator.ts:616-622 | an invoice canceled or absent while Base is empty is not funded by anything that happens afterwards |
| `CoordinatorTheorems.FundingStartsWhileReserved` | src/atomic/coordinator/coordinator.ts:625-630 | when the first funding is dispatched the reservation is RESERVED and the payment held |
| `CoordinatorTheorems.TerminalRecordsAgree` | src/atomic/coordinator/coordinator.ts:1028-1316 | COMPLETED, REFUNDED, INVOICE_CANCELED and EXPIRED records tell the truth about both rails and the reservation table |
| `CoordinatorFinality.RefundedAndCanceledAreFinal` | src/atomic/coordinator/coordinator.ts:2031-2052 | for any number of workers, no later event changes a record that says REFUNDED or INVOICE_CANCELED, or its reservation |
| `CoordinatorFinality.ExpiredLeftExactly` | src/atomic/coordinator/coordinator.ts:527-577 | a step of a reachable run leaves EXPIRED if and only if it is the pending write of a hold detection; it changes only the state |
| `CoordinatorFinality.ExpiredIsFinalExactly` | src/atomic/coordinator/coordinator.ts:2031-2052 | a reachable EXPIRED record stays EXPIRED in every continuation if and only if no hold detection has already seen the held payment |
| `CoordinatorFinality.CompletedLeftExactly` | src/atomic/coordinator/coordinator.ts:1347-1360 | a step of a reachable run leaves COMPLETED if and only if a reconciliation decides on a failed observation |
| `CoordinatorFinality.CompletedIsFinalExactly` | src/atomic/coordinator/coordinator.ts:1975-1987 | a reachable COMPLETED record stays COMPLETED in every continuation if and only if no reconciliation has an observation failed or still to make |
| `CoordinatorTheorems.TerminalIsFinalForOneWorker` | src/atomic/coordinator/coordinator.ts:2031-2052 | with one worker COMPLETED and EXPIRED are final too: no later call, fault or crash changes the record or its reservation |
| `CoordinatorTheorems.DecideShape` | src/atomic/coordinator/coordinator.ts:1347-1898 | a recovery decision itself touches neither rail, nor the clock, nor another worker; it hands over only to a method it calls or to its own cancellation, and ends the method if it writes a terminal state |
| `CoordinatorRecovery.RecoveryIsBounded` | src/atomic/coordinator/coordinator.ts:1479-1498 | over any number of recovery passes by any workers, each kind of call that methods entered through `reconcileSwap` send to the rails is at most its retry counter and maxRetries: fundings, settlements, refunds, recovery's own cancellations (cancel retries), cancellations inside a refund it started (refund retries); it never claims on Base; retryCount is the sum of the four counters |
| `CoordinatorRecovery.CancellationsAreBounded` | src/atomic/coordinator/coordinator.ts:1541-1560 | both kinds of cancellation together are at most cancel plus refund retries, hence at most 2 * maxRetries |
| `CoordinatorConvergence.RefundConverges` | src/atomic/coordinator/coordinator.ts:1680-1719 | from a reachable funded record past its timelock one fault-free `reconcileSwap` refunds both rails and releases the reservation if and only if the finality policy asks for at most 2 confirmations; repeating it changes nothing; otherwise it stops with Base refunded and Lightning held |
| `CoordinatorConvergence.RefundConvergesInTwo` | src/atomic/coordinator/coordinator.ts:1541-1680 | under any finality policy two fault-free reconciliations refund both rails and release the reservation, if and only if the second needs no cancel retry or one is left; otherwise they end in RECOVERY_REQUIRED with Base refunded and Lightning held |
| `CoordinatorConvergence.SettlementConverges` | src/atomic/coordinator/coordinator.ts:1382-1420 | two fault-free reconciliations take a claimed swap with final evidence to COMPLETED with Lightning and the reservation settled; a third changes nothing |
| `CoordinatorRaces.ExpiredCanBeLeft` | src/atomic/coordinator/coordinator.ts:527-577 | a reachable run in which a hold detection already under way overwrites EXPIRED |
| `CoordinatorRaces.CompletedCanBeLeft` | src/atomic/coordinator/coordinator.ts:1347-1360 | a reachable two-worker run in which a failed observation escalates a COMPLETED record |
| `CoordinatorOutcomes.WaitsBeforeTimelock` | src/atomic/coordinator/coordinator.ts:1720-1757 | recovery of a locked, held swap before its timelock commits the reservation, writes EVM_FUNDED with a clear flag, and changes neither rail, no counter and nothing else |
| `CoordinatorOutcomes.ParksExactly` | src/atomic/coordinator/coordinator.ts:1347-1898 | from every reachable open swap one fault-free recovery ends in RECOVERY_REQUIRED if and only if a due retry is used up, a held payment over an empty HTLC is past LIGHTNING_HELD, or the parked record stays parked |
| `CoordinatorOutcomes.RefundsAfterTimelock` | src/atomic/coordinator/coordinator.ts:1701-1719 | the whole end state of the due refund: both rails refunded and the reservation released, or the refund waiting for confirmations, or only the attempt counted |
| `CoordinatorOutcomes.CompletesWhenBothDone` | src/atomic/coordinator/coordinator.ts:1382-1421 | claimed and settled ends COMPLETED with the reservation SETTLED and nothing else changed |
| `CoordinatorOutcomes.DetectsUnknownClaim` | src/atomic/coordinator/coordinator.ts:1499-1537 | a claim whose transaction the row does not name commits the reservation and ends EVM_CLAIM_DETECTED with the flag raised |
| `CoordinatorOutcomes.SettlesKnownClaim` | src/atomic/coordinator/coordinator.ts:1479-1498 | a known claim is settled if it is final and the row is ready, and otherwise only the attempt is counted |
| `CoordinatorOutcomes.ClosesAfterRefund` | src/atomic/coordinator/coordinator.ts:1543-1678 | a refunded HTLC closes Lightning and the reservation while a cancel retry is left, and parks the swap otherwise |
| `CoordinatorOutcomes.ClosesWithoutInvoice` | src/atomic/coordinator/coordinator.ts:1855-1894 | a canceled or absent invoice over an empty HTLC ends INVOICE_CANCELED with the reservation released |
| `CoordinatorOutcomes.WaitsForPayment` | src/atomic/coordinator/coordinator.ts:1780-1796 | an open invoice over an empty HTLC ends INVOICE_CREATED from the states before funding, and otherwise changes nothing |
| `CoordinatorOutcomes.FundsHeldSwap` | src/atomic/coordinator/coordinator.ts:1797-1854 | a held payment over an empty HTLC is funded in the same recovery while a fund retry is left |
| `CoordinatorOutcomes.FundCallEnds` | src/atomic/coordinator/coordinator.ts:582-714 | the whole end state of a fault-free funding, from every reachable state |
| `CoordinatorOutcomes.SettleCallEnds` | src/atomic/coordinator/coordinator.ts:724-881 | the same for a settlement from a Base claim |
| `CoordinatorOutcomes.ClaimCallEnds` | src/atomic/coordinator/coordinator.ts:886-1023 | the same for a claim on the client's behalf |
| `CoordinatorOutcomes.UnfundedRefundEnds` | src/atomic/coordinator/coordinator.ts:1090-1138 | `processRefund` before funding cancels the invoice and releases the reservation |
| `CoordinatorOutcomes.FundedRefundEnds` | src/atomic/coordinator/coordinator.ts:1140-1316 | after funding it refunds, records a claim, waits or finishes, by what it sees on Base |
| `CoordinatorOutcomes.HoldDetectionEnds` | src/atomic/coordinator/coordinator.ts:527-577 | a payment seen on an unheld swap makes it LIGHTNING_HELD; anything else changes nothing |
| `CoordinatorOutcomes.AmbiguousFunding` | src/atomic/coordinator/coordinator.ts:660-714 | a funding whose reply is lost is found on the chain and recorded; one that never happened is not sent again |
| `CoordinatorOutcomes.AmbiguousSettlement` | src/atomic/coordinator/coordinator.ts:840-881 | the same for the settlement of the invoice |
| `CoordinatorOutcomes.AmbiguousRefund` | src/atomic/coordinator/coordinator.ts:1181-1202 | the same for the refund on Base, whose hash is then the reconciled one |
| `CoordinatorOutcomes.AmbiguousCancellation` | src/atomic/coordinator/coordinator.ts:1245-1300 | the same for the cancellation of the invoice inside a refund |
| `CoordinatorOutcomes.AmbiguousRecovery` | src/atomic/coordinator/coordinator.ts:1560-1587 | and inside a recovery, which parks the swap if the cancellation is not confirmed |
| `CoordinatorOutcomes.DoubtEnds` | src/atomic/coordinator/coordinator.ts:840-870 | a second look that fails or finds no effect ends the method with nothing written; finding the opposite raises the recovery flag |
| `CoordinatorOutcomes.ContradictionsPark` | src/atomic/coordinator/coordinator.ts:1422-1478 | rails that contradict each other, or a reservation that cannot follow them, park the swap and touch nothing else |
| `CoordinatorOutcomes.GoneAfterRefundCloses` | src/atomic/coordinator/coordinator.ts:1633-1678 | a refunded HTLC whose invoice is canceled or not found ends REFUNDED with the reservation released |
| `CoordinatorOutcomes.FailedObservationParks` | src/atomic/coordinator/coordinator.ts:1346-1360 | a recovery that fails to observe either rail parks the swap and touches nothing else |
| `CoordinatorOutcomes.FailedCheckStops` | src/atomic/coordinator/coordinator.ts:582-1316 | a failed guard ends a method before any rail call, with nothing written but, at most, the recovery flag |
| `CoordinatorOutcomes.AmbiguousFundingParks` | src/atomic/coordinator/coordinator.ts:1761-1779 | a pending funding that cannot be ruled out parks the swap instead of funding again |
| `CoordinatorMethods.AtomicCoordinator.FundEvmHtlc` | src/atomic/coordinator/coordinator.ts:582-714 | the method in place, with a fault at any await, equals its path through the transition system |
| `CoordinatorMethods.AtomicCoordinator.SettleLightningFromEvmClaim` | src/atomic/coordinator/coordinator.ts:724-881 | the same for settlement from a Base claim |
| `CoordinatorMethods.AtomicCoordinator.ClaimSwap` | src/atomic/coordinator/coordinator.ts:886-1023 | the same for a claim on the client's behalf |
| `CoordinatorMethods.AtomicCoordinator.ProcessRefund` | src/atomic/coordinator/coordinator.ts:1059-1316 | the same for expiry, cancellation of a held payment and the funded refund |
| `CoordinatorMethods.AtomicCoordinator.ReconcileSwap` | src/atomic/coordinator/coordinator.ts:1322-1898 | the same for recovery, including the methods it calls |
| `CoordinatorMethods.AtomicCoordinator.Resolve` | src/atomic/coordinator/coordinator.ts:1347-1898 | the case table over the two observations |
| `CoordinatorMethods.AtomicCoordinator.Perform` | src/persistence/sqlite.ts:1907-1954 | takes the action claim if it is free, runs one method and releases the claim |
| `CoordinatorMethods.SoloIsReachable` | src/atomic/coordinator/coordinator.ts:582-1898 | whatever the faults, a method called alone leaves rails, row, reservation and counters as some run of the transition system does |
| `CoordinatorMethods.SectionIgnoresFrames` | src/atomic/coordinator/coordinator.ts:582-1898 | no section depends on which other methods are suspended |
| `RailBackends.LightningBackend.CreateHoldInvoice` | src/atomic/lightning/fake-backend.ts:42-67 | creates an OPEN invoice once per payment hash and touches no other |
| `RailBackends.LightningBackend.SettleHoldInvoice` | src/atomic/lightning/fake-backend.ts:77-107 | a preimage settles exactly the held invoice locked to its hash; replays succeed, canceled and open invoices refuse |
| `RailBackends.LightningBackend.CancelHoldInvoice` | src/atomic/lightning/fake-backend.ts:109-129 | cancels any unsettled invoice; settled ones refuse; no other invoice changes |
| `RailBackends.LightningBackend.PayerHold` | src/atomic/lightning/fake-backend.ts:138-149 | only an OPEN invoice becomes ACCEPTED |
| `RailBackends.BaseBackend.FundHtlc` | src/atomic/evm/fake-backend.ts:156-179 | locks an HTLC once per swap key and leaves every other HTLC alone |
| `RailBackends.BaseBackend.ClaimHtlc` | src/atomic/evm/fake-backend.ts:235-279 | claims exactly a locked HTLC whose hash lock the preimage opens |
| `RailBackends.BaseBackend.RefundHtlc` | src/atomic/evm/fake-backend.ts:281-314 | refunds exactly a locked HTLC whose timelock has passed |
| `RailBackends.BaseBackend.ExtractClaimEvidence` | src/atomic/evm/fake-backend.ts:316-403 | evidence is final if and only if the transaction claimed its own HTLC with enough confirmations under the expected hash lock, and then reveals the preimage |
| `RailBackends.BaseBackend.VerifyRefundEvidence` | src/atomic/evm/fake-backend.ts:405-481 | refund evidence is final if and only if the transaction refunded its own HTLC with enough confirmations |
| `RailBackends.BaseBackend.ContractStatus` | src/atomic/evm/fake-backend.ts:213-233 | the reported status 0 to 3 is the rail's state |
| `RailBackends.EndKeeps` | src/atomic/evm/fake-backend.ts:269-277 | ending one HTLC in a new transaction keeps every other HTLC and its evidence |
| `EvmTheorems.AtMostOneEffect` | src/atomic/evm/transaction-manager.ts:5-11 | through any executions, crashes, replacements, lost replies and chain moves, the chain mines at most one of all transactions ever signed for an action of a swap |
| `EvmTheorems.AttemptsShareOneAction` | src/atomic/evm/transaction-manager.ts:251-428 | attempts are numbered 1..n and share signer, nonce, target, calldata and value with their intent; a swap key and action have one intent |
| `EvmTheorems.SentWasStoredFirst` | src/atomic/evm/transaction-manager.ts:393-411 | nothing reaches the node or the chain that was not stored before under exactly one intent and number |
| `EvmTheorems.ConfirmedExactly` | src/persistence/sqlite.ts:1238-1286 | CONFIRMED if and only if exactly one attempt is mined successfully on the chain, its hash is canonical and all others are superseded |
| `EvmTheorems.TerminalIsFinal` | src/atomic/evm/transaction-manager.ts:184-192 | no later event changes a terminal intent's status, nonce, canonical hash or stored transactions |
| `EvmTheorems.NewNoncesAreFresh` | src/persistence/sqlite.ts:1007-1083 | a nonce gained in any step of any run is at least the pending count and above every nonce any intent of the lane still holds, dead or alive |
| `EvmTheorems.NewNoncesLeaveNoGap` | src/persistence/sqlite.ts:1043-1061 | and it is the least such nonce: everything from the pending count up to it is still held in the lane |
| `EvmTheorems.HeldNonces` | src/persistence/sqlite.ts:1334-1370 | a dead intent that holds a nonce has an attempt that may have gone out; at most one intent per lane holds a nonce without attempts; nonces are unique per lane |
| `EvmHistory.ReserveRefusesExactly` | src/persistence/sqlite.ts:1023-1068 | reservation throws exactly when another intent holds a bare nonce; the unique index is never hit |
| `EvmHistory.CandidateIsFresh` | src/persistence/sqlite.ts:1043-1061 | the candidate exceeds every held nonce although dead intents are filtered out of the maximum |
| `EvmTheorems.CollisionsExactly` | src/persistence/sqlite.ts:1043-1061 | before a reservation in any reachable state: some pending count leads it to a nonce already used in public if and only if a transaction of the lane was sent above every nonce that counts |
| `EvmTheorems.SentAboveHeldWasGivenBack` | src/persistence/sqlite.ts:1334-1370 | each such transaction was signed by an intent that was closed and gave its nonce back with no attempt marked as sent |
| `EvmTheorems.HonestCountNeverCollides` | src/atomic/evm/transaction-manager.ts:366-376 | the guard: a pending count above every nonce ever sent in the lane excludes the collision |
| `EvmTheorems.GivenBackNonceMayBeInFlight` | src/persistence/sqlite.ts:1346-1355 | a concrete run in which that nonce's transaction is already out because its reply was lost |
| `EvmTheorems.FeeLadder` | src/atomic/evm/transaction-manager.ts:313-328 | each replacement raises tip and max fee by strictly more than the minimum percentage, so fee k is at least the first times (1 + bump)^k |
| `EvmTheorems.CapsHold` | src/atomic/evm/transaction-manager.ts:269-350 | at most maxReplacements + 1 attempts, each under the gas, tip, max fee and worst-case cost caps |
| `EvmTheorems.FeesStayOrdered` | src/atomic/evm/transaction-manager.ts:313-328 | if every estimate was in order, every attempt satisfies maxFee >= tip, as EIP-1559 demands |
| `EvmTheorems.ReconcileLearnsTheFate` | src/atomic/evm/transaction-manager.ts:581-619 | a reconciliation whose queries are answered ends CONFIRMED with the mined attempt as canonical, or REVERTED |
| `EvmOutcomes.BidsAreLeast` | src/atomic/evm/transaction-manager.ts:313-328 | a replacement offers the least tip and max fee that are no lower than the estimate and more than the larger percentage above the predecessor; a first attempt offers the estimate |
| `EvmOutcomes.PreparationRefused` | src/atomic/evm/transaction-manager.ts:264-350 | foreign calldata changes nothing; the replacement limit or a cap ends FEE_CAP_BLOCKED, a failed simulation REVERTED, and the nonce is given back exactly if no attempt is marked as sent |
| `EvmOutcomes.AttemptGoesOut` | src/atomic/evm/transaction-manager.ts:352-492 | otherwise the transaction is signed with the intent's nonce or the least free one, stored under the next number and then handed over, and every answer of the node has its end state; both crash points |
| `EvmOutcomes.ReconcileEnds` | src/atomic/evm/transaction-manager.ts:549-649 | the first receipt decides, a failing query before it ends the call with nothing changed, and an intent that is no longer active is left alone |
| `EvmOutcomes.ExecuteResends` | src/atomic/evm/transaction-manager.ts:194-238 | an intent with attempts learns its fate first, and only an unacknowledged last attempt is handed over again |
| `EvmOutcomes.RecoveryEnds` | src/atomic/evm/transaction-manager.ts:675-701 | with a node that answers, startup hands over the first unacknowledged attempt of every active intent and learns the fate of each; no other intent changes |
| `EvmOutcomes.RecoveryStops` | src/atomic/evm/transaction-manager.ts:675-701 | the first exception ends the startup; a broadcast without reply counts as sent |
| `EvmInvariant.StepKeepsInv` | src/atomic/evm/transaction-manager.ts:169-701 | every manager method and every chain move keeps the invariant of both tables |
| `EvmInvariant.RecordKeepsInv` | src/persistence/sqlite.ts:1085-1170 | recording appends exactly the next numbered attempt, or throws because the same transaction is already stored |
| `EvmInvariant.NextFeesClimb` | src/atomic/evm/transaction-manager.ts:313-328 | replacement fees outbid the previous attempt by more than the minimum bump even when a custom bump is smaller |
| `EvmHistory.StepEvolves` | src/atomic/evm/transaction-manager.ts:169-701 | what a row may become in one step: stored transactions stay, terminal rows are final, nonces are gained fresh, fees stay ordered |
| `EvmManager.TransactionManager.MaxNonce` | src/persistence/sqlite.ts:1043-1059 | one pass finds the highest nonce that counts |
| `EvmManager.TransactionManager.ReserveEvmNonce` | src/persistence/sqlite.ts:1007-1083 | the reservation transaction in place equals its specification |
| `EvmManager.TransactionManager.MarkEvmMinedSuccess` | src/persistence/sqlite.ts:1238-1286 | marks the winner, supersedes every open attempt and confirms the intent |
| `EvmManager.TransactionManager.PrepareAttempt` | src/atomic/evm/transaction-manager.ts:251-428 | checks, caps, nonce reservation, signing and recording in the source's order, with both crash points |
| `EvmManager.TransactionManager.SendAttempt` | src/atomic/evm/transaction-manager.ts:434-492 | accepted, already known, lost, refused and nonce-too-low replies |
| `EvmManager.TransactionManager.Reconcile` | src/atomic/evm/transaction-manager.ts:549-649 | asks for receipts attempt by attempt and stops at the first one known |
| `EvmManager.TransactionManager.ReplacePendingTransaction` | src/atomic/evm/transaction-manager.ts:498-544 | replaces only a pending or dispatching intent that has an attempt |
| `EvmManager.TransactionManager.RecoverOnStartup` | src/atomic/evm/transaction-manager.ts:675-701 | visits active intents in order, rebroadcasts the unsent attempt, stops at the first exception |
| `EvmManager.TransactionManager.Execute` | src/atomic/evm/transaction-manager.ts:169-246 | create or find the intent, then prepare and send, or reconcile and resend |
| `LiquidityRuns.ReadyMeansSolvent` | src/persistence/sqlite.ts:2189-2358 | in every reachable state a READY snapshot satisfies R + P <= safe capacity |
| `LiquiditySolvency.CountedOnce` | src/persistence/sqlite.ts:2156-2187 | R + P is the amount of exactly the reservations that are held or whose funding is unresolved: each obligation is counted once |
| `LiquidityRuns.ReservationMovesNeverAdd` | src/persistence/sqlite.ts:2360-2524 | every commit, release, settlement and restoration leaves R + P unchanged or lower for every token |
| `LiquidityRuns.HeadroomIsSound` | src/persistence/sqlite.ts:2133-2150 | in every reachable state the reported headroom of a READY snapshot is not negative and is at most what R and P leave |
| `LiquidityRuns.CommitConserves` | src/persistence/sqlite.ts:2400-2402 | a commit moves the amount from R to P exactly while the FUND is unresolved, otherwise R + P drops by it |
| `LiquidityRuns.ReserveKeepsSafety` | src/persistence/sqlite.ts:2189-2358 | the only operation that adds an obligation does so within the snapshot's headroom |
| `LiquidityRuns.CreateFundKeepsSafety` | src/persistence/sqlite.ts:885-950 | creating the FUND intent of a held reservation adds nothing to what is owed |
| `LiquidityRuns.CapacityKeepsSafety` | src/atomic/liquidity/chain-reconciler.ts:279-379 | a snapshot becomes READY only if its capacity covers everything owed |
| `LiquidityRuns.BootKeepsSafety` | src/atomic/liquidity/chain-reconciler.ts:172-220 | boot keeps solvency on every path, including those that stop half-way |
| `LiquidityRuns.ReconciledWinds` | src/atomic/liquidity/chain-reconciler.ts:385-734 | both boot passes only wind obligations down |
| `LiquidityOutcomes.TransitionsExactly` | src/persistence/sqlite.ts:2360-2524 | which statuses each of commit, release, settlement and restoration accepts, and that afterwards the reservation and the mirrors of its swap say the new status and nothing else changed |
| `LiquidityOutcomes.CommitAdvancesExactly` | src/persistence/sqlite.ts:2404-2482 | succeeds exactly for the swap's own held or committed reservation; a pending swap is EVM_FUNDED afterwards and any other keeps its state; every other row is unchanged |
| `LiquidityOutcomes.ReserveAnswersExactly` | src/persistence/sqlite.ts:2189-2358 | a new execution gets exactly what R and P leave of a fresh READY snapshot; which error every other snapshot gives and which readiness it leaves |
| `LiquidityOutcomes.RepeatedReserveIsFree` | src/persistence/sqlite.ts:2189-2230 | repeating a held or committed reservation returns it and changes nothing |
| `LiquidityOutcomes.CapacityVerdict` | src/atomic/liquidity/chain-reconciler.ts:279-379 | READY with what R and P leave, DEFICIT if that is negative, and UNKNOWN unless the reading is of the same chain with a finalized block within the lag window |
| `LiquidityOutcomes.WrongChainIsNotReady` | src/atomic/liquidity/chain-reconciler.ts:180-194 | on the wrong chain: NOT_READY, no headroom, a NOT_READY snapshot, and no reservation, swap or intent touched |
| `LiquidityOutcomes.ReadyNeedsTheChain` | src/atomic/liquidity/chain-reconciler.ts:172-220 | READY takes the expected chain, a reading of it within the lag window, and leaves exactly that reading as the snapshot |
| `LiquidityOutcomes.HtlcResolves` | src/atomic/liquidity/chain-reconciler.ts:668-727 | an HTLC seen locked, claimed or refunded confirms the intent and writes the matching reservation, mirror, state and flag, and nothing else; a reservation that cannot follow parks the swap and stops boot |
| `LiquidityOutcomes.ManagerConfirms` | src/atomic/liquidity/chain-reconciler.ts:614-645 | a confirmed funding commits the swap's own reservation and advances a pending swap, or stops boot |
| `LiquidityOutcomes.ManagerDenies` | src/atomic/liquidity/chain-reconciler.ts:614-667 | a failed funding parks an open swap; any other answer is only written down |
| `LiquidityOutcomes.CheckPassesExactly` | src/atomic/liquidity/chain-reconciler.ts:402-574 | boot passes over an open swap if and only if it is another token's, not funded yet, waits for an unresolved funding, or its reservation can follow its observed HTLC; otherwise boot stops, with the swap parked in the last case |
| `LiquidityOutcomes.SafeHeadroomExactly` | src/persistence/sqlite.ts:2133-2150 | headroom is reported only from a fresh READY or deficit snapshot, and is then capacity - R - P |
| `BootTheorems.ReadyMeansBooksMatch` | src/atomic/liquidity/chain-reconciler.ts:385-574 | READY after boot: every open swap of the token that needs an HTLC has its reservation COMMITTED, SETTLED or RELEASED exactly as observed 1, 2 or 3, mirrored in its row; none whose HTLC is seen locked is still EVM_FUNDING_PENDING; none is in recovery or review; headroom is capacity - R - P and not negative |
| `BootTheorems.FailedObservationIsNotReady` | src/atomic/liquidity/chain-reconciler.ts:448-497 | one failed, malformed, absent or unknown observation among the swaps that need one gives UNKNOWN and no headroom |
| `BootTheorems.FlagDecidesAfterBoot` | src/atomic/liquidity/chain-reconciler.ts:128-166 | after a READY boot the reported readiness is READY if and only if no open swap of the token carries the recovery flag |
| `BootTheorems.BootIgnoresTheFlag` | src/atomic/liquidity/chain-reconciler.ts:385-432 | a reachable ledger in which boot says READY while the reported readiness is NOT_READY |
| `BootTheorems.CheckAllChecks` | src/atomic/liquidity/chain-reconciler.ts:402-574 | each queued swap is settled against its own observation and no other swap or reservation is touched |
| `LiquidityStore.Store.GetOperatorBalance` | src/persistence/sqlite.ts:2084-2106 | sums the reservations of a token in one status |
| `LiquidityStore.Store.GetUnresolvedFundingIntentsAmount` | src/persistence/sqlite.ts:2156-2187 | sums P over the FUND intents, skipping what R counts |
| `LiquidityStore.Store.Reserve` | src/persistence/sqlite.ts:2189-2358 | every reply and error of a reservation, in the source's order, and the table it leaves |
| `LiquidityStore.Store.TransitionReservation` | src/persistence/sqlite.ts:2360-2398 | moves a reservation from an allowed status or replays, and mirrors it into its swap |
| `LiquidityStore.Store.CommitReservationAndAdvanceSwapToFunded` | src/persistence/sqlite.ts:2404-2482 | commits only the swap's own reservation and advances a pending swap |
| `LiquidityStore.Store.ExecuteCapacityReconciliation` | src/atomic/liquidity/chain-reconciler.ts:279-379 | READY, DEFICIT or UNKNOWN from one capacity reading under the finality policy |
| `LiquidityStore.Store.ReconcileActiveSwaps` | src/atomic/liquidity/chain-reconciler.ts:385-574 | walks the open swaps in order and stops at the first doubt |
| `AntiAbuse.WindowsHold` | src/anti-abuse/persistence.ts:156-242 | at every time, in any clock order: wallet, destination and global volume within the rolling window and admitted volume within two hours stay within their caps |
| `AntiAbuse.CooldownHolds` | src/anti-abuse/persistence.ts:156-172 | two admissions of one wallet are at least the cooldown apart, the later one later |
| `AntiAbuse.ChargedOnce` | src/anti-abuse/persistence.ts:108-153 | a key is charged once and no admission exceeds the single-swap limit |
| `AntiAbuse.WindowFits` | src/anti-abuse/persistence.ts:341-351 | the last admission of a window bounds the whole window |
| `AntiAbuse.ChargedExactly` | src/anti-abuse/persistence.ts:95-292 | a request adds its row exactly if its key is new and every limit, written out, leaves room; otherwise the table is unchanged |
| `AntiAbuse.RefusedExactly` | src/anti-abuse/persistence.ts:108-242 | each refusal names the first limit that fails and the volume it was measured against |
| `AntiAbuse.RepeatsExactly` | src/anti-abuse/persistence.ts:116-153 | a repeated key is answered from its row at no charge if the terms agree, and refused if they do not |
| `AntiAbuse.ClosingFreesExposureOnly` | src/anti-abuse/persistence.ts:156-242 | completing, refunding or cancelling gives back the in-flight exposure of that swap and makes no room under the rolling caps |
| `AntiAbuse.AdmissionTable.EvaluateAndRecordAdmission` | src/anti-abuse/persistence.ts:95-292 | reply and table of one request, checks in the source's order |
| `AntiAbuse.AdmissionTable.RollingVolume` | src/anti-abuse/persistence.ts:341-351 | the volume of a scope after a cutoff |
| `AntiAbuse.AdmissionTable.LatestRequest` | src/anti-abuse/persistence.ts:156-164 | finds the wallet's latest request after the cutoff |
| `AntiAbuse.AdmissionTable.UpdateSwapStatus` | src/anti-abuse/anti-abuse-engine.ts:64-80 | a closing status changes only the row of its key |
| `PoissonBlocks.ComputeRequiredBtcBlocks` | src/atomic/coordinator/coordinator.ts:107-117 | terminates with the least count from ceil(mu) up whose tail is below the target; every larger count is below it too |
| `PoissonBlocks.ComputePoissonTailDirect` | src/atomic/coordinator/coordinator.ts:76-93 | the loops compute the truncated tail with its early break |
| `PoissonBlocks.TailIsAntitone` | src/atomic/coordinator/coordinator.ts:76-93 | above the mean, more blocks never mean a larger tail, although the series may stop at a different term |
| `PoissonBlocks.TailIsPartialSum` | src/atomic/coordinator/coordinator.ts:71-75 | the tail is the sum of the exact Poisson probabilities from k to the term where the series stops |
| `PoissonBlocks.TailShrinks` | src/atomic/coordinator/coordinator.ts:76-93 | one more block multiplies the tail by at most mu / (k + 1) |
| `PoissonBlocks.TailMissesLittle` | src/atomic/coordinator/coordinator.ts:76-93 | no longer sum of the upper tail exceeds the computed one by more than mu times its last term, which is below the threshold relative to the first unless all terms were used |
| `PoissonBlocks.SearchEndsExactly` | src/atomic/coordinator/coordinator.ts:113-115 | some count from ceil(mu) up is below the target if and only if the target is positive |
| `PoissonBlocks.AssertLightningCltvSafety` | src/atomic/coordinator/coordinator.ts:2054-2146 | passes if and only if the blocks before the earliest expiry cover the whole Base resolution up to the tail risk; unknown height or expiry never passes |
| `PoissonBlocks.PassedGateLeavesTime` | src/atomic/coordinator/coordinator.ts:2054-2146 | a passing gate leaves nominally enough blocks, before the invoice or any accepted HTLC expires, for the rest of the Base timelock and all four budgets |
| `PoissonBlocks.FailedGateLacksBlocks` | src/atomic/coordinator/coordinator.ts:2054-2146 | a failing gate lacks the height, an expiry, or blocks: any count that covers that time with a tail below the target is more than what is left |
| `PriceAggregator.RobustMedian` | src/pricing/price-aggregator.ts:79-86 | if a strict majority of accepted samples lies between the honest extremes, so does the reference price, for odd and even counts |
| `PriceAggregator.AcceptedAreClose` | src/pricing/price-aggregator.ts:61-77 | two accepted samples, and the median, differ by less than (maxDispersionBps + 1) / 10000 of the lowest |
| `PriceAggregator.MedianExactly` | src/pricing/price-aggregator.ts:79-86 | the middle price for an odd count, the floor of the mean of the two middle ones for an even count, whatever way the prices are sorted |
| `PriceAggregator.AcceptedExactly` | src/pricing/price-aggregator.ts:42-52 | exactly the answers at most five seconds ahead and at most the stale limit behind are accepted, each once at its own price |
| `PriceAggregator.PricedExactly` | src/pricing/price-aggregator.ts:54-77 | a price is given if and only if enough answers were accepted, all are positive and every two are within the dispersion limit |
| `PriceAggregator.RefusedExactly` | src/pricing/price-aggregator.ts:54-77 | each refusal says what was missing, in the source's order |
| `PriceAggregator.DispersionBound` | src/pricing/price-aggregator.ts:68-70 | the integer dispersion test in rational terms |
| `PriceAggregator.AscendingIsSorted` | src/pricing/price-aggregator.ts:58-59 | sorting orders the prices and keeps each as often as before |
| `PriceAggregator.GetAuthoritativePrice` | src/pricing/price-aggregator.ts:34-92 | the loop, the errors in order and the median |
| `QuoteEngine.QuoteConserves` | src/pricing/quote-engine.ts:51-121 | a quote is issued exactly within its bounds; gross is net plus spread plus fee; the printed rate parses back to the scaled rate |
| `QuoteEngine.QuoteRoundsDown` | src/pricing/quote-engine.ts:66-92 | gross, spread and the printed rate are the floors of their exact values |
| `QuoteEngine.RefusedExactly` | src/pricing/quote-engine.ts:51-86 | each refusal is given exactly under its condition and carries the amounts it was decided on |
| `QuoteEngine.NetIsPrecise` | src/pricing/quote-engine.ts:66-80 | net is within one atomic unit of the exact rational value |
| `QuoteEngine.NetIsMonotone` | src/pricing/quote-engine.ts:66-80 | more satoshis never buy less |
| `QuoteEngine.SplittingNeverPaysExactly` | src/pricing/quote-engine.ts:66-80 | two swaps never pay more than one, for all amounts and prices, if and only if the fixed fee is at least one unit, or the spread is zero or takes everything |
| `QuoteEngine.SplitGainsAtMostOne` | src/pricing/quote-engine.ts:66-80 | in general splitting gains at most one unit less the second fee |
| `DecimalText.RoundTrip` | src/providers/fixedfloat.ts:723-737 | decimalToAtomic(atomicToDecimal(a, d), d) = a for all a and d |
| `DecimalText.CanonicalRoundTrip` | src/providers/fixedfloat.ts:723-737 | and every canonical text is printed back unchanged |
| `DecimalText.OutputIsCanonical` | src/providers/fixedfloat.ts:723-729 | no superfluous zero on either side, no bare dot, at most d fraction digits |
| `DecimalText.TruncatesDownward` | src/providers/fixedfloat.ts:731-737 | a longer fraction is cut to the floor of what the text denotes |
| `DecimalText.AmountsExactly` | src/providers/fixedfloat.ts:731-737 | a text is an amount if and only if its whole part and the digits of its fraction that are kept are digits |
| `DecimalText.RateRoundTrip` | src/pricing/quote-engine.ts:88-92 | parsing the printed rate gives back the scaled rate |
| `DecimalText.ParsersAgree` | src/pricing/providers/base-provider.ts:17-26 | the price parser accepts exactly digits with an optional fraction and reads the same number as the amount parser |
| `DecimalText.PriceFormatExactly` | src/pricing/providers/base-provider.ts:17-26 | a price is digits and, if there is a dot, digits after it; nothing else |
| `DecimalText.SpaceIsIgnored` | src/pricing/providers/base-provider.ts:17-26 | white space around a price changes nothing |
| `Relayer.BroadcastAtMostOnce` | src/gasless/relayer.ts:120-138 | over any interleaving, keys and failures, no two broadcasts share a quote, a signature, or a swapper and nonce |
| `Relayer.NoncesAreTheirHistory` | src/gasless/nonce-manager.ts:79-146 | each swapper's consumed nonces are exactly 0..current, each tied to exactly one quote |
| `RelayerKeys.KeyHasOneBargain` | src/anti-abuse/persistence.ts:116-134 | over all interleavings and failures, whatever is broadcast under one key has the one swapper, destination and amounts the key was admitted for |
| `RelayerKeys.KeyIsSpentExactly` | src/gasless/relayer.ts:77-138 | in every reachable state a key is broadcast in no continuation if and only if its row exists (or the caps admit nothing at all), nobody awaits its broadcast, and whoever awaits authorization under it has a quote, signature or nonce already used up |
| `RelayerKeys.OpenKeyServesExactly` | src/gasless/relayer.ts:77-138 | in every reachable state in which a key has no row, a swapper and terms can still be broadcast under it if and only if the key is admitted for exactly them, or was never admitted and the amount is under every cap |
| `RelayerKeys.FailedInsertLeavesKeyOpen` | src/gasless/relayer.ts:141-160 | a run in which the insert after the broadcast fails and a second authorization for the same bargain is broadcast under the same key |
| `RelayerKeys.LostReplyLeavesKeyOpen` | src/gasless/relayer.ts:137-139 | the same when the broadcaster's reply is lost |
| `RelayerKeys.ConcurrentSubmissionsBothBroadcast` | src/gasless/relayer.ts:77-98 | the same without any failure, when two submissions look for the row before either has written it |
| `RelayerOutcomes.SubmissionEnds` | src/gasless/relayer.ts:70-238 | from any valid tables, the final row and admission of a new submission: CONFIRMED and COMPLETED on a successful receipt, FAILED and CANCELLED on a revert, by the probe without a receipt, no row and CANCELLED if the broadcaster does not reply |
| `RelayerOutcomes.RecordedOutcomesWereHeard` | src/gasless/relayer.ts:132-238 | over all interleavings a row is CONFIRMED only if a success was heard for its key, and FAILED only if a revert was |
| `RelayerOutcomes.RefusedSubmissionEnds` | src/gasless/relayer.ts:70-131 | a submission that is refused before its broadcast broadcasts nothing and writes no row |
| `Relayer.StepKeepsInv` | src/gasless/relayer.ts:70-238 | every section of every submission keeps the replay tables in step with the log of broadcasts |
| `RelayerService.DriveIsARun` | src/gasless/relayer.ts:70-238 | a submission that nothing interrupts is one of the interleaved runs |
| `RelayerService.Service.VerifyAndConsume` | src/gasless/nonce-manager.ts:79-146 | records nonce, quote and signature, or nothing |
| `RelayerService.Service.SubmitSwap` | src/gasless/relayer.ts:70-238 | the whole submission in place equals its sections run to the end |

## Left out

- CoordinatorTheorems.CanceledIsNeverFundedLater: a funding transaction takes effect at its call or never, as the local backend does; a transaction mined after its call was given up is not modelled, and the HELD cancellation rests on this too.
- Invariant F (durable payment-hash ownership) beyond one invoice per hash in `RailBackends.LightningBackend.CreateHoldInvoice`; of invariant E the EVM side is `EvmTheorems.AtMostOneEffect`, and settling or canceling a hold invoice again changes nothing.
- Chain reorganisations, spontaneous cancellation by LND, leases that lapse while their owner is inside an action, and separate processes racing between reading a row and claiming it.
- One swap at a time in the coordinator model; rows without a reservation id; interleaving inside `prepareSwap`, whose possible results are the initial states.
- The in-memory cache of records: a read after an await may see the shared row or the one read when the method began, and both are allowed.
- Suspended coordinator methods: interleaving is modelled on values, because a Dafny method runs to its end; the class methods of `CoordinatorMethods` capture the update in place for calls that nothing interrupts, and not the aliasing of cached records.
- CoordinatorMethods.AtomicCoordinator.FundEvmHtlc: the CLTV gate and the status of the FUND intent are free choices here; the gate itself is `PoissonBlocks.AssertLightningCltvSafety`.
- onLightningHoldDetected and confirmBaseDelivery as in-place methods: they take no action claim and are single writes in the transition system.
- Liveness from EVM_FUNDING_PENDING and RECOVERY_REQUIRED, which are parked for operators.
- Interleaving inside one method of the transaction manager, so the replacement lock, the re-signing after a lost race and the polling of the confirmation wait are not modelled; the wait is a sequence of `Reconcile` and `Replace` steps.
- EvmManager.TransactionManager.Execute: an existing intent of another chain or signer is left alone, because callers derive a key from a swap whose intents all use one manager.
- `recoverUnresolvedIntent`, `markEvmIntentFailed`, a custom gas limit, and chain evidence that confirms an intent past the status checks (present in the boot model, where it only ends an intent).
- Classification of errors by message text: its result is a free choice.
- LiquidityStore.Store: `reconcileUnresolvedFundingIntents` and `reconcileOnBoot` are modelled on values in `BootReconciliation`; intents are those of the one expected chain, and `rehydrateBindings` is not modelled.
- LiquiditySolvency.CountedOnce: a swap's token and amount are those of its reservation, as `prepareSwap` writes them; swaps without a token are outside it.
- LiquidityRuns.CreateFundKeepsSafety: a FUND intent is created only while its reservation is held; the ledger takes this as its rule, and `CoordinatorTheorems.FundingStartsWhileReserved` proves it of the coordinator.
- AntiAbuse.AdmissionTable.UpdateSwapStatus: only the three closing statuses the engine sends, not FAILED or a return to ADMITTED.
- Negative amounts, number precision beyond 2^53, and in decimal texts signs, hexadecimal digits and whitespace that `BigInt` would accept.
- PoissonBlocks.ComputePoissonTailDirect: exact reals instead of log-space floating point, with e^-mu any constant in (0, 1].
- PriceAggregator.GetAuthoritativePrice: the fetches are the given answers, and the library sort is a function that returns the sorted prices; the list of active samples carries prices only.
- Quote signatures and expiry and EIP-712 verification are free choices in the relayer, except that no quote is for a net amount of zero: a quote may be had for every other pair of amounts, because the price is free; admission is that of `AntiAbuse`, at any time. A crash of the relayer may fall between any two sections.
- Test switches of the two local backends: forced pending receipts, forced confirmations and forced storage disagreement.
- Network and file input and output, cryptography, configuration checks, the HTTP server, and the older orchestrator with its state table.
