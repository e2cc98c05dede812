/**
 The data of one cross-rail swap: the two rails, the durable record, the
 reservation, and the continuation of every worker that is inside an
 asynchronous coordinator method.
 */
module SwapTypes {
  import opened Wrappers

  type Worker = nat

  /** The Lightning hold invoice of the swap. `Absent` is an authoritative "not found". */
  datatype Lightning = Absent | Open | Accepted | Settled | Canceled

  /**
   Transaction hashes as the HTLC backend derives them: one per action and
   block. `Preclaimed` and `ReconciledRefund` are the two placeholder strings
   the coordinator writes when it has no real hash.
   */
  datatype TxHash =
    | ClaimTx(claimBlock: nat)
    | RefundTx(refundBlock: nat)
    | Preclaimed
    | ReconciledRefund
    | UnknownTx(id: nat)

  /** The HTLC on Base. `lock` is the consensus timestamp from which a refund is allowed. */
  datatype Htlc =
    | Empty
    | Locked(lock: int)
    | Claimed(lock: int, tx: TxHash, atBlock: nat)
    | Refunded(lock: int, tx: TxHash, atBlock: nat)

  datatype SwapState =
    | PlanPrepared | InvoiceCreated | LightningHeld
    | EvmFundingPending | EvmFunded
    | Claiming | EvmClaimDetected | EvmClaimConfirmed
    | LightningSettlementPending | LightningSettled | DestinationPending | Completed
    | Expired | InvoiceCanceled
    | RefundEligible | EvmRefundPending | EvmRefundConfirmed | LightningCancelPending | SwapRefunded
    | RecoveryRequired | ManualReview

  datatype Reservation = Reserved | Committed | Released | ReservationSettled

  /** The durable row of the swap, without the fields no branch depends on. */
  datatype Record = Record(
    state: SwapState,
    reservationStatus: Reservation,
    htlcId: bool,
    claimTx: Option<TxHash>,
    refundTx: Option<TxHash>,
    refundLocktime: Option<int>,
    recoveryRequired: bool,
    retries: nat,
    fundRetries: nat,
    settleRetries: nat,
    refundRetries: nat,
    cancelRetries: nat)

  /** What recovery saw on Lightning; `LnUnknown` is any failure other than a typed absence. */
  datatype LnObservation = LnFound(state: Lightning) | LnNotFound | LnUnknown

  /** What recovery saw on Base, with the block timestamp of the same reading. */
  datatype EvmObservation = EvmSeen(htlc: Htlc, timestamp: int) | EvmUnknown

  /**
   Where a worker stands inside a coordinator method. Every constructor is
   one suspension point (or the synchronous code that follows it), so that any
   other worker and the environment may act before the worker goes on.
   */
  datatype Frame =
    // onLightningHoldDetected: takes no action claim
    | HoldQuery | HoldObserve | HoldWrite
    // fundEvmHtlc
    | FundQuery | FundChecks | FundPersist(lock: int) | FundDispatch(lock: int)
    | FundRecheck(lock: int) | FundCommit(lock: int, idKnown: bool) | FundRecord(lock: int, idKnown: bool)
    // settleLightningFromEvmClaim
    | SettleGate(tx: TxHash, seen: SwapState) | SettleEvidence(tx: TxHash) | SettleMark(tx: TxHash)
    | SettleDispatch | SettleRecheck | SettleRecord
    // claimSwap
    | ClaimObserve | ClaimDispatch | ClaimEvidence(tx: TxHash) | ClaimSettle(tx: TxHash) | ClaimRecord(tx: TxHash)
    // processRefund, invoice never paid
    | ExpireCancel | ExpireRecord
    // processRefund, payment held but Base not funded
    | HeldObserve | HeldCancel | HeldRecord
    // processRefund, Base funded
    | RefundObserve | RefundDecide(seenHtlc: Htlc, timestamp: int) | RefundDispatch | RefundRecheck
    | RefundConfirm(tx: TxHash) | RefundVerify | RefundMark | RefundCancel | RefundCancelRecheck | RefundRestore
    // reconcileSwap
    | ReconcileLightning(seen: SwapState) | ReconcileEvm(seen: SwapState, ln: LnObservation)
    | ReconcileDecide(seen: SwapState, ln: LnObservation, evm: EvmObservation)
    | ReconcileCancel | ReconcileReobserve | ReconcileRestore

  datatype World = World(
    ln: Lightning,
    htlc: Htlc,
    now: int,
    block: nat,
    rec: Record,
    reservation: Reservation,
    claim: Option<Worker>,
    frames: map<Worker, Frame>)

  /** Constructor settings of the coordinator; `confirmations` is None without a finality policy. */
  datatype Config = Config(maxRetries: nat, confirmations: Option<nat>, timelockSeconds: nat)

  /** How an external call ends: normally, after its effect but without a reply, or before any effect. */
  datatype Fault = NoFault | LostReply | NoEffect

  /**
   The free outcomes of one step. `live` says whether a field read after a
   suspension comes from the shared cache (the current row) or from the row
   read when the method began; `pass` answers the checks the model leaves
   free: the CLTV window, the in-memory claim map, extra receipt failures and
   the status of the FUND intent.
   */
  datatype Choice = Choice(fault: Fault, live: bool, pass: bool)

  datatype Call =
    | DetectHold | Fund | SettleFromClaim(tx: TxHash) | ClaimForClient | ConfirmDelivery | ProcessRefund | Reconcile

  datatype Event =
    | PayerPays
    | ClientClaims
    | TimePasses(seconds: nat, blocks: nat)
    | LeaseExpires
    | Start(worker: Worker, call: Call, choice: Choice)
    | Advance(worker: Worker, choice: Choice)
    | Crash(worker: Worker)
}
