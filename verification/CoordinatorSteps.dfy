/**
 The atomic coordinator as a transition system. An asynchronous method is cut
 at its suspension points: one step is either the synchronous code up to the
 next `await` or the effect of one external call, so every interleaving of
 workers, payer, client and clock is a sequence of events.
 */
module CoordinatorSteps {
  import opened Wrappers
  import opened SwapTypes
  import opened Rails
  import R = ReservationRules

  // ---------------------------------------------------------------- plumbing

  /**
   One synchronous section of a method that holds the action claim: the rails
   and rows it leaves, and where it suspends next, if it does.
   */
  datatype Section = Continue(world: World, frame: Frame) | Finish(world: World)

  /** The `finally` of a claimed method releases the claim if it is still ours. */
  function Apply(id: Worker, s: Section): World {
    match s
    case Continue(w, f) => w.(frames := w.frames[id := f])
    case Finish(w) => w.(frames := w.frames - {id}, claim := if w.claim == Some(id) then None else w.claim)
  }

  /** A method that never claimed ends without touching the claim. */
  function Stop(w: World, id: Worker): World {
    w.(frames := w.frames - {id})
  }

  /** The states the stale-worker guard protects; EXPIRED is not among them. */
  predicate GuardedState(s: SwapState) { s == Completed || s == SwapRefunded || s == InvoiceCanceled }

  /** The stale-worker guard: a row in a guarded state keeps it against a writer that saw an older one. */
  function UpdateRecord(current: Record, next: Record): Record {
    if GuardedState(current.state) && next.state != current.state then current else next
  }

  function Put(w: World, next: Record): World {
    w.(rec := UpdateRecord(w.rec, next))
  }

  /** Recovery escalation writes the row directly, past the guard. */
  function MarkRecovery(w: World): World {
    w.(rec := w.rec.(state := RecoveryRequired, recoveryRequired := true))
  }

  function WithReservation(w: World, status: Reservation): World {
    w.(reservation := status, rec := w.rec.(reservationStatus := status))
  }

  /** Commit that also advances a pending swap to funded, in one transaction. */
  function CommitAndAdvance(w: World): Option<World> {
    if w.reservation == Reserved || w.reservation == Committed then
      var w1 := WithReservation(w, Committed);
      Some(w1.(rec := w1.rec.(state := if w1.rec.state == EvmFundingPending then EvmFunded else w1.rec.state)))
    else None
  }

  function ChainOf(w: World): Chain { Chain(w.htlc, w.block) }

  function WithChain(w: World, c: Chain): World { w.(htlc := c.htlc, block := c.block) }

  /** An external call takes effect unless the fault says it failed before. */
  function CallLightning(w: World, e: Effect<Lightning>, fault: Fault): World {
    if fault == NoEffect then w else w.(ln := e.state)
  }

  function CallChain(w: World, e: Effect<Chain>, fault: Fault): World {
    if fault == NoEffect then w else WithChain(w, e.state)
  }

  predicate Returned<S>(e: Effect<S>, fault: Fault) { e.ok && fault == NoFault }

  predicate RefundPath(s: SwapState) {
    s == SwapRefunded || s == RefundEligible || s == EvmRefundPending || s == EvmRefundConfirmed
  }

  predicate Terminal(s: SwapState) {
    s == Completed || s == SwapRefunded || s == InvoiceCanceled || s == Expired
  }

  // ----------------------------------------------------------- method starts

  /**
   The opening section of a claimed method: None when it throws or returns
   before claiming, otherwise what it does once the claim is taken.
   */
  function BeginFund(w: World, choice: Choice): Option<Section> {
    if choice.pass && (w.rec.state == LightningHeld || w.rec.state == EvmFundingPending)
    then Some(Continue(w, FundQuery))
    else None
  }

  function BeginSettle(c: Config, w: World, tx: TxHash): Option<Section> {
    var s := w.rec.state;
    if c.confirmations == None || RefundPath(s) || s == LightningSettled || s == Completed || s == DestinationPending
    then None
    else Some(Continue(w, SettleGate(tx, s)))
  }

  predicate Claimable(s: SwapState) {
    s == EvmFunded || s == EvmClaimConfirmed || s == LightningSettlementPending || s == Claiming
  }

  function BeginClaim(c: Config, w: World, choice: Choice): Option<Section> {
    if c.confirmations == None || !Claimable(w.rec.state) || !choice.pass then None
    else Some(Continue(Put(w, w.rec.(state := Claiming)), ClaimObserve))
  }

  predicate AlreadyClaimedState(s: SwapState) {
    s == Claiming || s == EvmClaimConfirmed || s == LightningSettled || s == DestinationPending || s == Completed
  }

  predicate Refundable(s: SwapState) {
    s == EvmFunded || s == RefundEligible || s == EvmRefundPending || s == EvmRefundConfirmed
    || s == LightningCancelPending
  }

  function BeginRefund(c: Config, w: World): Option<Section> {
    var s := w.rec.state;
    if s == SwapRefunded || AlreadyClaimedState(s) then None
    else if s == InvoiceCreated then Some(Continue(w, ExpireCancel))
    else if s == LightningHeld then Some(Continue(w, HeldObserve))
    else if Refundable(s) && c.confirmations.Some? then Some(Continue(w, RefundObserve))
    else Some(Finish(w))
  }

  function BeginReconcile(w: World): Option<Section> {
    if Terminal(w.rec.state) then None else Some(Continue(w, ReconcileLightning(w.rec.state)))
  }

  function Begin(c: Config, w: World, call: Call, choice: Choice): Option<Section>
    requires !call.DetectHold? && !call.ConfirmDelivery?
  {
    match call
    case Fund => BeginFund(w, choice)
    case SettleFromClaim(tx) => BeginSettle(c, w, tx)
    case ClaimForClient => BeginClaim(c, w, choice)
    case ProcessRefund => BeginRefund(c, w)
    case Reconcile => BeginReconcile(w)
  }

  /** A method called from inside `reconcileSwap` by the same worker: a refusal ends the reconciliation. */
  function Nested(w: World, begin: Option<Section>): Section {
    match begin
    case None => Finish(w)
    case Some(s) => s
  }

  function ConfirmBaseDelivery(w: World): World {
    if w.rec.state == DestinationPending || w.rec.state == LightningSettled
    then Put(w, w.rec.(state := Completed))
    else w
  }

  function StartDetectHold(w: World, id: Worker): World {
    if w.rec.state == InvoiceCreated || w.rec.state == PlanPrepared then w.(frames := w.frames[id := HoldQuery]) else w
  }

  predicate ClaimFree(w: World, id: Worker) { w.claim == None || w.claim == Some(id) }

  /** Reading the row and taking the claim is one step, because nothing is awaited in between. */
  function StartCall(c: Config, w: World, id: Worker, call: Call, choice: Choice): World {
    if id in w.frames then w
    else if call.DetectHold? then StartDetectHold(w, id)
    else if call.ConfirmDelivery? then ConfirmBaseDelivery(w)
    else
      match Begin(c, w.(claim := Some(id)), call, choice)
      case None => w
      case Some(s) => if ClaimFree(w, id) then Apply(id, s) else w
  }

  // ------------------------------------------- onLightningHoldDetected, fundEvmHtlc

  function AdvanceHold(w: World, id: Worker, f: Frame, choice: Choice): World
    requires !Holding(f)
  {
    match f
    case HoldQuery =>
      if choice.fault == NoFault && w.ln == Accepted then w.(frames := w.frames[id := HoldObserve]) else Stop(w, id)
    case HoldObserve => w.(frames := w.frames[id := HoldWrite])
    case HoldWrite => Stop(Put(w, w.rec.(state := LightningHeld)), id)
  }

  /** Frames of methods that hold the action claim while they are suspended. */
  predicate Holding(f: Frame) { !f.HoldQuery? && !f.HoldObserve? && !f.HoldWrite? }

  predicate IsFund(f: Frame) {
    f.FundQuery? || f.FundChecks? || f.FundPersist? || f.FundDispatch? || f.FundRecheck? || f.FundCommit?
    || f.FundRecord?
  }

  function FundSection(c: Config, w: World, f: Frame, choice: Choice): Section
    requires IsFund(f)
  {
    match f
    case FundQuery =>
      if choice.fault == NoFault && w.ln == Accepted then Continue(w, FundChecks) else Finish(w)
    case FundChecks =>
      if w.rec.reservationStatus == Reserved && choice.pass && choice.fault == NoFault
      then Continue(w, FundPersist(w.now + c.timelockSeconds))
      else Finish(w)
    case FundPersist(lock) =>
      Continue(Put(w, w.rec.(state := EvmFundingPending, refundLocktime := Some(lock))), FundDispatch(lock))
    case FundDispatch(lock) =>
      var e := FundHtlc(ChainOf(w), lock);
      Continue(CallChain(w, e, choice.fault),
           if Returned(e, choice.fault) then FundCommit(lock, true) else FundRecheck(lock))
    case FundRecheck(lock) =>
      if choice.fault == NoFault && w.htlc != Empty then Continue(w, FundCommit(lock, w.rec.htlcId)) else Finish(w)
    case FundCommit(lock, idKnown) =>
      (match R.Commit(w.reservation)
       case None => Finish(w)
       case Some(status) => Continue(WithReservation(w, status), FundRecord(lock, idKnown)))
    case FundRecord(lock, idKnown) =>
      Finish(Put(w, w.rec.(state := EvmFunded, reservationStatus := Committed, refundLocktime := Some(lock),
                        htlcId := idKnown || w.rec.htlcId)))
  }

  // --------------------------------------- settleLightningFromEvmClaim, claimSwap

  predicate IsSettle(f: Frame) {
    f.SettleGate? || f.SettleEvidence? || f.SettleMark? || f.SettleDispatch? || f.SettleRecheck? || f.SettleRecord?
  }

  predicate Settleable(s: SwapState) {
    s == EvmFunded || s == EvmClaimDetected || s == EvmClaimConfirmed || s == LightningSettlementPending
  }

  function SettleSection(c: Config, w: World, f: Frame, choice: Choice): Section
    requires IsSettle(f)
  {
    match f
    case SettleGate(tx, seen) =>
      var view := if choice.live then w.rec.state else seen;
      if choice.pass && choice.fault == NoFault && Settleable(view) && w.rec.htlcId
      then Continue(w, SettleEvidence(tx))
      else Finish(w)
    case SettleEvidence(tx) =>
      if c.confirmations.Some? && choice.pass && choice.fault == NoFault
         && ClaimEvidenceFinal(ChainOf(w), tx, c.confirmations.value)
      then Continue(w, SettleMark(tx))
      else if c.confirmations.Some? && RefundEvidenceFinal(ChainOf(w), tx, c.confirmations.value)
      then Finish(w.(rec := w.rec.(recoveryRequired := true)))
      else Finish(w)
    case SettleMark(tx) =>
      var w1 := Put(w, w.rec.(state := EvmClaimConfirmed, claimTx := Some(tx)));
      Continue(Put(w1, w1.rec.(state := LightningSettlementPending)), SettleDispatch)
    case SettleDispatch =>
      var e := SettleInvoice(w.ln);
      Continue(CallLightning(w, e, choice.fault),
           if Returned(e, choice.fault) then SettleRecord else SettleRecheck)
    case SettleRecheck =>
      if choice.fault == NoFault && w.ln == Settled then Continue(w, SettleRecord)
      else if choice.fault == NoFault && w.ln == Canceled then Finish(w.(rec := w.rec.(recoveryRequired := true)))
      else Finish(w)
    case SettleRecord =>
      Finish(Put(w, w.rec.(state := DestinationPending)))
  }

  predicate IsClaim(f: Frame) {
    f.ClaimObserve? || f.ClaimDispatch? || f.ClaimEvidence? || f.ClaimSettle? || f.ClaimRecord?
  }

  function ClaimSection(c: Config, w: World, f: Frame, choice: Choice): Section
    requires IsClaim(f)
  {
    match f
    case ClaimObserve =>
      if choice.fault != NoFault then Finish(w)
      else if w.htlc.Claimed? then
        Continue(w, ClaimEvidence(if w.rec.claimTx.Some? then w.rec.claimTx.value else Preclaimed))
      else Continue(w, ClaimDispatch)
    case ClaimDispatch =>
      var e := ClaimHtlc(ChainOf(w));
      var w1 := CallChain(w, e, choice.fault);
      if Returned(e, choice.fault) then Continue(w1, ClaimEvidence(e.state.htlc.tx)) else Finish(w1)
    case ClaimEvidence(tx) =>
      if tx == Preclaimed
         || (c.confirmations.Some? && choice.pass && choice.fault == NoFault
             && ClaimEvidenceFinal(ChainOf(w), tx, c.confirmations.value))
      then Continue(w, ClaimSettle(tx))
      else Finish(w)
    case ClaimSettle(tx) =>
      var e := SettleInvoice(w.ln);
      var w1 := CallLightning(w, e, choice.fault);
      if Returned(e, choice.fault) then Continue(w1, ClaimRecord(tx)) else Finish(w1)
    case ClaimRecord(tx) =>
      Finish(Put(w, w.rec.(state := DestinationPending, claimTx := Some(tx))))
  }

  // ---------------------------------------------------------- processRefund

  predicate IsUnfunded(f: Frame) {
    f.ExpireCancel? || f.ExpireRecord? || f.HeldObserve? || f.HeldCancel? || f.HeldRecord?
  }

  /** The release of an unfunded swap: only a RESERVED reservation is released; the row always says RELEASED. */
  function ReleaseUnfunded(w: World, state: SwapState): World {
    var w1 := if w.rec.reservationStatus == Reserved && R.Release(w.reservation).Some?
              then WithReservation(w, Released) else w;
    Put(w1, w1.rec.(state := state, reservationStatus := Released))
  }

  function UnfundedSection(w: World, f: Frame, choice: Choice): Section
    requires IsUnfunded(f)
  {
    match f
    case ExpireCancel =>
      var e := CancelInvoice(w.ln);
      var w1 := CallLightning(w, e, choice.fault);
      if Returned(e, choice.fault) then Continue(w1, ExpireRecord) else Finish(w1)
    case ExpireRecord => Finish(ReleaseUnfunded(w, Expired))
    case HeldObserve =>
      if choice.fault == NoFault && w.htlc == Empty then Continue(w, HeldCancel) else Finish(w)
    case HeldCancel =>
      var e := CancelInvoice(w.ln);
      var w1 := CallLightning(w, e, choice.fault);
      if Returned(e, choice.fault) then Continue(w1, HeldRecord) else Finish(w1)
    case HeldRecord => Finish(ReleaseUnfunded(w, InvoiceCanceled))
  }

  predicate IsRefund(f: Frame) {
    f.RefundObserve? || f.RefundDecide? || f.RefundDispatch? || f.RefundRecheck? || f.RefundConfirm?
    || f.RefundVerify? || f.RefundMark? || f.RefundCancel? || f.RefundCancelRecheck? || f.RefundRestore?
  }

  /** Restores the reservation of a refunded swap and writes the terminal row, or escalates. */
  function FinishRefund(w: World): World {
    match R.RestoreRefund(w.reservation)
    case None => MarkRecovery(w)
    case Some(status) =>
      var w1 := WithReservation(w, status);
      Put(w1, w1.rec.(state := SwapRefunded, reservationStatus := Released))
  }

  function RefundSection(c: Config, w: World, f: Frame, choice: Choice): Section
    requires IsRefund(f)
  {
    match f
    case RefundObserve =>
      if choice.fault == NoFault then Continue(w, RefundDecide(w.htlc, w.now)) else Finish(w)
    case RefundDecide(seen, timestamp) =>
      if seen.Claimed? then Finish(Put(w, w.rec.(state := EvmClaimConfirmed)))
      else if seen.Refunded? then Continue(w, RefundVerify)
      else if seen.Locked? && timestamp < seen.lock then Finish(w)
      else Continue(Put(w, w.rec.(state := EvmRefundPending)), RefundDispatch)
    case RefundDispatch =>
      var e := RefundHtlc(ChainOf(w), w.now);
      Continue(CallChain(w, e, choice.fault),
           if Returned(e, choice.fault) then RefundConfirm(e.state.htlc.tx) else RefundRecheck)
    case RefundRecheck =>
      if choice.fault == NoFault && w.htlc.Refunded? then Continue(w, RefundConfirm(ReconciledRefund)) else Finish(w)
    case RefundConfirm(tx) =>
      Continue(Put(w, w.rec.(state := EvmRefundConfirmed, refundTx := Some(tx))), RefundVerify)
    case RefundVerify =>
      if w.rec.refundTx.None? || w.rec.refundTx == Some(ReconciledRefund)
         || (c.confirmations.Some? && choice.pass && choice.fault == NoFault
             && RefundEvidenceFinal(ChainOf(w), w.rec.refundTx.value, c.confirmations.value))
      then Continue(w, RefundMark)
      else Finish(w)
    case RefundMark =>
      Continue(Put(w, w.rec.(state := LightningCancelPending)), RefundCancel)
    case RefundCancel =>
      var e := CancelInvoice(w.ln);
      Continue(CallLightning(w, e, choice.fault),
           if Returned(e, choice.fault) then RefundRestore else RefundCancelRecheck)
    case RefundCancelRecheck =>
      if choice.fault == NoFault && w.ln == Canceled then Continue(w, RefundRestore)
      else if choice.fault == NoFault && w.ln == Settled then Finish(w.(rec := w.rec.(recoveryRequired := true)))
      else Finish(w)
    case RefundRestore => Finish(FinishRefund(w))
  }

  // ---------------------------------------------------------- reconcileSwap

  function ObserveLightning(ln: Lightning, fault: Fault): LnObservation {
    if fault != NoFault then LnUnknown else if ln == Absent then LnNotFound else LnFound(ln)
  }

  function ObserveEvm(w: World, fault: Fault): EvmObservation {
    if fault != NoFault then EvmUnknown else EvmSeen(w.htlc, w.now)
  }

  predicate GoneOrCanceled(ln: LnObservation) { ln == LnNotFound || ln == LnFound(Canceled) }

  function Escalate(w: World): Section { Finish(MarkRecovery(w)) }

  /** Lightning is already settled: complete if Base is claimed, escalate otherwise. */
  function DecideSettled(w: World, h: Htlc): Section {
    if !h.Claimed? then Escalate(w)
    else
      match R.Settle(w.reservation)
      case None => Escalate(w)
      case Some(status) =>
        var w1 := WithReservation(w, status);
        Finish(Put(w1, w1.rec.(state := Completed, reservationStatus := ReservationSettled, recoveryRequired := false)))
  }

  /** Base is claimed and Lightning is not settled. */
  function DecideClaimed(c: Config, w: World, ln: LnObservation): Section {
    if ln != LnFound(Accepted) then Escalate(w)
    else if w.rec.claimTx.Some? then
      if w.rec.settleRetries >= c.maxRetries then Escalate(w)
      else
        var w1 := w.(rec := w.rec.(settleRetries := w.rec.settleRetries + 1, retries := w.rec.retries + 1));
        Nested(w1, BeginSettle(c, w1, w.rec.claimTx.value))
    else
      match CommitAndAdvance(w)
      case None => Escalate(w)
      case Some(w1) =>
        Finish(Put(w1, w1.rec.(state := EvmClaimDetected, reservationStatus := Committed, recoveryRequired := true)))
  }

  /** Base is refunded and Lightning is not settled. */
  function DecideRefunded(c: Config, w: World, ln: LnObservation): Section {
    if ln == LnFound(Open) || ln == LnFound(Accepted) then
      if w.rec.cancelRetries >= c.maxRetries then Escalate(w)
      else
        Continue(w.(rec := w.rec.(cancelRetries := w.rec.cancelRetries + 1, retries := w.rec.retries + 1)),
                 ReconcileCancel)
    else if GoneOrCanceled(ln) then Finish(FinishReconciledRefund(w))
    else Finish(w)
  }

  function FinishReconciledRefund(w: World): World {
    match R.RestoreRefund(w.reservation)
    case None => MarkRecovery(w)
    case Some(status) =>
      var w1 := WithReservation(w, status);
      Put(w1, w1.rec.(state := SwapRefunded, reservationStatus := Released, recoveryRequired := false))
  }

  /** Base is locked: refund once the timelock has passed, otherwise wait for the claim. */
  function DecideLocked(c: Config, w: World, ln: LnObservation, lock: int, timestamp: int): Section {
    if ln != LnFound(Accepted) then Escalate(w)
    else if timestamp >= lock then
      if w.rec.refundRetries >= c.maxRetries then Escalate(w)
      else
        var w1 := w.(rec := w.rec.(refundRetries := w.rec.refundRetries + 1, retries := w.rec.retries + 1));
        Nested(w1, BeginRefund(c, w1))
    else
      match CommitAndAdvance(w)
      case None => Escalate(w)
      case Some(w1) =>
        Finish(Put(w1, w1.rec.(state := EvmFunded, reservationStatus := Committed, recoveryRequired := false)))
  }

  function RetryFunding(c: Config, w: World, choice: Choice): Section {
    if w.rec.fundRetries >= c.maxRetries then Escalate(w)
    else
      var w1 := w.(rec := w.rec.(fundRetries := w.rec.fundRetries + 1, retries := w.rec.retries + 1));
      Nested(w1, BeginFund(w1, choice))
  }

  /** Base holds no HTLC for this swap. `view` is the record state the method still sees. */
  function DecideAbsent(c: Config, w: World, ln: LnObservation, view: SwapState, choice: Choice): Section {
    if view == EvmFundingPending && !choice.pass then Escalate(w)
    else if ln == LnFound(Open) && (view == PlanPrepared || view == InvoiceCreated || view == RecoveryRequired) then
      Finish(Put(w, w.rec.(state := InvoiceCreated, recoveryRequired := false)))
    else if ln == LnFound(Accepted) && (view == PlanPrepared || view == InvoiceCreated) then
      RetryFunding(c, Put(w, w.rec.(state := LightningHeld, recoveryRequired := false)), choice)
    else if ln == LnFound(Accepted) then
      if view == LightningHeld then RetryFunding(c, w, choice) else Escalate(w)
    else if GoneOrCanceled(ln) then Finish(FinishCanceled(w))
    else Finish(w)
  }

  function FinishCanceled(w: World): World {
    match R.Release(w.reservation)
    case None => MarkRecovery(w)
    case Some(status) =>
      var w1 := WithReservation(w, status);
      Put(w1, w1.rec.(state := InvoiceCanceled, reservationStatus := Released, recoveryRequired := false))
  }

  function Decide(c: Config, w: World, seen: SwapState, ln: LnObservation, evm: EvmObservation,
                  choice: Choice): Section
  {
    if ln.LnUnknown? || evm.EvmUnknown? then Escalate(w)
    else if ln == LnFound(Settled) then DecideSettled(w, evm.htlc)
    else
      match evm.htlc
      case Claimed(_, _, _) => DecideClaimed(c, w, ln)
      case Refunded(_, _, _) => DecideRefunded(c, w, ln)
      case Locked(lock) => DecideLocked(c, w, ln, lock, evm.timestamp)
      case Empty => DecideAbsent(c, w, ln, if choice.live then w.rec.state else seen, choice)
  }

  predicate IsReconcile(f: Frame) {
    f.ReconcileLightning? || f.ReconcileEvm? || f.ReconcileDecide? || f.ReconcileCancel? || f.ReconcileReobserve?
    || f.ReconcileRestore?
  }

  function ReconcileSection(c: Config, w: World, f: Frame, choice: Choice): Section
    requires IsReconcile(f)
  {
    match f
    case ReconcileLightning(seen) => Continue(w, ReconcileEvm(seen, ObserveLightning(w.ln, choice.fault)))
    case ReconcileEvm(seen, ln) => Continue(w, ReconcileDecide(seen, ln, ObserveEvm(w, choice.fault)))
    case ReconcileDecide(seen, ln, evm) => Decide(c, w, seen, ln, evm, choice)
    case ReconcileCancel =>
      var e := CancelInvoice(w.ln);
      Continue(CallLightning(w, e, choice.fault),
           if Returned(e, choice.fault) then ReconcileRestore else ReconcileReobserve)
    case ReconcileReobserve =>
      if choice.fault == NoFault && w.ln == Canceled then Continue(w, ReconcileRestore) else Escalate(w)
    case ReconcileRestore => Finish(FinishReconciledRefund(w))
  }

  // ------------------------------------------------------------------- steps

  function ClaimedSection(c: Config, w: World, f: Frame, choice: Choice): Section
    requires Holding(f)
  {
    if IsFund(f) then FundSection(c, w, f, choice)
    else if IsSettle(f) then SettleSection(c, w, f, choice)
    else if IsClaim(f) then ClaimSection(c, w, f, choice)
    else if IsUnfunded(f) then UnfundedSection(w, f, choice)
    else if IsRefund(f) then RefundSection(c, w, f, choice)
    else ReconcileSection(c, w, f, choice)
  }

  function AdvanceFrame(c: Config, w: World, id: Worker, f: Frame, choice: Choice): World {
    if Holding(f) then Apply(id, ClaimedSection(c, w, f, choice)) else AdvanceHold(w, id, f, choice)
  }

  /** A lease may lapse only once its owner is no longer inside a claimed method. */
  predicate LeaseLapsed(w: World) {
    w.claim.Some? && (w.claim.value !in w.frames || !Holding(w.frames[w.claim.value]))
  }

  function Step(c: Config, w: World, e: Event): World {
    match e
    case PayerPays => w.(ln := HoldPayment(w.ln).state)
    case ClientClaims => WithChain(w, ClaimHtlc(ChainOf(w)).state)
    case TimePasses(seconds, blocks) => w.(now := w.now + seconds, block := w.block + blocks)
    case LeaseExpires => if LeaseLapsed(w) then w.(claim := None) else w
    case Crash(id) => Stop(w, id)
    case Start(id, call, choice) => StartCall(c, w, id, call, choice)
    case Advance(id, choice) => if id in w.frames then AdvanceFrame(c, w, id, w.frames[id], choice) else w
  }

  function Run(c: Config, w: World, events: seq<Event>): World
    decreases |events|
  {
    if events == [] then w else Run(c, Step(c, w, events[0]), events[1..])
  }

  /**
   The states in which `prepareSwap` leaves a swap: planned or created with the
   reservation held, parked after an ambiguous invoice creation, or closed
   because the invoice authoritatively does not exist.
   */
  predicate Init(w: World) {
    && w.htlc == Empty
    && w.claim == None
    && w.frames == map[]
    && w.rec.retries == w.rec.fundRetries == w.rec.settleRetries == w.rec.refundRetries == w.rec.cancelRetries == 0
    && w.rec.claimTx == None && w.rec.refundTx == None
    && w.rec.reservationStatus == w.reservation
    && match w.rec.state
       case InvoiceCreated => w.ln == Open && w.reservation == Reserved
       case PlanPrepared => (w.ln == Open || w.ln == Absent) && w.reservation == Reserved
       case RecoveryRequired => (w.ln == Open || w.ln == Absent) && w.reservation == Reserved
       case InvoiceCanceled => w.ln == Absent && w.reservation == Released
       case _ => false
  }
}
