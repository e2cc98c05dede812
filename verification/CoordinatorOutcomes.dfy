/**
 Where one fault-free call that nothing interrupts takes a reachable swap: the
 whole end state, cell by cell of the two rails, and for `reconcileSwap` exactly
 the states it parks for an operator.
 */
module CoordinatorOutcomes {
  import opened Wrappers
  import opened SwapTypes
  import opened Rails
  import opened CoordinatorSteps
  import opened CoordinatorSafety
  import opened CoordinatorTheorems
  import opened CoordinatorConvergence
  import opened CoordinatorRaces
  import opened CoordinatorEvidence

  // ------------------------------------------------------------------ reconcileSwap

  /** A reachable open swap that nobody is working on. */
  ghost predicate Idle(c: Config, w: World, id: Worker) {
    Reachable(c, w) && !Over(w.rec.state) && id !in w.frames && (w.claim == None || w.claim == Some(id))
  }

  predicate Over(s: SwapState) { s in {Completed, SwapRefunded, InvoiceCanceled, Expired} }

  /** A closed swap is left alone. */
  lemma ClosedStaysClosed(c: Config, w: World, id: Worker)
    requires Free(c, w, id) && Over(w.rec.state)
    ensures SoloCall(c, w, id, Reconcile) == w
  {
    NothingStarts(c, w, id, Reconcile);
  }

  function DecisionFrame(w: World): Frame {
    ReconcileDecide(w.rec.state, ObserveLightning(w.ln, NoFault), EvmSeen(w.htlc, w.now))
  }

  lemma LightningObserved(c: Config, w: World, id: Worker, s: SwapState, n: nat)
    requires n >= 1 && id !in w.frames
    ensures Drain(c, At(w, id, ReconcileLightning(s)), id, n)
         == Drain(c, At(w, id, ReconcileEvm(s, ObserveLightning(w.ln, NoFault))), id, n - 1)
  {
    hide Drain, Step, Decide, FundSection, SettleSection, ClaimSection, UnfundedSection, RefundSection;
    DrainContinue(c, w, id, ReconcileLightning(s), w, ReconcileEvm(s, ObserveLightning(w.ln, NoFault)), n);
  }

  lemma BaseObserved(c: Config, w: World, id: Worker, s: SwapState, o: LnObservation, n: nat)
    requires n >= 1 && id !in w.frames
    ensures Drain(c, At(w, id, ReconcileEvm(s, o)), id, n)
         == Drain(c, At(w, id, ReconcileDecide(s, o, EvmSeen(w.htlc, w.now))), id, n - 1)
  {
    hide Drain, Step, Decide, FundSection, SettleSection, ClaimSection, UnfundedSection, RefundSection;
    DrainContinue(c, w, id, ReconcileEvm(s, o), w, ReconcileDecide(s, o, EvmSeen(w.htlc, w.now)), n);
  }

  lemma DecisionReached(c: Config, w: World, id: Worker)
    requires id !in w.frames && ClaimFree(w, id) && !Terminal(w.rec.state)
    ensures SoloCall(c, w, id, Reconcile) == Drain(c, At(w, id, DecisionFrame(w)), id, LongestCall - 2)
  {
    hide Drain, Step, At, ObserveLightning;
    ReconcileStarts(c, w, id);
    LightningObserved(c, w, id, w.rec.state, LongestCall);
    BaseObserved(c, w, id, w.rec.state, ObserveLightning(w.ln, NoFault), LongestCall - 1);
  }

  /** A decision that ends the method. */
  lemma DecisionEnds(c: Config, w: World, id: Worker, w': World)
    requires id !in w.frames && ClaimFree(w, id) && !Terminal(w.rec.state) && id !in w'.frames
    requires var o := ObserveLightning(w.ln, NoFault);
      Decide(c, At(w, id, DecisionFrame(w)), w.rec.state, o, EvmSeen(w.htlc, w.now), Smooth)
        == Finish(At(w', id, DecisionFrame(w)))
    ensures SoloCall(c, w, id, Reconcile) == w'.(claim := None)
  {
    hide Drain, Step, Decide, FundSection, SettleSection, ClaimSection, UnfundedSection, RefundSection;
    DecisionReached(c, w, id);
    DrainFinish(c, w, id, DecisionFrame(w), w', LongestCall - 2);
  }

  /** A decision that hands over. */
  lemma DecisionGoesOn(c: Config, w: World, id: Worker, w': World, f: Frame)
    requires id !in w.frames && ClaimFree(w, id) && !Terminal(w.rec.state)
    requires var o := ObserveLightning(w.ln, NoFault);
      Decide(c, At(w, id, DecisionFrame(w)), w.rec.state, o, EvmSeen(w.htlc, w.now), Smooth)
        == Continue(At(w', id, DecisionFrame(w)), f)
    ensures SoloCall(c, w, id, Reconcile) == Drain(c, At(w', id, f), id, LongestCall - 3)
  {
    hide Drain, Step, Decide, FundSection, SettleSection, ClaimSection, UnfundedSection, RefundSection;
    DecisionReached(c, w, id);
    DrainContinue(c, w, id, DecisionFrame(w), w', f, LongestCall - 2);
  }

  // ------------------------------------------------------ Base locked

  /**
   Locked and held before the timelock: recovery waits for the claim. The
   reservation is committed, the row says EVM_FUNDED and nothing else changes.
   */
  lemma WaitsBeforeTimelock(c: Config, w: World, id: Worker)
    requires Idle(c, w, id) && w.htlc.Locked? && w.now < w.htlc.lock
    ensures SoloCall(c, w, id, Reconcile)
         == w.(claim := None, reservation := Committed,
               rec := w.rec.(state := EvmFunded, reservationStatus := Committed, recoveryRequired := false))
  {
    ReachableInv(c, w);
    hide Reachable, WorkersAgree, SoloCall, BeginRefund;
    var end := w.(reservation := Committed,
                  rec := w.rec.(state := EvmFunded, reservationStatus := Committed, recoveryRequired := false));
    DecisionEnds(c, w, id, end);
  }

  lemma ParksWithoutRefundRetry(c: Config, w: World, id: Worker)
    requires Idle(c, w, id) && w.htlc.Locked? && w.now >= w.htlc.lock && w.rec.refundRetries >= c.maxRetries
    ensures SoloCall(c, w, id, Reconcile) == Escalated(w)
  {
    ReachableInv(c, w);
    hide Reachable, WorkersAgree, SoloCall, BeginRefund;
    DecisionEnds(c, w, id, w.(rec := Escalated(w).rec));
  }

  /** The states in which a due refund is really attempted. */
  predicate Refunds(c: Config, w: World) { AwaitsRefund(w.rec.state) && c.confirmations.Some? }

  predicate AwaitsRefund(s: SwapState) {
    s in {EvmFunded, RefundEligible, EvmRefundPending, EvmRefundConfirmed, LightningCancelPending}
  }

  function RefundMined(b: World): World
    requires b.htlc.Locked?
  {
    RefundConfirmed(HtlcRefunded(b), RefundTx(b.block + 1))
  }

  function RefundClosed(r: World): World {
    r.(ln := Canceled, reservation := Released, rec := r.rec.(state := SwapRefunded, reservationStatus := Released))
  }

  /** A refund has two confirmations when its receipt comes in: enough to close both rails, or it waits. */
  function RefundEnd(c: Config, b: World): World
    requires b.htlc.Locked? && c.confirmations.Some?
  {
    if c.confirmations.value <= 2 then RefundClosed(RefundMined(b)) else RefundMined(b)
  }

  lemma VerifiedRefundEnds(c: Config, r: World, id: Worker, n: nat)
    requires n >= 4 && id !in r.frames && r.rec.state == EvmRefundConfirmed && r.htlc.Refunded?
    requires r.rec.refundTx == Some(r.htlc.tx) && r.ln == Accepted && r.reservation == Committed
    requires c.confirmations.Some? && Confirmed(r.block, r.htlc.atBlock, c.confirmations.value)
    ensures Drain(c, At(r, id, RefundVerify), id, n) == RefundClosed(r).(claim := None)
  {
    hide Drain, Step, At;
    DrainToCancel(c, r, id, n);
    DrainToEnd(c, r.(rec := r.rec.(state := LightningCancelPending)), id, n - 2);
  }

  lemma UnverifiedRefundWaits(c: Config, r: World, id: Worker, n: nat)
    requires n >= 1 && id !in r.frames && r.htlc.Refunded? && r.htlc.tx.RefundTx? && r.rec.refundTx == Some(r.htlc.tx)
    requires c.confirmations.Some? && !Confirmed(r.block, r.htlc.atBlock, c.confirmations.value)
    ensures Drain(c, At(r, id, RefundVerify), id, n) == r.(claim := None)
  {
    hide Drain, Step, FundSection, SettleSection, ClaimSection, UnfundedSection, ReconcileSection;
    DrainFinish(c, r, id, RefundVerify, r, n);
  }

  lemma DueRefundEnds(c: Config, b: World, id: Worker, n: nat)
    requires n >= 8 && id !in b.frames && !GuardedState(b.rec.state) && b.htlc.Locked? && b.now >= b.htlc.lock
    requires b.ln == Accepted && b.reservation == Committed && c.confirmations.Some?
    ensures Drain(c, At(b, id, RefundObserve), id, n) == RefundEnd(c, b).(claim := None)
  {
    hide Drain, Step, At;
    DrainFromDue(c, b, id, n);
    if c.confirmations.value <= 2 {
      VerifiedRefundEnds(c, RefundMined(b), id, n - 4);
    } else {
      UnverifiedRefundWaits(c, RefundMined(b), id, n - 4);
    }
  }

  lemma RefundsAfterTimelock(c: Config, w: World, id: Worker)
    requires Idle(c, w, id) && w.htlc.Locked? && w.now >= w.htlc.lock && w.rec.refundRetries < c.maxRetries
    ensures SoloCall(c, w, id, Reconcile)
         == (if Refunds(c, w) then RefundEnd(c, Bumped(w)) else Bumped(w)).(claim := None)
  {
    ReachableInv(c, w);
    hide Reachable, WorkersAgree, SoloCall, Drain;
    var b := Bumped(w);
    if Refunds(c, w) {
      DecisionGoesOn(c, w, id, b, RefundObserve);
      DueRefundEnds(c, b, id, LongestCall - 3);
    } else if w.rec.state == LightningHeld {
      DecisionGoesOn(c, w, id, b, HeldObserve);
      HeldEndsIdle(c, b, id, LongestCall - 3);
    } else {
      DecisionEnds(c, w, id, b);
    }
  }

  lemma HeldEndsIdle(c: Config, b: World, id: Worker, n: nat)
    requires n > 0 && id !in b.frames && b.htlc != Empty
    ensures Drain(c, At(b, id, HeldObserve), id, n) == b.(claim := None)
  {
    hide Drain, FundSection, SettleSection, ClaimSection, RefundSection, ReconcileSection;
    DrainFinish(c, b, id, HeldObserve, b, n);
  }

  // ------------------------------------------------------ Base claimed

  /** Both rails are done: the swap is complete and its reservation settled. */
  lemma CompletesWhenBothDone(c: Config, w: World, id: Worker)
    requires Idle(c, w, id) && w.htlc.Claimed? && w.ln == Settled
    ensures SoloCall(c, w, id, Reconcile)
         == w.(claim := None, reservation := ReservationSettled,
               rec := w.rec.(state := Completed, reservationStatus := ReservationSettled, recoveryRequired := false))
  {
    ReachableInv(c, w);
    hide Reachable, WorkersAgree, SoloCall;
    DecisionEnds(c, w, id, w.(reservation := ReservationSettled,
                              rec := w.rec.(state := Completed, reservationStatus := ReservationSettled,
                                            recoveryRequired := false)));
  }

  /** A claim whose transaction the row does not know yet is recorded and flagged. */
  lemma DetectsUnknownClaim(c: Config, w: World, id: Worker)
    requires Idle(c, w, id) && w.htlc.Claimed? && w.ln == Accepted && w.rec.claimTx == None
    ensures SoloCall(c, w, id, Reconcile)
         == w.(claim := None, reservation := Committed,
               rec := w.rec.(state := EvmClaimDetected, reservationStatus := Committed, recoveryRequired := true))
  {
    ReachableInv(c, w);
    hide Reachable, WorkersAgree, SoloCall, BeginSettle;
    DecisionEnds(c, w, id, w.(reservation := Committed,
                              rec := w.rec.(state := EvmClaimDetected, reservationStatus := Committed,
                                            recoveryRequired := true)));
  }

  lemma ParksWithoutSettleRetry(c: Config, w: World, id: Worker)
    requires Idle(c, w, id) && w.htlc.Claimed? && w.ln == Accepted
    requires w.rec.claimTx.Some? && w.rec.settleRetries >= c.maxRetries
    ensures SoloCall(c, w, id, Reconcile) == Escalated(w)
  {
    ReachableInv(c, w);
    hide Reachable, WorkersAgree, SoloCall, BeginSettle;
    DecisionEnds(c, w, id, w.(rec := Escalated(w).rec));
  }

  predicate AwaitsSettlement(s: SwapState) {
    s in {EvmFunded, EvmClaimDetected, EvmClaimConfirmed, LightningSettlementPending}
  }

  /** The row is ready to settle on this transaction, and the transaction is the final claim of the HTLC. */
  predicate SettlesOn(c: Config, w: World, tx: TxHash) {
    && c.confirmations.Some? && AwaitsSettlement(w.rec.state) && w.rec.htlcId
    && w.htlc.Claimed? && w.htlc.tx == tx && Confirmed(w.block, w.htlc.atBlock, c.confirmations.value)
  }

  function LightningSettledBy(w: World, tx: TxHash): World {
    w.(ln := Settled, rec := w.rec.(state := DestinationPending, claimTx := Some(tx)))
  }

  function SettlementMarked(b: World, tx: TxHash): World {
    b.(rec := b.rec.(state := LightningSettlementPending, claimTx := Some(tx)))
  }

  lemma SettlementMarks(c: Config, b: World, id: Worker, tx: TxHash, n: nat)
    requires n >= 1 && id !in b.frames && AwaitsSettlement(b.rec.state)
    ensures Drain(c, At(b, id, SettleMark(tx)), id, n)
         == Drain(c, At(SettlementMarked(b, tx), id, SettleDispatch), id, n - 1)
  {
    hide Drain, Step, FundSection, ClaimSection, UnfundedSection, RefundSection, ReconcileSection;
    DrainContinue(c, b, id, SettleMark(tx), SettlementMarked(b, tx), SettleDispatch, n);
  }

  lemma SettlementEnds(c: Config, b: World, id: Worker, tx: TxHash, n: nat)
    requires n >= 5 && id !in b.frames && SettlesOn(c, b, tx) && (b.ln == Accepted || b.ln == Settled)
    ensures Drain(c, At(b, id, SettleGate(tx, b.rec.state)), id, n) == LightningSettledBy(b, tx).(claim := None)
  {
    hide Drain, Step, At;
    DrainToMark(c, b, id, n);
    SettlementMarks(c, b, id, tx, n - 2);
    SettlementDispatched(c, SettlementMarked(b, tx), id, n - 3);
  }

  lemma SettlementDispatched(c: Config, m: World, id: Worker, n: nat)
    requires n >= 2 && id !in m.frames && !GuardedState(m.rec.state) && (m.ln == Accepted || m.ln == Settled)
    ensures Drain(c, At(m, id, SettleDispatch), id, n)
         == m.(ln := Settled, claim := None, rec := m.rec.(state := DestinationPending))
  {
    hide Drain, Step, FundSection, ClaimSection, UnfundedSection, RefundSection, ReconcileSection;
    var p := m.(ln := Settled);
    DrainContinue(c, m, id, SettleDispatch, p, SettleRecord, n);
    DrainFinish(c, p, id, SettleRecord, p.(rec := p.rec.(state := DestinationPending)), n - 1);
  }

  /** Final evidence of a refund where a claim was expected calls for recovery; nothing else is written. */
  function SettlementRefused(c: Config, b: World, tx: TxHash): World {
    if c.confirmations.Some? && AwaitsSettlement(b.rec.state) && b.rec.htlcId
       && b.htlc.Refunded? && b.htlc.tx == tx && Confirmed(b.block, b.htlc.atBlock, c.confirmations.value)
    then b.(rec := b.rec.(recoveryRequired := true))
    else b
  }

  lemma RefusedSettlementEnds(c: Config, b: World, id: Worker, tx: TxHash, n: nat)
    requires n >= 2 && id !in b.frames && !SettlesOn(c, b, tx) && c.confirmations.Some?
    ensures Drain(c, At(b, id, SettleGate(tx, b.rec.state)), id, n) == SettlementRefused(c, b, tx).(claim := None)
  {
    hide Drain, Step, FundSection, ClaimSection, UnfundedSection, RefundSection, ReconcileSection;
    var gate := SettleGate(tx, b.rec.state);
    if AwaitsSettlement(b.rec.state) && b.rec.htlcId {
      DrainContinue(c, b, id, gate, b, SettleEvidence(tx), n);
      DrainFinish(c, b, id, SettleEvidence(tx), SettlementRefused(c, b, tx), n - 1);
    } else {
      DrainFinish(c, b, id, gate, b, n);
    }
  }

  function SettleEnd(c: Config, b: World, tx: TxHash): World {
    if SettlesOn(c, b, tx) then LightningSettledBy(b, tx) else SettlementRefused(c, b, tx)
  }

  lemma SettlementAttemptEnds(c: Config, b: World, id: Worker, tx: TxHash, n: nat)
    requires n >= 5 && id !in b.frames && c.confirmations.Some?
    requires b.htlc.Claimed? ==> b.ln == Accepted || b.ln == Settled
    ensures Drain(c, At(b, id, SettleGate(tx, b.rec.state)), id, n) == SettleEnd(c, b, tx).(claim := None)
  {
    hide Drain, At, SettlementRefused, LightningSettledBy;
    if SettlesOn(c, b, tx) { SettlementEnds(c, b, id, tx, n); } else { RefusedSettlementEnds(c, b, id, tx, n); }
  }

  /** A known claim is settled if it is final and the row is ready; otherwise only the attempt is counted. */
  lemma SettlesKnownClaim(c: Config, w: World, id: Worker)
    requires Idle(c, w, id) && w.htlc.Claimed? && w.ln == Accepted
    requires w.rec.claimTx.Some? && w.rec.settleRetries < c.maxRetries
    ensures var b := SettleCounted(w); var tx := w.rec.claimTx.value;
      SoloCall(c, w, id, Reconcile) == (if SettlesOn(c, b, tx) then LightningSettledBy(b, tx) else b).(claim := None)
  {
    ReachableInv(c, w);
    hide Reachable, WorkersAgree, SoloCall, Drain, CommitAndAdvance;
    var b := SettleCounted(w);
    var tx := w.rec.claimTx.value;
    if BeginSettle(c, b, tx).Some? {
      DecisionGoesOn(c, w, id, b, SettleGate(tx, b.rec.state));
      SettlementAttemptEnds(c, b, id, tx, LongestCall - 3);
    } else {
      DecisionEnds(c, w, id, b);
    }
  }

  // ------------------------------------------------------ Base refunded

  function BothRefunded(w: World): World {
    w.(ln := Canceled, reservation := Released,
       rec := w.rec.(state := SwapRefunded, reservationStatus := Released, recoveryRequired := false))
  }

  lemma RecoveryClosesBoth(k: World)
    requires k.htlc.Refunded? && k.reservation != ReservationSettled && !GuardedState(k.rec.state)
    ensures RecoveryCanceled(k) == BothRefunded(k).(claim := None)
  {
  }

  lemma ClosesCanceled(c: Config, w: World, id: Worker)
    requires Idle(c, w, id) && w.htlc.Refunded? && w.ln == Canceled
    ensures SoloCall(c, w, id, Reconcile) == BothRefunded(w).(claim := None)
  {
    ReachableInv(c, w);
    hide Reachable, WorkersAgree, SoloCall;
    DecisionEnds(c, w, id, BothRefunded(w));
  }

  lemma ClosesHeld(c: Config, w: World, id: Worker)
    requires Idle(c, w, id) && w.htlc.Refunded? && w.ln == Accepted
    ensures SoloCall(c, w, id, Reconcile)
         == if w.rec.cancelRetries < c.maxRetries then BothRefunded(CancelCounted(w)).(claim := None) else Escalated(w)
  {
    ReachableInv(c, w);
    hide Reachable, Drain, Step, At, RecoveryCanceled, BothRefunded;
    DrainToDecision(c, w, id, LongestCall);
    RefundedDecision(c, w, id, LongestCall - 2);
    RecoveryClosesBoth(CancelCounted(w));
  }

  /** A refunded HTLC closes Lightning, the reservation and the row, unless no cancel retry is left. */
  lemma ClosesAfterRefund(c: Config, w: World, id: Worker)
    requires Idle(c, w, id) && w.htlc.Refunded?
    ensures SoloCall(c, w, id, Reconcile)
         == if w.ln == Canceled then BothRefunded(w).(claim := None)
            else if w.rec.cancelRetries < c.maxRetries then BothRefunded(CancelCounted(w)).(claim := None)
            else Escalated(w)
  {
    ReachableInv(c, w);
    hide Reachable, SoloCall, BothRefunded;
    if w.ln == Canceled { ClosesCanceled(c, w, id); } else { ClosesHeld(c, w, id); }
  }

  // ------------------------------------------------------ Base empty

  /** Nothing on Base and no invoice: the swap is over and its reservation free. */
  lemma ClosesWithoutInvoice(c: Config, w: World, id: Worker)
    requires Idle(c, w, id) && w.htlc == Empty && Closed(w.ln)
    ensures SoloCall(c, w, id, Reconcile)
         == w.(claim := None, reservation := Released,
               rec := w.rec.(state := InvoiceCanceled, reservationStatus := Released, recoveryRequired := false))
  {
    ReachableInv(c, w);
    hide Reachable, WorkersAgree, SoloCall, RetryFunding;
    DecisionEnds(c, w, id, w.(reservation := Released,
                              rec := w.rec.(state := InvoiceCanceled, reservationStatus := Released,
                                            recoveryRequired := false)));
  }

  predicate NotYetHeld(s: SwapState) { s == PlanPrepared || s == InvoiceCreated }

  /** An open invoice over an empty HTLC is waited for; a parked swap becomes payable again. */
  lemma WaitsForPayment(c: Config, w: World, id: Worker)
    requires Idle(c, w, id) && w.htlc == Empty && w.ln == Open
    ensures SoloCall(c, w, id, Reconcile)
         == if NotYetHeld(w.rec.state) || w.rec.state == RecoveryRequired
            then w.(claim := None, rec := w.rec.(state := InvoiceCreated, recoveryRequired := false))
            else w.(claim := None)
  {
    ReachableInv(c, w);
    hide Reachable, WorkersAgree, SoloCall, RetryFunding;
    DecisionEnds(c, w, id, if NotYetHeld(w.rec.state) || w.rec.state == RecoveryRequired
                           then w.(rec := w.rec.(state := InvoiceCreated, recoveryRequired := false)) else w);
  }

  /** The payment is held, Base is empty, and the row is past the point where funding may simply start. */
  lemma ParksHeldButAmbiguous(c: Config, w: World, id: Worker)
    requires Idle(c, w, id) && w.htlc == Empty && w.ln == Accepted
    requires !NotYetHeld(w.rec.state) && w.rec.state != LightningHeld
    ensures SoloCall(c, w, id, Reconcile) == Escalated(w)
  {
    ReachableInv(c, w);
    hide Reachable, WorkersAgree, SoloCall, RetryFunding;
    DecisionEnds(c, w, id, w.(rec := Escalated(w).rec));
  }

  lemma ParksWithoutFundRetry(c: Config, w: World, id: Worker)
    requires Idle(c, w, id) && w.htlc == Empty && w.ln == Accepted
    requires (NotYetHeld(w.rec.state) || w.rec.state == LightningHeld) && w.rec.fundRetries >= c.maxRetries
    ensures SoloCall(c, w, id, Reconcile) == Escalated(w)
  {
    ReachableInv(c, w);
    hide Reachable, WorkersAgree, SoloCall, BeginFund;
    DecisionEnds(c, w, id, w.(rec := Escalated(w).rec));
  }

  // ------------------------------------------------------ funding

  /** The HTLC is locked from now on, unless it already was; reservation and row say so. */
  function FundEnd(c: Config, b: World): World {
    var lock := b.now + c.timelockSeconds;
    var row := b.rec.(state := EvmFunded, reservationStatus := Committed, refundLocktime := Some(lock));
    if b.htlc == Empty
    then b.(htlc := Locked(lock), block := b.block + 1, reservation := Committed, rec := row.(htlcId := true))
    else b.(reservation := Committed, rec := row)
  }

  predicate FundingStarts(b: World) { b.ln == Accepted && b.reservation == Reserved }

  function FundingPending(b: World, lock: int): World {
    b.(rec := b.rec.(state := EvmFundingPending, refundLocktime := Some(lock)))
  }

  lemma FundingPersists(c: Config, b: World, id: Worker, n: nat)
    requires n >= 3 && id !in b.frames && !GuardedState(b.rec.state) && FundingStarts(b)
    requires b.rec.reservationStatus == Reserved
    ensures var lock := b.now + c.timelockSeconds;
      Drain(c, At(b, id, FundQuery), id, n) == Drain(c, At(FundingPending(b, lock), id, FundDispatch(lock)), id, n - 3)
  {
    hide Drain, Step, SettleSection, ClaimSection, UnfundedSection, RefundSection, ReconcileSection;
    var lock := b.now + c.timelockSeconds;
    DrainContinue(c, b, id, FundQuery, b, FundChecks, n);
    DrainContinue(c, b, id, FundChecks, b, FundPersist(lock), n - 1);
    DrainContinue(c, b, id, FundPersist(lock), FundingPending(b, lock), FundDispatch(lock), n - 2);
  }

  lemma FundingCommits(c: Config, p: World, id: Worker, lock: int, known: bool, n: nat)
    requires n >= 2 && id !in p.frames && !GuardedState(p.rec.state) && p.reservation == Reserved
    ensures Drain(c, At(p, id, FundCommit(lock, known)), id, n)
         == p.(claim := None, reservation := Committed,
               rec := p.rec.(state := EvmFunded, reservationStatus := Committed, refundLocktime := Some(lock),
                             htlcId := known || p.rec.htlcId))
  {
    hide Drain, Step, SettleSection, ClaimSection, UnfundedSection, RefundSection, ReconcileSection;
    var q := p.(reservation := Committed, rec := p.rec.(reservationStatus := Committed));
    DrainContinue(c, p, id, FundCommit(lock, known), q, FundRecord(lock, known), n);
    DrainFinish(c, q, id, FundRecord(lock, known),
                q.(rec := q.rec.(state := EvmFunded, refundLocktime := Some(lock),
                                 htlcId := known || q.rec.htlcId)), n - 1);
  }

  lemma FundingDispatched(c: Config, p: World, id: Worker, lock: int, n: nat)
    requires n >= 4 && id !in p.frames && !GuardedState(p.rec.state) && p.reservation == Reserved
    ensures Drain(c, At(p, id, FundDispatch(lock)), id, n)
         == if p.htlc == Empty
            then Drain(c, At(p.(htlc := Locked(lock), block := p.block + 1), id, FundCommit(lock, true)), id, n - 1)
            else Drain(c, At(p, id, FundCommit(lock, p.rec.htlcId)), id, n - 2)
  {
    hide Drain, Step, SettleSection, ClaimSection, UnfundedSection, RefundSection, ReconcileSection;
    if p.htlc == Empty {
      DrainContinue(c, p, id, FundDispatch(lock), p.(htlc := Locked(lock), block := p.block + 1),
                    FundCommit(lock, true), n);
    } else {
      DrainContinue(c, p, id, FundDispatch(lock), p, FundRecheck(lock), n);
      DrainContinue(c, p, id, FundRecheck(lock), p, FundCommit(lock, p.rec.htlcId), n - 1);
    }
  }

  lemma FundingEnds(c: Config, b: World, id: Worker, n: nat)
    requires n >= 7 && id !in b.frames && !GuardedState(b.rec.state) && FundingStarts(b)
    requires b.rec.reservationStatus == Reserved
    ensures Drain(c, At(b, id, FundQuery), id, n) == FundEnd(c, b).(claim := None)
  {
    hide Drain, At;
    var lock := b.now + c.timelockSeconds;
    var p := FundingPending(b, lock);
    FundingPersists(c, b, id, n);
    FundingDispatched(c, p, id, lock, n - 3);
    if b.htlc == Empty {
      FundingCommits(c, p.(htlc := Locked(lock), block := p.block + 1), id, lock, true, n - 4);
    } else {
      FundingCommits(c, p, id, lock, p.rec.htlcId, n - 5);
    }
  }

  function FundCounted(w: World): World {
    w.(rec := w.rec.(fundRetries := w.rec.fundRetries + 1, retries := w.rec.retries + 1))
  }

  function MarkedHeld(w: World): World {
    if NotYetHeld(w.rec.state) then w.(rec := w.rec.(state := LightningHeld, recoveryRequired := false)) else w
  }

  /** A pristine held swap is funded by recovery. */
  lemma FundsHeldSwap(c: Config, w: World, id: Worker)
    requires Idle(c, w, id) && w.htlc == Empty && w.ln == Accepted
    requires (NotYetHeld(w.rec.state) || w.rec.state == LightningHeld) && w.rec.fundRetries < c.maxRetries
    ensures SoloCall(c, w, id, Reconcile) == FundEnd(c, FundCounted(MarkedHeld(w))).(claim := None)
  {
    ReachableInv(c, w);
    hide Reachable, WorkersAgree, SoloCall, Drain, FundEnd;
    var b := FundCounted(MarkedHeld(w));
    DecisionGoesOn(c, w, id, b, FundQuery);
    FundingEnds(c, b, id, LongestCall - 3);
  }

  // ------------------------------------------------------ what recovery parks

  /** A retry is due and its limit is used up. */
  predicate RetriesUsedUp(c: Config, w: World) {
    match w.htlc
    case Empty =>
      w.ln == Accepted && (NotYetHeld(w.rec.state) || w.rec.state == LightningHeld)
      && w.rec.fundRetries >= c.maxRetries
    case Locked(lock) => w.now >= lock && w.rec.refundRetries >= c.maxRetries
    case Claimed(_, _, _) => w.ln == Accepted && w.rec.claimTx.Some? && w.rec.settleRetries >= c.maxRetries
    case Refunded(_, _, _) => w.ln == Accepted && w.rec.cancelRetries >= c.maxRetries
  }

  /** The payment is held over an empty HTLC although funding may have been started. */
  predicate FundingAmbiguous(w: World) {
    w.htlc == Empty && w.ln == Accepted && !NotYetHeld(w.rec.state) && w.rec.state != LightningHeld
  }

  /** A parked swap stays parked where recovery only retries a method that refuses its state. */
  predicate StaysParked(w: World) {
    w.rec.state == RecoveryRequired
    && ((w.htlc.Locked? && w.now >= w.htlc.lock)
        || (w.htlc.Claimed? && w.ln == Accepted && w.rec.claimTx.Some?))
  }

  /** One fault-free reconciliation leaves a swap to an operator in exactly these states. */
  lemma ParksExactly(c: Config, w: World, id: Worker)
    requires Idle(c, w, id)
    ensures SoloCall(c, w, id, Reconcile).rec.state == RecoveryRequired <==>
            RetriesUsedUp(c, w) || FundingAmbiguous(w) || StaysParked(w)
  {
    ReachableInv(c, w);
    hide SoloCall, Reachable, Inv;
    assert RailsAgree(w.ln, w.htlc) by { RailsOf(c, w); }
    match w.htlc {
      case Empty => ParksEmptyExactly(c, w, id);
      case Locked(lock) => ParksLockedExactly(c, w, id);
      case Claimed(_, _, _) => ParksClaimedExactly(c, w, id);
      case Refunded(_, _, _) => ClosesAfterRefund(c, w, id);
    }
  }

  lemma RailsOf(c: Config, w: World)
    requires Inv(c, w)
    ensures RailsAgree(w.ln, w.htlc)
  {
  }

  lemma ParksEmptyExactly(c: Config, w: World, id: Worker)
    requires Idle(c, w, id) && w.htlc == Empty && w.ln != Settled
    ensures SoloCall(c, w, id, Reconcile).rec.state == RecoveryRequired <==> RetriesUsedUp(c, w) || FundingAmbiguous(w)
  {
    hide SoloCall, Reachable;
    if Closed(w.ln) { ClosesWithoutInvoice(c, w, id); }
    else if w.ln == Open { WaitsForPayment(c, w, id); }
    else if FundingAmbiguous(w) { ParksHeldButAmbiguous(c, w, id); }
    else if w.rec.fundRetries >= c.maxRetries { ParksWithoutFundRetry(c, w, id); }
    else { FundsHeldSwap(c, w, id); }
  }

  lemma ParksLockedExactly(c: Config, w: World, id: Worker)
    requires Idle(c, w, id) && w.htlc.Locked?
    ensures SoloCall(c, w, id, Reconcile).rec.state == RecoveryRequired <==> RetriesUsedUp(c, w) || StaysParked(w)
  {
    hide SoloCall, Reachable;
    if w.now < w.htlc.lock { WaitsBeforeTimelock(c, w, id); }
    else if w.rec.refundRetries >= c.maxRetries { ParksWithoutRefundRetry(c, w, id); }
    else { RefundsAfterTimelock(c, w, id); }
  }

  lemma ParksClaimedExactly(c: Config, w: World, id: Worker)
    requires Idle(c, w, id) && w.htlc.Claimed? && (w.ln == Accepted || w.ln == Settled)
    ensures SoloCall(c, w, id, Reconcile).rec.state == RecoveryRequired <==> RetriesUsedUp(c, w) || StaysParked(w)
  {
    hide SoloCall, Reachable;
    if w.ln == Settled { CompletesWhenBothDone(c, w, id); }
    else if w.rec.claimTx == None { DetectsUnknownClaim(c, w, id); }
    else if w.rec.settleRetries >= c.maxRetries { ParksWithoutSettleRetry(c, w, id); }
    else { SettlesKnownClaim(c, w, id); }
  }

  // ------------------------------------------------------ the other calls

  ghost predicate Free(c: Config, w: World, id: Worker) { Reachable(c, w) && id !in w.frames && ClaimFree(w, id) }

  lemma NothingStarts(c: Config, w: World, id: Worker, call: Call)
    requires Free(c, w, id) && !call.DetectHold? && !call.ConfirmDelivery?
    requires Begin(c, w.(claim := Some(id)), call, Smooth) == None
    ensures SoloCall(c, w, id, call) == w
  {
    hide Begin, Drain, Reachable;
    assert Step(c, w, Start(id, call, Smooth)) == w;
    DrainIdle(c, w, id, LongestCall);
  }

  lemma CallStarts(c: Config, w: World, id: Worker, call: Call, w': World, f: Frame)
    requires Free(c, w, id) && !call.DetectHold? && !call.ConfirmDelivery?
    requires Begin(c, w.(claim := Some(id)), call, Smooth) == Some(Continue(w'.(claim := Some(id)), f))
    requires w'.frames == w.frames
    ensures SoloCall(c, w, id, call) == Drain(c, At(w', id, f), id, LongestCall)
  {
    hide Begin, Drain, Reachable;
  }

  /**
   `fundEvmHtlc` locks the HTLC until now plus the timelock, commits the
   reservation and says EVM_FUNDED, from a held or pending row whose payment is
   held and reservation free to commit; from every other state it changes nothing.
   */
  lemma FundCallEnds(c: Config, w: World, id: Worker)
    requires Free(c, w, id)
    ensures var starts := w.rec.state == LightningHeld || w.rec.state == EvmFundingPending;
      && (starts && FundingStarts(w) ==> SoloCall(c, w, id, Fund) == FundEnd(c, w).(claim := None))
      && (starts && !FundingStarts(w) ==> SoloCall(c, w, id, Fund) == w.(claim := None))
      && (!starts ==> SoloCall(c, w, id, Fund) == w)
  {
    ReachableInv(c, w);
    hide Reachable, WorkersAgree, SoloCall, Drain, FundEnd;
    if w.rec.state == LightningHeld || w.rec.state == EvmFundingPending {
      CallStarts(c, w, id, Fund, w, FundQuery);
      if FundingStarts(w) { FundingEnds(c, w, id, LongestCall); } else { FundingRefused(c, w, id, LongestCall); }
    } else {
      NothingStarts(c, w, id, Fund);
    }
  }

  lemma FundingRefused(c: Config, b: World, id: Worker, n: nat)
    requires n >= 2 && id !in b.frames && !FundingStarts(b) && b.rec.reservationStatus == b.reservation
    ensures Drain(c, At(b, id, FundQuery), id, n) == b.(claim := None)
  {
    hide Drain, Step, SettleSection, ClaimSection, UnfundedSection, RefundSection, ReconcileSection;
    if b.ln == Accepted {
      DrainContinue(c, b, id, FundQuery, b, FundChecks, n);
      DrainFinish(c, b, id, FundChecks, b, n - 1);
    } else {
      DrainFinish(c, b, id, FundQuery, b, n);
    }
  }

  predicate MaySettle(c: Config, s: SwapState) {
    && c.confirmations.Some?
    && s !in {SwapRefunded, RefundEligible, EvmRefundPending, EvmRefundConfirmed,
              LightningSettled, DestinationPending, Completed}
  }

  /**
   `settleLightningFromEvmClaim` settles on a final claim of its own transaction;
   a final refund calls for recovery, and anything else changes nothing.
   */
  lemma SettleCallEnds(c: Config, w: World, id: Worker, tx: TxHash)
    requires Free(c, w, id)
    ensures SoloCall(c, w, id, SettleFromClaim(tx))
         == if MaySettle(c, w.rec.state) then SettleEnd(c, w, tx).(claim := None) else w
  {
    ReachableInv(c, w);
    hide Reachable, WorkersAgree, SoloCall, Drain, SettleEnd;
    if MaySettle(c, w.rec.state) {
      CallStarts(c, w, id, SettleFromClaim(tx), w, SettleGate(tx, w.rec.state));
      SettlementAttemptEnds(c, w, id, tx, LongestCall);
    } else {
      NothingStarts(c, w, id, SettleFromClaim(tx));
    }
  }

  /** Where a claim on the client's behalf ends, once the row says CLAIMING. */
  function ClaimEnd(c: Config, u: World): World
    requires c.confirmations.Some?
  {
    match u.htlc
    case Locked(_) =>
      if c.confirmations.value <= 2 then ClaimRecorded(HtlcClaimed(u), ClaimTx(u.block + 1)) else HtlcClaimed(u)
    case Claimed(_, _, _) =>
      var tx := if u.rec.claimTx.Some? then u.rec.claimTx.value else Preclaimed;
      if tx == Preclaimed || ClaimEvidenceFinal(ChainOf(u), tx, c.confirmations.value)
      then ClaimRecorded(u, tx) else u
    case _ => u
  }

  lemma ClaimingEnds(c: Config, u: World, id: Worker)
    requires id !in u.frames && u.rec.state == Claiming && c.confirmations.Some? && u.htlc != Empty
    requires RailsAgree(u.ln, u.htlc)
    ensures Drain(c, At(u, id, ClaimObserve), id, LongestCall) == ClaimEnd(c, u).(claim := None)
  {
    hide Drain, Step, At, ClaimEvidenceFinal;
    match u.htlc {
      case Claimed(_, _, _) => DrainClaimed(c, u, id, LongestCall);
      case Locked(_) => DrainLocked(c, u, id, LongestCall);
      case Refunded(_, _, _) => DrainRefundedClaim(c, u, id, LongestCall);
    }
  }

  predicate AwaitsClaim(s: SwapState) { s in {EvmFunded, EvmClaimConfirmed, LightningSettlementPending, Claiming} }

  /**
   `claimSwap` claims a locked HTLC and settles on the claim if two confirmations
   are enough; over a claimed one it settles on the transaction the row names if
   that is final, or without any check if the row names none.
   */
  lemma ClaimCallEnds(c: Config, w: World, id: Worker)
    requires Free(c, w, id)
    ensures SoloCall(c, w, id, ClaimForClient)
         == if c.confirmations.Some? && AwaitsClaim(w.rec.state)
            then ClaimEnd(c, BeingClaimed(w)).(claim := None) else w
  {
    ReachableInv(c, w);
    hide Drain, At, Reachable, WorkersAgree, ClaimEnd;
    if c.confirmations.Some? && AwaitsClaim(w.rec.state) {
      ClaimStarts(c, w, id);
      ClaimingEnds(c, BeingClaimed(w), id);
    } else {
      NothingStarts(c, w, id, ClaimForClient);
    }
  }

  // processRefund

  function Unfunded(w: World, state: SwapState): World {
    w.(ln := Canceled, reservation := Released, claim := None,
       rec := w.rec.(state := state, reservationStatus := Released))
  }

  lemma ExpiryEnds(c: Config, w: World, id: Worker, n: nat)
    requires n >= 2 && id !in w.frames && w.htlc == Empty && !GuardedState(w.rec.state)
    requires w.rec.reservationStatus == w.reservation && (w.reservation == Reserved || w.reservation == Released)
    ensures Drain(c, At(w, id, ExpireCancel), id, n)
         == if w.ln == Absent || w.ln == Settled then w.(claim := None) else Unfunded(w, Expired)
  {
    hide Drain, Step, FundSection, SettleSection, ClaimSection, RefundSection, ReconcileSection;
    if w.ln == Absent || w.ln == Settled {
      DrainFinish(c, w, id, ExpireCancel, w, n);
    } else {
      var k := w.(ln := Canceled);
      DrainContinue(c, w, id, ExpireCancel, k, ExpireRecord, n);
      DrainFinish(c, k, id, ExpireRecord,
                  k.(reservation := Released, rec := k.rec.(state := Expired, reservationStatus := Released)), n - 1);
    }
  }

  lemma HeldCancelEnds(c: Config, w: World, id: Worker, n: nat)
    requires n >= 3 && id !in w.frames && w.htlc == Empty && !GuardedState(w.rec.state)
    requires w.rec.reservationStatus == w.reservation && (w.reservation == Reserved || w.reservation == Released)
    ensures Drain(c, At(w, id, HeldObserve), id, n)
         == if w.ln == Absent || w.ln == Settled then w.(claim := None) else Unfunded(w, InvoiceCanceled)
  {
    hide Drain, Step, FundSection, SettleSection, ClaimSection, RefundSection, ReconcileSection;
    DrainContinue(c, w, id, HeldObserve, w, HeldCancel, n);
    if w.ln == Absent || w.ln == Settled {
      DrainFinish(c, w, id, HeldCancel, w, n - 1);
    } else {
      var k := w.(ln := Canceled);
      DrainContinue(c, w, id, HeldCancel, k, HeldRecord, n - 1);
      DrainFinish(c, k, id, HeldRecord,
                  k.(reservation := Released,
                     rec := k.rec.(state := InvoiceCanceled, reservationStatus := Released)), n - 2);
    }
  }

  /** Before Base is funded `processRefund` frees payer and reservation: EXPIRED, or INVOICE_CANCELED if held. */
  lemma UnfundedRefundEnds(c: Config, w: World, id: Worker)
    requires Free(c, w, id) && w.htlc == Empty && (w.rec.state == InvoiceCreated || w.rec.state == LightningHeld)
    ensures SoloCall(c, w, id, ProcessRefund)
         == if w.ln == Absent then w.(claim := None)
            else Unfunded(w, if w.rec.state == InvoiceCreated then Expired else InvoiceCanceled)
  {
    ReachableInv(c, w);
    hide Reachable, WorkersAgree, SoloCall, Drain;
    if w.rec.state == InvoiceCreated {
      CallStarts(c, w, id, ProcessRefund, w, ExpireCancel);
      ExpiryEnds(c, w, id, LongestCall);
    } else {
      CallStarts(c, w, id, ProcessRefund, w, HeldObserve);
      HeldCancelEnds(c, w, id, LongestCall);
    }
  }

  /** A claim seen by a refund is recorded; before the timelock a refund does nothing. */
  lemma EarlyRefundEnds(c: Config, w: World, id: Worker, n: nat)
    requires n >= 2 && id !in w.frames && !GuardedState(w.rec.state)
    requires w.htlc.Claimed? || (w.htlc.Locked? && w.now < w.htlc.lock)
    ensures Drain(c, At(w, id, RefundObserve), id, n)
         == (if w.htlc.Claimed? then w.(rec := w.rec.(state := EvmClaimConfirmed)) else w).(claim := None)
  {
    hide Drain, Step, FundSection, SettleSection, ClaimSection, UnfundedSection, ReconcileSection;
    DrainContinue(c, w, id, RefundObserve, w, RefundDecide(w.htlc, w.now), n);
    DrainFinish(c, w, id, RefundDecide(w.htlc, w.now),
                if w.htlc.Claimed? then w.(rec := w.rec.(state := EvmClaimConfirmed)) else w, n - 1);
  }

  function ClosedByRefund(w: World): World {
    w.(ln := Canceled, reservation := Released, claim := None,
       rec := w.rec.(state := SwapRefunded, reservationStatus := Released))
  }

  lemma RefundClosesBoth(r: World)
    requires r.htlc.Refunded? && r.reservation != ReservationSettled && !GuardedState(r.rec.state)
    ensures RefundCanceled(r) == ClosedByRefund(r)
  {
  }

  /** After Base was funded `processRefund` refunds, records a claim, waits or finishes, by what it sees on Base. */
  lemma FundedRefundEnds(c: Config, w: World, id: Worker)
    requires Free(c, w, id) && AwaitsRefund(w.rec.state) && c.confirmations.Some? && w.ln == Accepted
    ensures var w' := SoloCall(c, w, id, ProcessRefund);
      && (w.htlc.Claimed? ==> w' == w.(claim := None, rec := w.rec.(state := EvmClaimConfirmed)))
      && (w.htlc.Locked? && w.now < w.htlc.lock ==> w' == w.(claim := None))
      && (w.htlc.Locked? && w.now >= w.htlc.lock ==> w' == RefundEnd(c, w).(claim := None))
      && (w.htlc.Refunded? ==> w' == if RefundPasses(c, w) then ClosedByRefund(w) else w.(claim := None))
  {
    ReachableInv(c, w);
    hide Reachable, WorkersAgree, SoloCall, Drain, RefundEnd, RefundCanceled;
    CallStarts(c, w, id, ProcessRefund, w, RefundObserve);
    match w.htlc {
      case Claimed(_, _, _) => EarlyRefundEnds(c, w, id, LongestCall);
      case Locked(lock) =>
        if w.now < lock { EarlyRefundEnds(c, w, id, LongestCall); } else { DueRefundEnds(c, w, id, LongestCall); }
      case Refunded(_, _, _) =>
        DrainRefunded(c, w, id, LongestCall);
        RefundClosesBoth(w);
      case Empty =>
    }
  }

  /** In any other state `processRefund` moves nothing; it does not even claim a refunded swap or one being claimed. */
  lemma OtherRefundEnds(c: Config, w: World, id: Worker)
    requires Free(c, w, id) && !AwaitsRefund(w.rec.state) && w.rec.state != InvoiceCreated
    requires w.rec.state == LightningHeld ==> w.htlc != Empty
    ensures var refused := w.rec.state in {SwapRefunded, Claiming, EvmClaimConfirmed, LightningSettled,
                                           DestinationPending, Completed};
      SoloCall(c, w, id, ProcessRefund) == if refused then w else w.(claim := None)
  {
    ReachableInv(c, w);
    hide Reachable, WorkersAgree, SoloCall, Drain;
    if w.rec.state == LightningHeld {
      CallStarts(c, w, id, ProcessRefund, w, HeldObserve);
      HeldEndsIdle(c, w, id, LongestCall);
    } else if BeginRefund(c, w).None? {
      NothingStarts(c, w, id, ProcessRefund);
    } else {
      RefundFinishesAtOnce(c, w, id);
    }
  }

  lemma RefundFinishesAtOnce(c: Config, w: World, id: Worker)
    requires Free(c, w, id) && BeginRefund(c, w) == Some(Finish(w))
    ensures SoloCall(c, w, id, ProcessRefund) == w.(claim := None)
  {
    hide Reachable, Drain;
    assert BeginRefund(c, w.(claim := Some(id))) == Some(Finish(w.(claim := Some(id))));
    assert w.frames - {id} == w.frames;
    DrainIdle(c, w.(claim := None), id, LongestCall);
  }

  // the two calls without a claim

  /** A payment seen on an unheld swap makes it LIGHTNING_HELD; anything else changes nothing. */
  lemma HoldDetectionEnds(c: Config, w: World, id: Worker)
    requires Reachable(c, w) && id !in w.frames
    ensures SoloCall(c, w, id, DetectHold)
         == if NotYetHeld(w.rec.state) && w.ln == Accepted then w.(rec := w.rec.(state := LightningHeld)) else w
  {
    hide Reachable, ClaimedSection;
    var e := Advance(id, Smooth);
    var s1 := Step(c, w, Start(id, DetectHold, Smooth));
    if NotYetHeld(w.rec.state) {
      assert s1 == w.(frames := w.frames[id := HoldQuery]);
      assert w.frames[id := HoldQuery] - {id} == w.frames;
      if w.ln == Accepted {
        var s2 := Step(c, s1, e);
        assert s2 == w.(frames := w.frames[id := HoldObserve]) by { assert s2.frames == w.frames[id := HoldObserve]; }
        var s3 := Step(c, s2, e);
        assert s3.frames == w.frames[id := HoldWrite];
        assert w.frames[id := HoldWrite] - {id} == w.frames;
        HoldDrains(c, s1, s2, s3, Step(c, s3, e), id);
      } else {
        DrainIdle(c, Step(c, s1, e), id, LongestCall - 1);
      }
    } else {
      DrainIdle(c, s1, id, LongestCall);
    }
  }

  lemma HoldDrains(c: Config, s1: World, s2: World, s3: World, s4: World, id: Worker)
    requires id in s1.frames && id in s2.frames && id in s3.frames && id !in s4.frames
    requires Step(c, s1, Advance(id, Smooth)) == s2 && Step(c, s2, Advance(id, Smooth)) == s3
    requires Step(c, s3, Advance(id, Smooth)) == s4
    ensures Drain(c, s1, id, LongestCall) == s4
  {
    hide Step;
    DrainIdle(c, s4, id, LongestCall - 3);
    assert Drain(c, s3, id, LongestCall - 2) == s4;
    assert Drain(c, s2, id, LongestCall - 1) == s4;
  }

  /** A confirmed delivery completes a swap that waits for it, and no other. */
  lemma DeliveryEnds(c: Config, w: World, id: Worker)
    requires id !in w.frames
    ensures SoloCall(c, w, id, ConfirmDelivery)
         == if w.rec.state == DestinationPending || w.rec.state == LightningSettled
            then w.(rec := w.rec.(state := Completed)) else w
  {
    hide Drain, ClaimedSection;
    DrainIdle(c, Step(c, w, Start(id, ConfirmDelivery, Smooth)), id, LongestCall);
  }

  // ------------------------------------------------------ ambiguous calls

  /** The call took effect and its reply is lost. */
  const Lost := Choice(LostReply, true, true)

  lemma FaultyStep(c: Config, w: World, id: Worker, f: Frame, choice: Choice, w': World, f': Frame)
    requires Holding(f) && ClaimedSection(c, At(w, id, f), f, choice) == Continue(At(w', id, f), f')
    ensures Step(c, At(w, id, f), Advance(id, choice)) == At(w', id, f')
  {
    hide ClaimedSection;
    assert At(w', id, f).frames[id := f'] == At(w', id, f').frames;
  }

  /** From this frame on, after a fault of the call it makes, the method ends here. */
  ghost predicate EndsIn(c: Config, w: World, id: Worker, f: Frame, choice: Choice, end: World) {
    Drain(c, Step(c, At(w, id, f), Advance(id, choice)), id, LongestCall) == end
  }

  /** Funding whose reply is lost is found on the chain and recorded; if it never happened nothing is sent again. */
  lemma AmbiguousFunding(c: Config, p: World, id: Worker, lock: int)
    requires id !in p.frames && !GuardedState(p.rec.state) && p.reservation == Reserved && p.htlc == Empty
    ensures EndsIn(c, p, id, FundDispatch(lock), Lost,
                   p.(htlc := Locked(lock), block := p.block + 1, reservation := Committed, claim := None,
                      rec := p.rec.(state := EvmFunded, reservationStatus := Committed,
                                    refundLocktime := Some(lock))))
    ensures EndsIn(c, p, id, FundDispatch(lock), NoReply, p.(claim := None))
  {
    hide Drain, Step, SettleSection, ClaimSection, UnfundedSection, RefundSection, ReconcileSection;
    var q := p.(htlc := Locked(lock), block := p.block + 1);
    FaultyStep(c, p, id, FundDispatch(lock), Lost, q, FundRecheck(lock));
    DrainContinue(c, q, id, FundRecheck(lock), q, FundCommit(lock, q.rec.htlcId), LongestCall);
    FundingCommits(c, q, id, lock, q.rec.htlcId, LongestCall - 1);
    FaultyStep(c, p, id, FundDispatch(lock), NoReply, p, FundRecheck(lock));
    DrainFinish(c, p, id, FundRecheck(lock), p, LongestCall);
  }

  /** The same for the settlement of the invoice. */
  lemma AmbiguousSettlement(c: Config, m: World, id: Worker)
    requires id !in m.frames && !GuardedState(m.rec.state) && m.ln == Accepted
    ensures EndsIn(c, m, id, SettleDispatch, Lost,
                   m.(ln := Settled, claim := None, rec := m.rec.(state := DestinationPending)))
    ensures EndsIn(c, m, id, SettleDispatch, NoReply, m.(claim := None))
  {
    hide Drain, Step, FundSection, ClaimSection, UnfundedSection, RefundSection, ReconcileSection;
    var p := m.(ln := Settled);
    FaultyStep(c, m, id, SettleDispatch, Lost, p, SettleRecheck);
    DrainContinue(c, p, id, SettleRecheck, p, SettleRecord, LongestCall);
    DrainFinish(c, p, id, SettleRecord, p.(rec := p.rec.(state := DestinationPending)), LongestCall - 1);
    FaultyStep(c, m, id, SettleDispatch, NoReply, m, SettleRecheck);
    DrainFinish(c, m, id, SettleRecheck, m, LongestCall);
  }

  /** The same for the refund on Base, whose transaction then stays unknown. */
  lemma AmbiguousRefund(c: Config, p: World, id: Worker)
    requires id !in p.frames && p.rec.state == EvmRefundPending && p.htlc.Locked? && p.now >= p.htlc.lock
    requires p.ln == Accepted && p.reservation == Committed
    ensures EndsIn(c, p, id, RefundDispatch, Lost,
                   RefundClosed(RefundConfirmed(HtlcRefunded(p), ReconciledRefund)).(claim := None))
    ensures EndsIn(c, p, id, RefundDispatch, NoReply, p.(claim := None))
  {
    hide Drain, Step, FundSection, SettleSection, ClaimSection, UnfundedSection, ReconcileSection;
    var q := HtlcRefunded(p);
    FaultyStep(c, p, id, RefundDispatch, Lost, q, RefundRecheck);
    DrainUnchecked(c, q, id, LongestCall);
    DrainToEnd(c, CancelPending(q, ReconciledRefund), id, LongestCall - 4);
    FaultyStep(c, p, id, RefundDispatch, NoReply, p, RefundRecheck);
    DrainFinish(c, p, id, RefundRecheck, p, LongestCall);
  }

  lemma CancellationFound(c: Config, m: World, id: Worker)
    requires id !in m.frames && m.rec.state == LightningCancelPending && m.reservation == Committed
    ensures Drain(c, At(m.(ln := Canceled), id, RefundCancelRecheck), id, LongestCall)
         == RefundClosed(m).(claim := None)
  {
    hide Drain, Step, FundSection, SettleSection, ClaimSection, UnfundedSection, ReconcileSection;
    var k := m.(ln := Canceled);
    DrainContinue(c, k, id, RefundCancelRecheck, k, RefundRestore, LongestCall);
    DrainFinish(c, k, id, RefundRestore, RefundClosed(m), LongestCall - 1);
  }

  lemma LostCancellation(c: Config, m: World, id: Worker)
    requires id !in m.frames && m.rec.state == LightningCancelPending && m.ln == Accepted && m.reservation == Committed
    ensures EndsIn(c, m, id, RefundCancel, Lost, RefundClosed(m).(claim := None))
  {
    hide Drain, Step, FundSection, SettleSection, ClaimSection, UnfundedSection, ReconcileSection;
    FaultyStep(c, m, id, RefundCancel, Lost, m.(ln := Canceled), RefundCancelRecheck);
    hide At;
    CancellationFound(c, m, id);
  }

  lemma SilentCancellation(c: Config, m: World, id: Worker)
    requires id !in m.frames && m.ln == Accepted
    ensures EndsIn(c, m, id, RefundCancel, NoReply, m.(claim := None))
  {
    hide Drain, Step, FundSection, SettleSection, ClaimSection, UnfundedSection, ReconcileSection;
    FaultyStep(c, m, id, RefundCancel, NoReply, m, RefundCancelRecheck);
    DrainFinish(c, m, id, RefundCancelRecheck, m, LongestCall);
  }

  /** The same for the cancellation of the invoice inside a refund. */
  lemma AmbiguousCancellation(c: Config, m: World, id: Worker)
    requires id !in m.frames && m.rec.state == LightningCancelPending && m.ln == Accepted && m.reservation == Committed
    ensures EndsIn(c, m, id, RefundCancel, Lost, RefundClosed(m).(claim := None))
    ensures EndsIn(c, m, id, RefundCancel, NoReply, m.(claim := None))
  {
    hide EndsIn;
    LostCancellation(c, m, id);
    SilentCancellation(c, m, id);
  }

  lemma RecoveryCancelFound(c: Config, k: World, id: Worker)
    requires id !in k.frames && !GuardedState(k.rec.state) && k.reservation == Committed
    ensures Drain(c, At(k.(ln := Canceled), id, ReconcileReobserve), id, LongestCall)
         == BothRefunded(k).(claim := None)
  {
    hide Drain, Step, FundSection, SettleSection, ClaimSection, UnfundedSection, RefundSection;
    var m := k.(ln := Canceled);
    DrainContinue(c, m, id, ReconcileReobserve, m, ReconcileRestore, LongestCall);
    DrainFinish(c, m, id, ReconcileRestore, BothRefunded(k), LongestCall - 1);
  }

  lemma LostRecovery(c: Config, k: World, id: Worker)
    requires id !in k.frames && !GuardedState(k.rec.state) && k.ln == Accepted && k.reservation == Committed
    ensures EndsIn(c, k, id, ReconcileCancel, Lost, BothRefunded(k).(claim := None))
  {
    hide Drain, Step, FundSection, SettleSection, ClaimSection, UnfundedSection, RefundSection;
    FaultyStep(c, k, id, ReconcileCancel, Lost, k.(ln := Canceled), ReconcileReobserve);
    hide At;
    RecoveryCancelFound(c, k, id);
  }

  lemma SilentRecovery(c: Config, k: World, id: Worker)
    requires id !in k.frames && k.ln == Accepted
    ensures EndsIn(c, k, id, ReconcileCancel, NoReply, Escalated(k))
  {
    hide Drain, Step, FundSection, SettleSection, ClaimSection, UnfundedSection, RefundSection, Decide;
    FaultyStep(c, k, id, ReconcileCancel, NoReply, k, ReconcileReobserve);
    DrainFinish(c, k, id, ReconcileReobserve, k.(rec := Escalated(k).rec), LongestCall);
  }

  /** And inside a recovery, which parks the swap if the cancellation is not confirmed. */
  lemma AmbiguousRecovery(c: Config, k: World, id: Worker)
    requires id !in k.frames && !GuardedState(k.rec.state) && k.ln == Accepted && k.reservation == Committed
    ensures EndsIn(c, k, id, ReconcileCancel, Lost, BothRefunded(k).(claim := None))
    ensures EndsIn(c, k, id, ReconcileCancel, NoReply, Escalated(k))
  {
    hide EndsIn;
    LostRecovery(c, k, id);
    SilentRecovery(c, k, id);
  }

  /** A recovery that fails to observe either rail parks the swap and touches nothing else. */
  lemma FailedObservationParks(c: Config, w: World, id: Worker, s: SwapState, ln: LnObservation, evm: EvmObservation)
    requires id !in w.frames && (ln.LnUnknown? || evm.EvmUnknown?)
    ensures EndsIn(c, w, id, ReconcileDecide(s, ln, evm), Smooth, Escalated(w))
  {
    hide Drain;
    var f := ReconcileDecide(s, ln, evm);
    assert At(w, id, f).frames - {id} == w.frames;
    assert Step(c, At(w, id, f), Advance(id, Smooth)) == Escalated(w);
    DrainIdle(c, Escalated(w), id, LongestCall);
  }

  lemma UnansweredIsUnknown(c: Config, w: World, id: Worker, s: SwapState, ln: LnObservation, choice: Choice)
    requires id !in w.frames && choice.fault != NoFault
    ensures Step(c, At(w, id, ReconcileLightning(s)), Advance(id, choice)) == At(w, id, ReconcileEvm(s, LnUnknown))
    ensures Step(c, At(w, id, ReconcileEvm(s, ln)), Advance(id, choice))
         == At(w, id, ReconcileDecide(s, ln, EvmUnknown))
  {
    hide FundSection, SettleSection, ClaimSection, UnfundedSection, RefundSection, Decide;
    FaultyStep(c, w, id, ReconcileLightning(s), choice, w, ReconcileEvm(s, LnUnknown));
    FaultyStep(c, w, id, ReconcileEvm(s, ln), choice, w, ReconcileDecide(s, ln, EvmUnknown));
  }

  /** Calls that are not looked at again end the method at any fault, with no row written. */
  predicate NotLookedAt(f: Frame) { f.ExpireCancel? || f.HeldCancel? || f.ClaimDispatch? || f.ClaimSettle? }

  lemma UnansweredCallWritesNothing(c: Config, w: World, id: Worker, f: Frame, choice: Choice)
    requires id !in w.frames && NotLookedAt(f) && choice.fault != NoFault
    ensures var w' := Step(c, At(w, id, f), Advance(id, choice));
      w'.rec == w.rec && w'.reservation == w.reservation && w'.frames == w.frames && w'.claim == None
  {
    hide FundSection, SettleSection, RefundSection, ReconcileSection;
    assert At(w, id, f).frames - {id} == w.frames;
  }

  /** The second look finds that the ambiguous call did take effect. */
  predicate TookEffect(w: World, f: Frame) {
    match f
    case FundRecheck(_) => w.htlc != Empty
    case SettleRecheck => w.ln == Settled
    case RefundRecheck => w.htlc.Refunded?
    case RefundCancelRecheck => w.ln == Canceled
    case _ => true
  }

  /** It finds the opposite: the invoice to be settled is canceled, or the one to be canceled is settled. */
  predicate TookOpposite(w: World, f: Frame) {
    (f.SettleRecheck? && w.ln == Canceled) || (f.RefundCancelRecheck? && w.ln == Settled)
  }

  /**
   When the second look fails or does not find the effect, the method ends and
   writes nothing, except that finding the opposite raises the recovery flag.
   */
  lemma DoubtEnds(c: Config, w: World, id: Worker, f: Frame, choice: Choice)
    requires id !in w.frames && (f.FundRecheck? || f.SettleRecheck? || f.RefundRecheck? || f.RefundCancelRecheck?)
    requires choice.fault != NoFault || !TookEffect(w, f)
    ensures Step(c, At(w, id, f), Advance(id, choice))
         == if choice.fault == NoFault && TookOpposite(w, f)
            then w.(claim := None, rec := w.rec.(recoveryRequired := true)) else w.(claim := None)
  {
    hide ReconcileSection, UnfundedSection, ClaimSection;
    assert At(w, id, f).frames - {id} == w.frames;
  }

  // ------------------------------------------------------ contradictions

  /** Observations that no run of the protocol leaves, taken together. */
  predicate Contradictory(ln: Lightning, h: Htlc) {
    || (ln == Settled && !h.Claimed?)
    || (ln != Settled && ln != Accepted && h.Claimed?)
    || (ln != Accepted && h.Locked?)
  }

  function Seen(ln: Lightning): LnObservation { if ln == Absent then LnNotFound else LnFound(ln) }

  /** What the reservation would have to become cannot be reached from what it is. */
  predicate ReservationLags(w: World, ln: Lightning, h: Htlc, timestamp: int) {
    match h
    case Claimed(_, _, _) =>
      || (ln == Settled && w.reservation == Released)
      || (ln == Accepted && w.rec.claimTx.None? && (w.reservation == Released || w.reservation == ReservationSettled))
    case Refunded(_, _, _) => (ln == Canceled || ln == Absent) && w.reservation == ReservationSettled
    case Locked(lock) =>
      ln == Accepted && timestamp < lock && (w.reservation == Released || w.reservation == ReservationSettled)
    case Empty =>
      && (ln == Canceled || ln == Absent) && (w.reservation == Committed || w.reservation == ReservationSettled)
  }

  /**
   Recovery parks a swap whose rails contradict each other, or whose
   reservation cannot follow them, and touches nothing else.
   */
  lemma ContradictionsPark(c: Config, w: World, id: Worker, s: SwapState, ln: Lightning, h: Htlc, timestamp: int,
                           choice: Choice)
    requires id !in w.frames && (Contradictory(ln, h) || ReservationLags(w, ln, h, timestamp))
    ensures Step(c, At(w, id, ReconcileDecide(s, Seen(ln), EvmSeen(h, timestamp))), Advance(id, choice)) == Escalated(w)
  {
    hide RetryFunding, BeginRefund, BeginSettle;
    var f := ReconcileDecide(s, Seen(ln), EvmSeen(h, timestamp));
    assert At(w, id, f).frames - {id} == w.frames;
  }

  /** Inside a method: a funding that cannot commit ends without a row written, a refund that cannot restore parks. */
  lemma LaggingReservationEnds(c: Config, w: World, id: Worker, f: Frame, choice: Choice)
    requires id !in w.frames && w.reservation == ReservationSettled
    requires f.FundCommit? || f.RefundRestore? || f.ReconcileRestore?
    ensures Step(c, At(w, id, f), Advance(id, choice)) == if f.FundCommit? then w.(claim := None) else Escalated(w)
  {
    hide SettleSection, ClaimSection, UnfundedSection, Decide;
    assert At(w, id, f).frames - {id} == w.frames;
  }

  /**
   The end of an unfunded refund releases a reservation only while the row says
   it is held; the row says RELEASED in any case.
   */
  lemma UnfundedReleaseEnds(c: Config, w: World, id: Worker, f: Frame, choice: Choice)
    requires id !in w.frames && !GuardedState(w.rec.state) && (f.ExpireRecord? || f.HeldRecord?)
    ensures var frees := w.rec.reservationStatus == Reserved && w.reservation == Reserved;
      Step(c, At(w, id, f), Advance(id, choice))
         == w.(claim := None, reservation := if frees then Released else w.reservation,
               rec := w.rec.(state := if f.ExpireRecord? then Expired else InvoiceCanceled,
                             reservationStatus := Released))
  {
    hide SettleSection, ClaimSection, RefundSection, ReconcileSection;
    assert At(w, id, f).frames - {id} == w.frames;
  }

  /** A worker that dies keeps its claim until the lease lapses; then any other can take it. */
  lemma LeaseFreesTheClaim(c: Config, w: World, id: Worker, other: Worker)
    requires id in w.frames && Holding(w.frames[id]) && w.claim == Some(id) && other !in w.frames
    ensures Step(c, w, LeaseExpires) == w
    ensures var dead := Step(c, w, Crash(id));
      && (other != id ==> !ClaimFree(dead, other)) && ClaimFree(Step(c, dead, LeaseExpires), other)
      && Step(c, dead, LeaseExpires) == dead.(claim := None)
  {
  }

  /** A refunded HTLC whose invoice is already gone only needs its books closed. */
  lemma GoneAfterRefundCloses(c: Config, w: World, id: Worker, s: SwapState, ln: Lightning, h: Htlc, timestamp: int,
                              choice: Choice)
    requires id !in w.frames && !GuardedState(w.rec.state) && w.reservation != ReservationSettled
    requires h.Refunded? && (ln == Canceled || ln == Absent)
    ensures Step(c, At(w, id, ReconcileDecide(s, Seen(ln), EvmSeen(h, timestamp))), Advance(id, choice))
         == w.(claim := None, reservation := Released,
               rec := w.rec.(state := SwapRefunded, reservationStatus := Released, recoveryRequired := false))
  {
    var f := ReconcileDecide(s, Seen(ln), EvmSeen(h, timestamp));
    assert At(w, id, f).frames - {id} == w.frames;
  }

  // ------------------------------------------------------ failed checks

  /** Frames whose next section asks a guard: policy, CLTV window, quote, stored evidence. */
  predicate Guarded(w: World, f: Frame) {
    || f.FundChecks? || f.SettleGate? || f.SettleEvidence?
    || (f.ClaimEvidence? && f.tx != Preclaimed)
    || (f.RefundVerify? && w.rec.refundTx.Some? && w.rec.refundTx != Some(ReconciledRefund))
  }

  /** A guard that fails ends the method: no rail is called and nothing is written but, at most, the recovery flag. */
  lemma FailedCheckStops(c: Config, w: World, id: Worker, f: Frame, choice: Choice)
    requires id !in w.frames && Guarded(w, f) && !choice.pass
    ensures var w' := Step(c, At(w, id, f), Advance(id, choice));
      || w' == w.(claim := None)
      || (f.SettleEvidence? && w' == w.(claim := None, rec := w.rec.(recoveryRequired := true)))
  {
    hide ReconcileSection, UnfundedSection;
    assert At(w, id, f).frames - {id} == w.frames;
  }

  /** A funding or a client's claim whose first guard fails does not start, and does not even take the claim. */
  lemma FailedCheckStartsNothing(c: Config, w: World, id: Worker, call: Call, choice: Choice)
    requires (call == Fund || call == ClaimForClient) && !choice.pass
    ensures Step(c, w, Start(id, call, choice)) == w
  {
  }

  /** A recovery that finds a pending funding it cannot rule out parks the swap instead of funding again. */
  lemma AmbiguousFundingParks(c: Config, w: World, id: Worker, ln: LnObservation, choice: Choice)
    requires id !in w.frames && w.rec.state == EvmFundingPending && !choice.pass && ln != LnFound(Settled)
    ensures Step(c, At(w, id, ReconcileDecide(EvmFundingPending, ln, EvmSeen(Empty, w.now))), Advance(id, choice))
         == Escalated(w)
  {
    var f := ReconcileDecide(EvmFundingPending, ln, EvmSeen(Empty, w.now));
    assert At(w, id, f).frames - {id} == w.frames;
  }
}
