/**
 The coordinator's methods as they are written, updating the rails and the
 record in place. Each uninterrupted call, with any fault at any await, is
 proved equal to its path through the transition system.
 */
module CoordinatorMethods {
  import opened Wrappers
  import opened SwapTypes
  import opened Rails
  import opened CoordinatorSteps
  import opened CoordinatorTheorems
  import R = ReservationRules

  /** What happens at each await, counted down from the first. */
  type Script = nat -> Choice

  /** Runs a method from a section to its end, or until `n` awaits are used up. */
  function Play(c: Config, s: Section, script: Script, n: nat): World
    decreases n
  {
    match s
    case Finish(w) => w
    case Continue(w, f) =>
      if n == 0 || !Holding(f) then w else Play(c, ClaimedSection(c, w, f, script(n)), script, n - 1)
  }

  lemma PlayOn(c: Config, w: World, f: Frame, script: Script, n: nat)
    requires n > 0 && Holding(f)
    ensures Play(c, Continue(w, f), script, n) == Play(c, ClaimedSection(c, w, f, script(n)), script, n - 1)
  {
  }

  lemma PlayEnds(c: Config, w: World, script: Script, n: nat)
    ensures Play(c, Finish(w), script, n) == w
  {
  }

  /** The longest method, a reconciliation that refunds, has fewer awaits than this. */
  const Enough: nat := 20

  function PlayCall(c: Config, w: World, begin: Option<Section>, script: Script, n: nat): World {
    match begin
    case None => w
    case Some(s) => Play(c, s, script, n)
  }

  lemma PlayEndsAlways(c: Config, script: Script, n: nat)
    ensures forall w {:trigger Finish(w)} :: Play(c, Finish(w), script, n) == w
  {
  }

  predicate TakesClaim(call: Call) { !call.DetectHold? && !call.ConfirmDelivery? }

  /** One claimed call by one worker that nothing interrupts. */
  function Solo(c: Config, w: World, id: Worker, call: Call, script: Script, n: nat): World
    requires TakesClaim(call) && n > 0
  {
    if id in w.frames || !ClaimFree(w, id) then w
    else
      match Begin(c, w.(claim := Some(id)), call, script(n))
      case None => w
      case Some(s) => Play(c, s, script, n - 1).(claim := None)
  }

  class AtomicCoordinator {
    const config: Config
    var ln: Lightning
    var htlc: Htlc
    var now: int
    var block: nat
    var rec: Record
    var reservation: Reservation
    var claim: Option<Worker>
    var frames: map<Worker, Frame>

    function View(): World
      reads this
    {
      World(ln, htlc, now, block, rec, reservation, claim, frames)
    }

    constructor (config: Config, w: World)
      ensures View() == w && this.config == config
    {
      this.config := config;
      ln, htlc, now, block, rec := w.ln, w.htlc, w.now, w.block, w.rec;
      reservation, claim, frames := w.reservation, w.claim, w.frames;
    }

    // -------------------------------------------------------------- one effect

    method UpdateRecord(next: Record)
      modifies this`rec
      ensures View() == Put(old(View()), next)
      // a guarded state outlives a stale writer, and the refused write changes nothing else either
      ensures GuardedState(old(rec.state)) ==> rec.state == old(rec.state)
      ensures rec == next || (rec == old(rec) && GuardedState(old(rec.state)) && next.state != old(rec.state))
    {
      if (rec.state == Completed || rec.state == SwapRefunded || rec.state == InvoiceCanceled)
         && next.state != rec.state
      {
        return;
      }
      rec := next;
    }

    method MarkRecoveryRequired()
      modifies this`rec
      ensures View() == MarkRecovery(old(View()))
    {
      rec := rec.(state := RecoveryRequired, recoveryRequired := true);
    }

    method TransitionReservation(next: Option<Reservation>) returns (ok: bool)
      modifies this`rec, this`reservation
      ensures ok == next.Some?
      ensures View() == if ok then WithReservation(old(View()), next.value) else old(View())
    {
      if next.None? { return false; }
      reservation := next.value;
      rec := rec.(reservationStatus := next.value);
      ok := true;
    }

    method CommitAndAdvanceToFunded() returns (ok: bool)
      modifies this`rec, this`reservation
      ensures ok == CommitAndAdvance(old(View())).Some?
      ensures View() == if ok then CommitAndAdvance(old(View())).value else old(View())
    {
      if reservation != Reserved && reservation != Committed { return false; }
      reservation := Committed;
      rec := rec.(reservationStatus := Committed);
      if rec.state == EvmFundingPending { rec := rec.(state := EvmFunded); }
      ok := true;
    }

    method SettleHoldInvoice(fault: Fault) returns (ok: bool)
      modifies this`ln
      ensures View() == CallLightning(old(View()), SettleInvoice(old(ln)), fault)
      ensures ok == Returned(SettleInvoice(old(ln)), fault)
    {
      var e := SettleInvoice(ln);
      if fault != NoEffect { ln := e.state; }
      ok := e.ok && fault == NoFault;
    }

    method CancelHoldInvoice(fault: Fault) returns (ok: bool)
      modifies this`ln
      ensures View() == CallLightning(old(View()), CancelInvoice(old(ln)), fault)
      ensures ok == Returned(CancelInvoice(old(ln)), fault)
    {
      var e := CancelInvoice(ln);
      if fault != NoEffect { ln := e.state; }
      ok := e.ok && fault == NoFault;
    }

    method CallBase(e: Effect<Chain>, fault: Fault) returns (ok: bool)
      modifies this`htlc, this`block
      ensures View() == CallChain(old(View()), e, fault) && ok == Returned(e, fault)
    {
      if fault != NoEffect { htlc, block := e.state.htlc, e.state.block; }
      ok := e.ok && fault == NoFault;
    }

    // ------------------------------------------------------------ fundEvmHtlc

    method FundEvmHtlc(script: Script, n: nat)
      requires n >= 8
      modifies this
      ensures View() == PlayCall(config, old(View()), BeginFund(old(View()), script(n)), script, n - 1)
    {
      hide Play, SettleSection, ClaimSection, UnfundedSection, RefundSection, ReconcileSection;
      if !script(n).pass || (rec.state != LightningHeld && rec.state != EvmFundingPending) { return; }
      PlayOn(config, View(), FundQuery, script, n - 1);
      if script(n - 1).fault != NoFault || ln != Accepted { PlayEnds(config, View(), script, n - 2); return; }
      PlayOn(config, View(), FundChecks, script, n - 2);
      if rec.reservationStatus != Reserved || !script(n - 2).pass || script(n - 2).fault != NoFault {
        PlayEnds(config, View(), script, n - 3);
        return;
      }
      var lock := now + config.timelockSeconds;
      PlayOn(config, View(), FundPersist(lock), script, n - 3);
      UpdateRecord(rec.(state := EvmFundingPending, refundLocktime := Some(lock)));
      DispatchFunding(lock, script, n - 4);
    }

    method DispatchFunding(lock: int, script: Script, n: nat)
      requires n >= 4
      modifies this
      ensures View() == Play(config, Continue(old(View()), FundDispatch(lock)), script, n)
    {
      hide Play, SettleSection, ClaimSection, UnfundedSection, RefundSection, ReconcileSection;
      PlayOn(config, View(), FundDispatch(lock), script, n);
      var ok := CallBase(FundHtlc(ChainOf(View()), lock), script(n).fault);
      if ok {
        CommitFunding(lock, true, script, n - 1);
      } else {
        PlayOn(config, View(), FundRecheck(lock), script, n - 1);
        if script(n - 1).fault != NoFault || htlc == Empty { PlayEnds(config, View(), script, n - 2); return; }
        CommitFunding(lock, rec.htlcId, script, n - 2);
      }
    }

    method CommitFunding(lock: int, idKnown: bool, script: Script, n: nat)
      requires n >= 2
      modifies this
      ensures View() == Play(config, Continue(old(View()), FundCommit(lock, idKnown)), script, n)
    {
      hide Play, SettleSection, ClaimSection, UnfundedSection, RefundSection, ReconcileSection;
      PlayOn(config, View(), FundCommit(lock, idKnown), script, n);
      var ok := TransitionReservation(R.Commit(reservation));
      if !ok { PlayEnds(config, View(), script, n - 1); return; }
      PlayOn(config, View(), FundRecord(lock, idKnown), script, n - 1);
      UpdateRecord(rec.(state := EvmFunded, reservationStatus := Committed, refundLocktime := Some(lock),
                        htlcId := idKnown || rec.htlcId));
      PlayEnds(config, View(), script, n - 2);
    }

    // -------------------------------------------- settleLightningFromEvmClaim

    method SettleLightningFromEvmClaim(tx: TxHash, script: Script, n: nat)
      requires n >= 7
      modifies this
      ensures View() == PlayCall(config, old(View()), BeginSettle(config, old(View()), tx), script, n)
    {
      hide Play, FundSection, ClaimSection, UnfundedSection, RefundSection, ReconcileSection;
      var seen := rec.state;
      if config.confirmations == None || RefundPath(seen) { return; }
      if seen == LightningSettled || seen == Completed || seen == DestinationPending { return; }
      PlayOn(config, View(), SettleGate(tx, seen), script, n);
      var view := if script(n).live then rec.state else seen;
      if !script(n).pass || script(n).fault != NoFault || !Settleable(view) || !rec.htlcId {
        PlayEnds(config, View(), script, n - 1);
        return;
      }
      SettleOnEvidence(tx, config.confirmations.value, script, n - 1);
    }

    /** Only final claim evidence settles; final refund evidence instead calls for recovery. */
    method SettleOnEvidence(tx: TxHash, required: nat, script: Script, n: nat)
      requires n >= 5 && config.confirmations == Some(required)
      modifies this
      ensures View() == Play(config, Continue(old(View()), SettleEvidence(tx)), script, n)
    {
      hide Play, FundSection, ClaimSection, UnfundedSection, RefundSection, ReconcileSection, ClaimEvidenceFinal;
      hide RefundEvidenceFinal;
      PlayOn(config, View(), SettleEvidence(tx), script, n);
      if !script(n).pass || script(n).fault != NoFault || !ClaimEvidenceFinal(ChainOf(View()), tx, required) {
        if RefundEvidenceFinal(ChainOf(View()), tx, required) { rec := rec.(recoveryRequired := true); }
        PlayEnds(config, View(), script, n - 1);
        return;
      }
      PlayOn(config, View(), SettleMark(tx), script, n - 1);
      UpdateRecord(rec.(state := EvmClaimConfirmed, claimTx := Some(tx)));
      UpdateRecord(rec.(state := LightningSettlementPending));
      DispatchSettlement(script, n - 2);
    }

    method DispatchSettlement(script: Script, n: nat)
      requires n >= 3
      modifies this
      ensures View() == Play(config, Continue(old(View()), SettleDispatch), script, n)
    {
      hide Play, FundSection, ClaimSection, UnfundedSection, RefundSection, ReconcileSection;
      PlayOn(config, View(), SettleDispatch, script, n);
      var ok := SettleHoldInvoice(script(n).fault);
      var left := n - 1;
      if !ok {
        PlayOn(config, View(), SettleRecheck, script, left);
        if script(left).fault != NoFault || ln != Settled {
          if script(left).fault == NoFault && ln == Canceled { rec := rec.(recoveryRequired := true); }
          PlayEnds(config, View(), script, left - 1);
          return;
        }
        left := left - 1;
      }
      PlayOn(config, View(), SettleRecord, script, left);
      UpdateRecord(rec.(state := DestinationPending));
      PlayEnds(config, View(), script, left - 1);
    }

    // --------------------------------------------------------------- claimSwap

    method ClaimSwap(script: Script, n: nat)
      requires n >= 7
      modifies this
      ensures View() == PlayCall(config, old(View()), BeginClaim(config, old(View()), script(n)), script, n - 1)
    {
      hide Play, FundSection, SettleSection, UnfundedSection, RefundSection, ReconcileSection, ClaimEvidenceFinal;
      if config.confirmations == None || !Claimable(rec.state) || !script(n).pass { return; }
      UpdateRecord(rec.(state := Claiming));
      PlayOn(config, View(), ClaimObserve, script, n - 1);
      if script(n - 1).fault != NoFault { PlayEnds(config, View(), script, n - 2); return; }
      if htlc.Claimed? {
        VerifyClaim(if rec.claimTx.Some? then rec.claimTx.value else Preclaimed, script, n - 2);
        return;
      }
      PlayOn(config, View(), ClaimDispatch, script, n - 2);
      var ok := CallBase(ClaimHtlc(ChainOf(View())), script(n - 2).fault);
      if !ok { PlayEnds(config, View(), script, n - 3); return; }
      VerifyClaim(htlc.tx, script, n - 3);
    }

    method VerifyClaim(tx: TxHash, script: Script, n: nat)
      requires n >= 3
      modifies this
      ensures View() == Play(config, Continue(old(View()), ClaimEvidence(tx)), script, n)
    {
      hide Play, FundSection, SettleSection, UnfundedSection, RefundSection, ReconcileSection, ClaimEvidenceFinal;
      PlayOn(config, View(), ClaimEvidence(tx), script, n);
      if tx != Preclaimed {
        if config.confirmations.None? || !script(n).pass || script(n).fault != NoFault
           || !ClaimEvidenceFinal(ChainOf(View()), tx, config.confirmations.value)
        {
          PlayEnds(config, View(), script, n - 1);
          return;
        }
      }
      SettleClaim(tx, script, n - 1);
    }

    method SettleClaim(tx: TxHash, script: Script, n: nat)
      requires n >= 2
      modifies this
      ensures View() == Play(config, Continue(old(View()), ClaimSettle(tx)), script, n)
    {
      hide Play, FundSection, SettleSection, UnfundedSection, RefundSection, ReconcileSection;
      PlayOn(config, View(), ClaimSettle(tx), script, n);
      var ok := SettleHoldInvoice(script(n).fault);
      if !ok { PlayEnds(config, View(), script, n - 1); return; }
      PlayOn(config, View(), ClaimRecord(tx), script, n - 1);
      UpdateRecord(rec.(state := DestinationPending, claimTx := Some(tx)));
      PlayEnds(config, View(), script, n - 2);
    }

    // ------------------------------------------------------------ processRefund

    method ProcessRefund(script: Script, n: nat)
      requires n >= 12
      modifies this
      ensures View() == PlayCall(config, old(View()), BeginRefund(config, old(View())), script, n)
    {
      hide Play, FundSection, SettleSection, ClaimSection, UnfundedSection, RefundSection, ReconcileSection;
      if rec.state == SwapRefunded || AlreadyClaimedState(rec.state) { return; }
      if rec.state == InvoiceCreated {
        ExpireUnpaid(script, n);
      } else if rec.state == LightningHeld {
        CancelHeld(script, n);
      } else if Refundable(rec.state) && config.confirmations.Some? {
        RefundBase(script, n);
      } else {
        PlayEnds(config, View(), script, n);
      }
    }

    method ExpireUnpaid(script: Script, n: nat)
      requires n >= 2
      modifies this
      ensures View() == Play(config, Continue(old(View()), ExpireCancel), script, n)
    {
      hide Play, FundSection, SettleSection, ClaimSection, RefundSection, ReconcileSection, ReleaseUnfunded;
      PlayOn(config, View(), ExpireCancel, script, n);
      var ok := CancelHoldInvoice(script(n).fault);
      if !ok { PlayEnds(config, View(), script, n - 1); return; }
      PlayOn(config, View(), ExpireRecord, script, n - 1);
      RecordUnfunded(Expired);
      PlayEnds(config, View(), script, n - 2);
    }

    method CancelHeld(script: Script, n: nat)
      requires n >= 3
      modifies this
      ensures View() == Play(config, Continue(old(View()), HeldObserve), script, n)
    {
      hide Play, FundSection, SettleSection, ClaimSection, RefundSection, ReconcileSection, ReleaseUnfunded;
      PlayOn(config, View(), HeldObserve, script, n);
      if script(n).fault != NoFault || htlc != Empty { PlayEnds(config, View(), script, n - 1); return; }
      PlayOn(config, View(), HeldCancel, script, n - 1);
      var ok := CancelHoldInvoice(script(n - 1).fault);
      if !ok { PlayEnds(config, View(), script, n - 2); return; }
      PlayOn(config, View(), HeldRecord, script, n - 2);
      RecordUnfunded(InvoiceCanceled);
      PlayEnds(config, View(), script, n - 3);
    }

    /** A held reservation is released; the row says RELEASED either way. */
    method RecordUnfunded(state: SwapState)
      modifies this`rec, this`reservation
      ensures View() == ReleaseUnfunded(old(View()), state)
    {
      if rec.reservationStatus == Reserved {
        var _ := TransitionReservation(R.Release(reservation));
      }
      UpdateRecord(rec.(state := state, reservationStatus := Released));
    }

    method RefundBase(script: Script, n: nat)
      requires n >= 12
      modifies this
      ensures View() == Play(config, Continue(old(View()), RefundObserve), script, n)
    {
      hide Play, FundSection, SettleSection, ClaimSection, UnfundedSection, ReconcileSection;
      PlayOn(config, View(), RefundObserve, script, n);
      if script(n).fault != NoFault { PlayEnds(config, View(), script, n - 1); return; }
      var seen, timestamp := htlc, now;
      PlayOn(config, View(), RefundDecide(seen, timestamp), script, n - 1);
      if seen.Claimed? {
        UpdateRecord(rec.(state := EvmClaimConfirmed));
        PlayEnds(config, View(), script, n - 2);
        return;
      }
      if seen.Refunded? { VerifyRefund(script, n - 2); return; }
      if seen.Locked? && timestamp < seen.lock { PlayEnds(config, View(), script, n - 2); return; }
      UpdateRecord(rec.(state := EvmRefundPending));
      DispatchRefund(script, n - 2);
    }

    method DispatchRefund(script: Script, n: nat)
      requires n >= 10
      modifies this
      ensures View() == Play(config, Continue(old(View()), RefundDispatch), script, n)
    {
      hide Play, FundSection, SettleSection, ClaimSection, UnfundedSection, ReconcileSection;
      PlayOn(config, View(), RefundDispatch, script, n);
      var ok := CallBase(RefundHtlc(ChainOf(View()), now), script(n).fault);
      if ok {
        ConfirmRefund(htlc.tx, script, n - 1);
      } else {
        PlayOn(config, View(), RefundRecheck, script, n - 1);
        if script(n - 1).fault != NoFault || !htlc.Refunded? { PlayEnds(config, View(), script, n - 2); return; }
        ConfirmRefund(ReconciledRefund, script, n - 2);
      }
    }

    method ConfirmRefund(tx: TxHash, script: Script, n: nat)
      requires n >= 8
      modifies this
      ensures View() == Play(config, Continue(old(View()), RefundConfirm(tx)), script, n)
    {
      hide Play, FundSection, SettleSection, ClaimSection, UnfundedSection, ReconcileSection;
      PlayOn(config, View(), RefundConfirm(tx), script, n);
      UpdateRecord(rec.(state := EvmRefundConfirmed, refundTx := Some(tx)));
      VerifyRefund(script, n - 1);
    }

    method VerifyRefund(script: Script, n: nat)
      requires n >= 7
      modifies this
      ensures View() == Play(config, Continue(old(View()), RefundVerify), script, n)
    {
      hide Play, FundSection, SettleSection, ClaimSection, UnfundedSection, ReconcileSection, RefundEvidenceFinal;
      PlayOn(config, View(), RefundVerify, script, n);
      if rec.refundTx.Some? && rec.refundTx != Some(ReconciledRefund) {
        if config.confirmations.None? || !script(n).pass || script(n).fault != NoFault
           || !RefundEvidenceFinal(ChainOf(View()), rec.refundTx.value, config.confirmations.value)
        {
          PlayEnds(config, View(), script, n - 1);
          return;
        }
      }
      PlayOn(config, View(), RefundMark, script, n - 1);
      UpdateRecord(rec.(state := LightningCancelPending));
      CancelAfterRefund(script, n - 2);
    }

    method CancelAfterRefund(script: Script, n: nat)
      requires n >= 3
      modifies this
      ensures View() == Play(config, Continue(old(View()), RefundCancel), script, n)
    {
      hide Play, FundSection, SettleSection, ClaimSection, UnfundedSection, ReconcileSection, FinishRefund;
      PlayOn(config, View(), RefundCancel, script, n);
      var ok := CancelHoldInvoice(script(n).fault);
      if ok { RestoreAfterRefund(script, n - 1); return; }
      PlayOn(config, View(), RefundCancelRecheck, script, n - 1);
      if script(n - 1).fault == NoFault && ln == Canceled { RestoreAfterRefund(script, n - 2); return; }
      if script(n - 1).fault == NoFault && ln == Settled { rec := rec.(recoveryRequired := true); }
      PlayEnds(config, View(), script, n - 2);
    }

    method RestoreAfterRefund(script: Script, n: nat)
      requires n >= 1
      modifies this
      ensures View() == Play(config, Continue(old(View()), RefundRestore), script, n)
    {
      hide Play, FundSection, SettleSection, ClaimSection, UnfundedSection, ReconcileSection;
      PlayOn(config, View(), RefundRestore, script, n);
      var restored := TransitionReservation(R.RestoreRefund(reservation));
      if restored {
        UpdateRecord(rec.(state := SwapRefunded, reservationStatus := Released));
      } else {
        MarkRecoveryRequired();
      }
      PlayEnds(config, View(), script, n - 1);
    }

    // ------------------------------------------------------------ reconcileSwap

    method ReconcileSwap(script: Script, n: nat)
      requires n >= 16
      modifies this
      ensures View() == PlayCall(config, old(View()), BeginReconcile(old(View())), script, n)
    {
      hide Play, FundSection, SettleSection, ClaimSection, UnfundedSection, RefundSection, Decide;
      var seen := rec.state;
      if Terminal(seen) { return; }
      PlayOn(config, View(), ReconcileLightning(seen), script, n);
      ObserveBase(seen, ObserveLightning(ln, script(n).fault), script, n - 1);
    }

    method ObserveBase(seen: SwapState, invoice: LnObservation, script: Script, n: nat)
      requires n >= 15
      modifies this
      ensures View() == Play(config, Continue(old(View()), ReconcileEvm(seen, invoice)), script, n)
    {
      hide Play, FundSection, SettleSection, ClaimSection, UnfundedSection, RefundSection, Decide;
      PlayOn(config, View(), ReconcileEvm(seen, invoice), script, n);
      var base := ObserveEvm(View(), script(n).fault);
      PlayOn(config, View(), ReconcileDecide(seen, invoice, base), script, n - 1);
      Resolve(seen, invoice, base, script, n - 1);
    }

    /** The case table over the two observations; `script(n)` answers the free checks of the decision itself. */
    method Resolve(seen: SwapState, invoice: LnObservation, base: EvmObservation, script: Script, n: nat)
      requires n >= 14
      modifies this
      ensures View() == Play(config, Decide(config, old(View()), seen, invoice, base, script(n)), script, n - 1)
    {
      hide Play, DecideSettled, DecideClaimed, DecideRefunded, DecideLocked, DecideAbsent;
      if invoice.LnUnknown? || base.EvmUnknown? {
        MarkRecoveryRequired();
        PlayEnds(config, View(), script, n - 1);
        return;
      }
      if invoice == LnFound(Settled) { ResolveSettled(base.htlc, script, n - 1); return; }
      match base.htlc {
        case Claimed(_, _, _) => ResolveClaimed(invoice, script, n - 1);
        case Refunded(_, _, _) => ResolveRefunded(invoice, script, n - 1);
        case Locked(lock) => ResolveLocked(invoice, lock, base.timestamp, script, n - 1);
        case Empty => ResolveAbsent(invoice, if script(n).live then rec.state else seen, script, n);
      }
    }

    method ResolveSettled(h: Htlc, script: Script, n: nat)
      modifies this
      ensures View() == Play(config, DecideSettled(old(View()), h), script, n)
    {
      hide Play;
      if !h.Claimed? {
        MarkRecoveryRequired();
      } else {
        var ok := TransitionReservation(R.Settle(reservation));
        if ok {
          UpdateRecord(rec.(state := Completed, reservationStatus := ReservationSettled, recoveryRequired := false));
        } else {
          MarkRecoveryRequired();
        }
      }
      PlayEnds(config, View(), script, n);
    }

    method ResolveClaimed(invoice: LnObservation, script: Script, n: nat)
      requires n >= 7
      modifies this
      ensures View() == Play(config, DecideClaimed(config, old(View()), invoice), script, n)
    {
      hide Play, BeginSettle;
      PlayEndsAlways(config, script, n);
      if invoice != LnFound(Accepted) { MarkRecoveryRequired(); return; }
      if rec.claimTx.Some? {
        if rec.settleRetries >= config.maxRetries { MarkRecoveryRequired(); return; }
        rec := rec.(settleRetries := rec.settleRetries + 1, retries := rec.retries + 1);
        SettleLightningFromEvmClaim(rec.claimTx.value, script, n);
      } else {
        var ok := CommitAndAdvanceToFunded();
        if !ok { MarkRecoveryRequired(); return; }
        UpdateRecord(rec.(state := EvmClaimDetected, reservationStatus := Committed, recoveryRequired := true));
      }
    }

    method ResolveRefunded(invoice: LnObservation, script: Script, n: nat)
      requires n >= 3
      modifies this
      ensures View() == Play(config, DecideRefunded(config, old(View()), invoice), script, n)
    {
      hide Play, FundSection, SettleSection, ClaimSection, UnfundedSection, RefundSection;
      PlayEndsAlways(config, script, n);
      if invoice == LnFound(Open) || invoice == LnFound(Accepted) {
        if rec.cancelRetries >= config.maxRetries { MarkRecoveryRequired(); return; }
        rec := rec.(cancelRetries := rec.cancelRetries + 1, retries := rec.retries + 1);
        CancelRefunded(script, n);
      } else if GoneOrCanceled(invoice) {
        FinishReconciled();
      }
    }

    method CancelRefunded(script: Script, n: nat)
      requires n >= 3
      modifies this
      ensures View() == Play(config, Continue(old(View()), ReconcileCancel), script, n)
    {
      hide Play, FundSection, SettleSection, ClaimSection, UnfundedSection, RefundSection, FinishReconciledRefund;
      PlayOn(config, View(), ReconcileCancel, script, n);
      var ok := CancelHoldInvoice(script(n).fault);
      if ok { RestoreReconciled(script, n - 1); return; }
      PlayOn(config, View(), ReconcileReobserve, script, n - 1);
      if script(n - 1).fault == NoFault && ln == Canceled { RestoreReconciled(script, n - 2); return; }
      MarkRecoveryRequired();
      PlayEnds(config, View(), script, n - 2);
    }

    method RestoreReconciled(script: Script, n: nat)
      requires n >= 1
      modifies this
      ensures View() == Play(config, Continue(old(View()), ReconcileRestore), script, n)
    {
      hide Play, FundSection, SettleSection, ClaimSection, UnfundedSection, RefundSection, FinishReconciledRefund;
      PlayOn(config, View(), ReconcileRestore, script, n);
      FinishReconciled();
      PlayEnds(config, View(), script, n - 1);
    }

    method FinishReconciled()
      modifies this`rec, this`reservation
      ensures View() == FinishReconciledRefund(old(View()))
    {
      var ok := TransitionReservation(R.RestoreRefund(reservation));
      if ok {
        UpdateRecord(rec.(state := SwapRefunded, reservationStatus := Released, recoveryRequired := false));
      } else {
        MarkRecoveryRequired();
      }
    }

    method ResolveLocked(invoice: LnObservation, lock: int, timestamp: int, script: Script, n: nat)
      requires n >= 12
      modifies this
      ensures View() == Play(config, DecideLocked(config, old(View()), invoice, lock, timestamp), script, n)
    {
      hide Play, BeginRefund;
      PlayEndsAlways(config, script, n);
      if invoice != LnFound(Accepted) { MarkRecoveryRequired(); return; }
      if timestamp >= lock {
        if rec.refundRetries >= config.maxRetries { MarkRecoveryRequired(); return; }
        rec := rec.(refundRetries := rec.refundRetries + 1, retries := rec.retries + 1);
        ProcessRefund(script, n);
      } else {
        var ok := CommitAndAdvanceToFunded();
        if !ok { MarkRecoveryRequired(); return; }
        UpdateRecord(rec.(state := EvmFunded, reservationStatus := Committed, recoveryRequired := false));
      }
    }

    method RetryFundingNow(script: Script, n: nat)
      requires n >= 8
      modifies this
      ensures View() == Play(config, RetryFunding(config, old(View()), script(n)), script, n - 1)
    {
      hide Play, BeginFund;
      PlayEndsAlways(config, script, n - 1);
      if rec.fundRetries >= config.maxRetries { MarkRecoveryRequired(); return; }
      rec := rec.(fundRetries := rec.fundRetries + 1, retries := rec.retries + 1);
      FundEvmHtlc(script, n);
    }

    method ResolveAbsent(invoice: LnObservation, view: SwapState, script: Script, n: nat)
      requires n >= 8
      modifies this
      ensures View() == Play(config, DecideAbsent(config, old(View()), invoice, view, script(n)), script, n - 1)
    {
      hide Play, RetryFunding, FinishCanceled;
      PlayEndsAlways(config, script, n - 1);
      if view == EvmFundingPending && !script(n).pass { MarkRecoveryRequired(); return; }
      if invoice == LnFound(Open) && (view == PlanPrepared || view == InvoiceCreated || view == RecoveryRequired) {
        UpdateRecord(rec.(state := InvoiceCreated, recoveryRequired := false));
      } else if invoice == LnFound(Accepted) && (view == PlanPrepared || view == InvoiceCreated) {
        UpdateRecord(rec.(state := LightningHeld, recoveryRequired := false));
        RetryFundingNow(script, n);
      } else if invoice == LnFound(Accepted) && view == LightningHeld {
        RetryFundingNow(script, n);
      } else if invoice == LnFound(Accepted) {
        MarkRecoveryRequired();
      } else if GoneOrCanceled(invoice) {
        ReleaseCanceled();
      }
    }

    /** The invoice is gone and Base was never funded: the reservation is released with the record. */
    method ReleaseCanceled()
      modifies this`rec, this`reservation
      ensures View() == FinishCanceled(old(View()))
    {
      var ok := TransitionReservation(R.Release(reservation));
      if ok {
        UpdateRecord(rec.(state := InvoiceCanceled, reservationStatus := Released, recoveryRequired := false));
      } else {
        MarkRecoveryRequired();
      }
    }

    // ------------------------------------------------------------------- entry

    /** Takes the action claim if it is free, runs the method, and releases the claim in its `finally`. */
    method Perform(id: Worker, call: Call, script: Script)
      requires TakesClaim(call)
      modifies this
      ensures View() == Solo(config, old(View()), id, call, script, Enough)
    {
      hide Play, BeginFund, BeginSettle, BeginClaim, BeginRefund, BeginReconcile;
      if id in frames || !ClaimFree(View(), id) { return; }
      var before := claim;
      claim := Some(id);
      var begins := Begin(config, View(), call, script(Enough)).Some?;
      match call {
        case Fund => FundEvmHtlc(script, Enough);
        case SettleFromClaim(tx) => SettleLightningFromEvmClaim(tx, script, Enough - 1);
        case ClaimForClient => ClaimSwap(script, Enough);
        case ProcessRefund => ProcessRefund(script, Enough - 1);
        case Reconcile => ReconcileSwap(script, Enough - 1);
      }
      // a method that throws before it has claimed leaves the claim alone
      claim := if begins then None else before;
    }
  }

  // ------------------------------------------------- methods are runs of the system

  function Framed(s: Section, frames: map<Worker, Frame>): Section {
    match s
    case Continue(w, f) => Continue(w.(frames := frames), f)
    case Finish(w) => Finish(w.(frames := frames))
  }

  /** Sections neither read nor write the suspended workers. */
  lemma SectionIgnoresFrames(c: Config, w: World, f: Frame, choice: Choice, frames: map<Worker, Frame>)
    requires Holding(f)
    ensures ClaimedSection(c, w.(frames := frames), f, choice) == Framed(ClaimedSection(c, w, f, choice), frames)
  {
    if IsFund(f) { FundIgnores(c, w, f, choice, frames); }
    else if IsSettle(f) { SettleIgnores(c, w, f, choice, frames); }
    else if IsClaim(f) { ClaimIgnores(c, w, f, choice, frames); }
    else if IsUnfunded(f) { UnfundedIgnores(w, f, choice, frames); }
    else if IsRefund(f) { RefundIgnores(c, w, f, choice, frames); }
    else { ReconcileIgnores(c, w, f, choice, frames); }
  }

  lemma FundIgnores(c: Config, w: World, f: Frame, choice: Choice, frames: map<Worker, Frame>)
    requires IsFund(f)
    ensures FundSection(c, w.(frames := frames), f, choice) == Framed(FundSection(c, w, f, choice), frames)
  {
  }

  lemma SettleIgnores(c: Config, w: World, f: Frame, choice: Choice, frames: map<Worker, Frame>)
    requires IsSettle(f)
    ensures SettleSection(c, w.(frames := frames), f, choice) == Framed(SettleSection(c, w, f, choice), frames)
  {
  }

  lemma ClaimIgnores(c: Config, w: World, f: Frame, choice: Choice, frames: map<Worker, Frame>)
    requires IsClaim(f)
    ensures ClaimSection(c, w.(frames := frames), f, choice) == Framed(ClaimSection(c, w, f, choice), frames)
  {
  }

  lemma UnfundedIgnores(w: World, f: Frame, choice: Choice, frames: map<Worker, Frame>)
    requires IsUnfunded(f)
    ensures UnfundedSection(w.(frames := frames), f, choice) == Framed(UnfundedSection(w, f, choice), frames)
  {
  }

  lemma RefundIgnores(c: Config, w: World, f: Frame, choice: Choice, frames: map<Worker, Frame>)
    requires IsRefund(f)
    ensures RefundSection(c, w.(frames := frames), f, choice) == Framed(RefundSection(c, w, f, choice), frames)
  {
  }

  lemma ReconcileIgnores(c: Config, w: World, f: Frame, choice: Choice, frames: map<Worker, Frame>)
    requires IsReconcile(f)
    ensures ReconcileSection(c, w.(frames := frames), f, choice) == Framed(ReconcileSection(c, w, f, choice), frames)
  {
    if f.ReconcileDecide? {
      hide Decide;
      DecideIgnores(c, w, f.seen, f.ln, f.evm, choice, frames);
    }
  }

  lemma DecideIgnores(c: Config, w: World, seen: SwapState, ln: LnObservation, evm: EvmObservation, choice: Choice,
                      frames: map<Worker, Frame>)
    ensures Decide(c, w.(frames := frames), seen, ln, evm, choice)
         == Framed(Decide(c, w, seen, ln, evm, choice), frames)
  {
    hide DecideSettled, DecideClaimed, DecideRefunded, DecideLocked, DecideAbsent;
    if !ln.LnUnknown? && !evm.EvmUnknown? {
      SettledAndClaimedIgnore(c, w, ln, evm.htlc, frames);
      RefundedIgnores(c, w, ln, frames);
      LockedIgnores(c, w, ln, if evm.htlc.Locked? then evm.htlc.lock else 0, evm.timestamp, frames);
      AbsentIgnores(c, w, ln, if choice.live then w.rec.state else seen, choice, frames);
    }
  }

  lemma SettledAndClaimedIgnore(c: Config, w: World, ln: LnObservation, h: Htlc, frames: map<Worker, Frame>)
    ensures DecideSettled(w.(frames := frames), h) == Framed(DecideSettled(w, h), frames)
    ensures DecideClaimed(c, w.(frames := frames), ln) == Framed(DecideClaimed(c, w, ln), frames)
  {
  }

  lemma RefundedIgnores(c: Config, w: World, ln: LnObservation, frames: map<Worker, Frame>)
    ensures DecideRefunded(c, w.(frames := frames), ln) == Framed(DecideRefunded(c, w, ln), frames)
  {
  }

  lemma NestedRefundIgnores(c: Config, w: World, frames: map<Worker, Frame>)
    ensures Nested(w.(frames := frames), BeginRefund(c, w.(frames := frames)))
         == Framed(Nested(w, BeginRefund(c, w)), frames)
  {
  }

  lemma CommitIgnores(w: World, frames: map<Worker, Frame>)
    ensures CommitAndAdvance(w.(frames := frames)).Some? <==> CommitAndAdvance(w).Some?
    ensures CommitAndAdvance(w).Some? ==>
      CommitAndAdvance(w.(frames := frames)).value == CommitAndAdvance(w).value.(frames := frames)
  {
  }

  lemma LockedIgnores(c: Config, w: World, ln: LnObservation, lock: int, timestamp: int, frames: map<Worker, Frame>)
    ensures DecideLocked(c, w.(frames := frames), ln, lock, timestamp)
         == Framed(DecideLocked(c, w, ln, lock, timestamp), frames)
  {
    var w1 := w.(rec := w.rec.(refundRetries := w.rec.refundRetries + 1, retries := w.rec.retries + 1));
    NestedRefundIgnores(c, w1, frames);
    assert w1.(frames := frames) == w.(frames := frames).(rec := w1.rec);
    CommitIgnores(w, frames);
    hide Nested, BeginRefund, CommitAndAdvance;
  }

  lemma RetryIgnores(c: Config, w: World, choice: Choice, frames: map<Worker, Frame>)
    ensures RetryFunding(c, w.(frames := frames), choice) == Framed(RetryFunding(c, w, choice), frames)
  {
  }

  lemma AbsentIgnores(c: Config, w: World, ln: LnObservation, view: SwapState, choice: Choice,
                      frames: map<Worker, Frame>)
    ensures DecideAbsent(c, w.(frames := frames), ln, view, choice)
         == Framed(DecideAbsent(c, w, ln, view, choice), frames)
  {
    var held := Put(w, w.rec.(state := LightningHeld, recoveryRequired := false));
    assert held.(frames := frames)
        == Put(w.(frames := frames), w.rec.(state := LightningHeld, recoveryRequired := false));
    RetryIgnores(c, w, choice, frames);
    RetryIgnores(c, held, choice, frames);
    hide RetryFunding;
  }

  /** Everything but the workers and their claim. */
  predicate SameBooks(w: World, v: World) {
    w == v.(frames := w.frames, claim := w.claim)
  }

  /** Playing a method to its end is what the system does when only this worker advances. */
  lemma {:induction false} PlayIsARun(c: Config, s: Section, script: Script, n: nat, id: Worker, w: World)
    requires w == Apply(id, s)
    ensures exists v :: Reaches(c, w, v) && SameBooks(v, Play(c, s, script, n))
    decreases n
  {
    hide ClaimedSection;
    if s.Finish? || n == 0 || !Holding(s.frame) {
      assert Run(c, w, []) == w;
      assert Reaches(c, w, w);
    } else {
      var choice := script(n);
      var next := ClaimedSection(c, s.world, s.frame, choice);
      var w1 := Step(c, w, Advance(id, choice));
      SectionIgnoresFrames(c, s.world, s.frame, choice, w.frames);
      assert w == s.world.(frames := w.frames);
      assert w1 == Apply(id, Framed(next, w.frames));
      PlayFramed(c, next, script, n - 1, w.frames);
      PlayIsARun(c, Framed(next, w.frames), script, n - 1, id, w1);
      var v :| Reaches(c, w1, v) && SameBooks(v, Play(c, Framed(next, w.frames), script, n - 1));
      ReachesFirst(c, w, Advance(id, choice), v);
    }
  }

  lemma {:induction false} PlayFramed(c: Config, s: Section, script: Script, n: nat, frames: map<Worker, Frame>)
    ensures Play(c, Framed(s, frames), script, n) == Play(c, s, script, n).(frames := frames)
    decreases n
  {
    hide ClaimedSection;
    if s.Continue? && n > 0 && Holding(s.frame) {
      SectionIgnoresFrames(c, s.world, s.frame, script(n), frames);
      PlayFramed(c, ClaimedSection(c, s.world, s.frame, script(n)), script, n - 1, frames);
    }
  }

  lemma ReachesFirst(c: Config, w: World, e: Event, v: World)
    requires Reaches(c, Step(c, w, e), v)
    ensures Reaches(c, w, v)
  {
    hide Step;
    var events: seq<Event> :| Run(c, Step(c, w, e), events) == v;
    assert ([e] + events)[1..] == events;
    assert Run(c, w, [e] + events) == v;
  }

  /**
   Whatever the faults, an uninterrupted method leaves the rails, the row, the
   reservation and the counters as some run of the transition system does, so
   everything proved of reachable states holds after it.
   */
  lemma SoloIsReachable(c: Config, w: World, id: Worker, call: Call, script: Script, n: nat)
    requires TakesClaim(call) && n > 0 && Reachable(c, w)
    ensures exists v :: Reachable(c, v) && SameBooks(v, Solo(c, w, id, call, script, n))
  {
    hide ClaimedSection, Begin;
    if id in w.frames || !ClaimFree(w, id) || Begin(c, w.(claim := Some(id)), call, script(n)).None? {
      assert SameBooks(w, Solo(c, w, id, call, script, n));
    } else {
      var s := Begin(c, w.(claim := Some(id)), call, script(n)).value;
      var e := Start(id, call, script(n));
      ReachableStep(c, w, e);
      var w1 := Step(c, w, e);
      PlayIsARun(c, s, script, n - 1, id, w1);
      var v :| Reaches(c, w1, v) && SameBooks(v, Play(c, s, script, n - 1));
      ReachableThrough(c, w1, v);
    }
  }

  lemma ReachableThrough(c: Config, w: World, v: World)
    requires Reachable(c, w) && Reaches(c, w, v)
    ensures Reachable(c, v)
  {
    hide Step;
    var w0 :| Init(w0) && Reaches(c, w0, w);
    var before: seq<Event> :| Run(c, w0, before) == w;
    var after: seq<Event> :| Run(c, w, after) == v;
    RunAppend(c, w0, before, after);
    assert Run(c, w0, before + after) == v;
  }
}
