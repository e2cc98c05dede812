/**
 The invariant behind the cross-rail claims, proved one method at a time.
 Every fact a suspended worker relies on is stable under all the steps that
 others can take while it holds the action claim.
 */
module CoordinatorSafety {
  import opened Wrappers
  import opened SwapTypes
  import opened Rails
  import opened CoordinatorSteps
  import R = ReservationRules

  // --------------------------------------------------------------- invariant

  /** The reachable pairs of rail states. */
  predicate RailsAgree(ln: Lightning, h: Htlc) {
    match h
    case Empty => ln != Settled
    case Locked(_) => ln == Accepted
    case Claimed(_, _, _) => ln == Accepted || ln == Settled
    case Refunded(_, _, _) => ln == Accepted || ln == Canceled
  }

  predicate Closed(ln: Lightning) { ln == Absent || ln == Canceled }

  predicate ReservationAgrees(w: World) {
    && w.rec.reservationStatus == w.reservation
    && (w.reservation == Released ==> Closed(w.ln))
    && (w.reservation == Committed ==> w.htlc != Empty)
    && (w.reservation == ReservationSettled ==> w.ln == Settled)
  }

  /** What holds once Base has been funded and the reservation committed; never lost again. */
  predicate Funded(w: World) { w.htlc != Empty && w.reservation != Reserved }

  predicate InFundedFamily(s: SwapState) {
    s == EvmFunded || s == Claiming || s == EvmClaimDetected || s == EvmClaimConfirmed
    || s == LightningSettlementPending || s == LightningSettled || s == DestinationPending || s == Completed
    || s == RefundEligible || s == EvmRefundPending || s == EvmRefundConfirmed || s == LightningCancelPending
    || s == SwapRefunded
  }

  /** What each record state promises about the two rails and the reservation. */
  predicate StateAgrees(s: SwapState, w: World) {
    match s
    case PlanPrepared => w.htlc == Empty
    case InvoiceCreated => w.htlc == Empty
    case EvmFunded => Funded(w)
    case Claiming => Funded(w)
    case EvmClaimDetected => Funded(w) && w.htlc.Claimed?
    case EvmClaimConfirmed => Funded(w) && w.htlc.Claimed?
    case LightningSettlementPending => Funded(w) && w.htlc.Claimed?
    case LightningSettled => Funded(w) && w.htlc.Claimed? && w.ln == Settled
    case DestinationPending => Funded(w) && w.htlc.Claimed? && w.ln == Settled
    case Completed => Funded(w) && w.htlc.Claimed? && w.ln == Settled
    case RefundEligible => Funded(w)
    case EvmRefundPending => Funded(w)
    case EvmRefundConfirmed => Funded(w) && w.htlc.Refunded?
    case LightningCancelPending => Funded(w) && w.htlc.Refunded?
    case SwapRefunded => Funded(w) && w.htlc.Refunded? && w.ln == Canceled && w.reservation == Released
    case InvoiceCanceled => w.htlc == Empty && Closed(w.ln) && w.reservation == Released
    case Expired => w.htlc == Empty && Closed(w.ln) && w.reservation == Released
    case _ => true
  }

  predicate LightningSeen(o: LnObservation, ln: Lightning) {
    match o
    case LnUnknown => true
    case LnNotFound => ln == Absent
    case LnFound(Open) => ln == Open || ln == Accepted
    case LnFound(s) => s != Absent && ln == s
  }

  predicate EvmSeenBy(o: EvmObservation, h: Htlc) {
    match o
    case EvmUnknown => true
    case EvmSeen(Locked(lock), _) => h.Locked? || h.Claimed?
    case EvmSeen(s, _) => h == s
  }

  /** What a suspended worker may rely on at its suspension point. */
  predicate FrameAgrees(f: Frame, w: World) {
    match f
    case FundChecks => w.ln == Accepted
    case FundPersist(_) => w.ln == Accepted
    case FundDispatch(_) => w.ln == Accepted && w.rec.state != PlanPrepared && w.rec.state != InvoiceCreated
    case FundCommit(_, _) => w.htlc != Empty
    case FundRecord(_, _) => w.htlc != Empty && w.reservation == Committed
    case SettleGate(_, seen) => InFundedFamily(seen) ==> Funded(w)
    case SettleEvidence(_) => Funded(w)
    case SettleMark(_) => Funded(w) && w.htlc.Claimed?
    case SettleDispatch => Funded(w) && w.htlc.Claimed?
    case SettleRecheck => Funded(w) && w.htlc.Claimed?
    case SettleRecord => Funded(w) && w.htlc.Claimed? && w.ln == Settled
    case ClaimObserve => Funded(w)
    case ClaimDispatch => Funded(w)
    case ClaimEvidence(_) => Funded(w) && w.htlc.Claimed?
    case ClaimSettle(_) => Funded(w) && w.htlc.Claimed?
    case ClaimRecord(_) => Funded(w) && w.htlc.Claimed? && w.ln == Settled
    case ExpireCancel => w.htlc == Empty
    case ExpireRecord => w.htlc == Empty && w.ln == Canceled
    case HeldCancel => w.htlc == Empty
    case HeldRecord => w.htlc == Empty && w.ln == Canceled
    case RefundObserve => Funded(w)
    case RefundDecide(seen, _) =>
      Funded(w) && (seen.Claimed? ==> w.htlc.Claimed?) && (seen.Refunded? ==> w.htlc.Refunded?)
    case RefundDispatch => Funded(w)
    case RefundRecheck => Funded(w)
    case RefundConfirm(_) => Funded(w) && w.htlc.Refunded?
    case RefundVerify => Funded(w) && w.htlc.Refunded?
    case RefundMark => Funded(w) && w.htlc.Refunded?
    case RefundCancel => Funded(w) && w.htlc.Refunded?
    case RefundCancelRecheck => Funded(w) && w.htlc.Refunded?
    case RefundRestore => Funded(w) && w.htlc.Refunded? && w.ln == Canceled
    case ReconcileEvm(_, ln) => LightningSeen(ln, w.ln)
    case ReconcileDecide(_, ln, evm) => LightningSeen(ln, w.ln) && EvmSeenBy(evm, w.htlc)
    case ReconcileCancel => w.htlc.Refunded?
    case ReconcileReobserve => w.htlc.Refunded?
    case ReconcileRestore => w.htlc.Refunded? && w.ln == Canceled
    case _ => true
  }

  /** Each claimed method really owns the claim, hence at most one is suspended at any time. */
  predicate WorkersAgree(w: World) {
    forall id :: id in w.frames ==>
      (Holding(w.frames[id]) ==> w.claim == Some(id)) && FrameAgrees(w.frames[id], w)
  }

  predicate CountersAgree(c: Config, w: World) {
    && w.rec.fundRetries <= c.maxRetries
    && w.rec.settleRetries <= c.maxRetries
    && w.rec.refundRetries <= c.maxRetries
    && w.rec.cancelRetries <= c.maxRetries
    && w.rec.retries == w.rec.fundRetries + w.rec.settleRetries + w.rec.refundRetries + w.rec.cancelRetries
  }

  predicate Inv(c: Config, w: World) {
    && RailsAgree(w.ln, w.htlc)
    && ReservationAgrees(w)
    && StateAgrees(w.rec.state, w)
    && WorkersAgree(w)
    && CountersAgree(c, w)
  }

  lemma InitInv(c: Config, w: World)
    requires Init(w)
    ensures Inv(c, w)
  {
  }

  // ------------------------------------------------------------ preservation

  /** The invariant without the workers, which is all a synchronous section has to re-establish. */
  predicate Books(c: Config, w: World) {
    && RailsAgree(w.ln, w.htlc)
    && ReservationAgrees(w)
    && StateAgrees(w.rec.state, w)
    && CountersAgree(c, w)
  }

  /** A section leaves the books in order and suspends only where its frame may rely on them. */
  predicate GoodSection(c: Config, w: World, s: Section) {
    && s.world.frames == w.frames
    && s.world.claim == w.claim
    && Books(c, s.world)
    && (s.Continue? ==> Holding(s.frame) && FrameAgrees(s.frame, s.world))
  }

  /** Writing a row keeps the books if the new state agrees with the rails and the counters are kept. */
  lemma PutGood(c: Config, w: World, next: Record)
    requires Books(c, w)
    requires next.reservationStatus == w.reservation && StateAgrees(next.state, w)
    requires next.retries == w.rec.retries && next.fundRetries == w.rec.fundRetries
    requires next.settleRetries == w.rec.settleRetries && next.refundRetries == w.rec.refundRetries
    requires next.cancelRetries == w.rec.cancelRetries
    ensures Books(c, Put(w, next)) && Put(w, next) == w.(rec := UpdateRecord(w.rec, next))
  {
  }

  lemma FundSectionGood(c: Config, w: World, f: Frame, choice: Choice)
    requires Books(c, w) && IsFund(f) && FrameAgrees(f, w)
    ensures GoodSection(c, w, FundSection(c, w, f, choice))
  {
    match f {
      case FundQuery =>
      case FundChecks =>
      case FundPersist(lock) =>
      case FundDispatch(lock) =>
      case FundRecheck(lock) =>
      case FundCommit(lock, idKnown) =>
      case FundRecord(lock, idKnown) =>
    }
  }

  lemma SettleSectionGood(c: Config, w: World, f: Frame, choice: Choice)
    requires Books(c, w) && IsSettle(f) && FrameAgrees(f, w)
    ensures GoodSection(c, w, SettleSection(c, w, f, choice))
  {
  }

  lemma ClaimSectionGood(c: Config, w: World, f: Frame, choice: Choice)
    requires Books(c, w) && IsClaim(f) && FrameAgrees(f, w)
    ensures GoodSection(c, w, ClaimSection(c, w, f, choice))
  {
  }

  lemma UnfundedSectionGood(c: Config, w: World, f: Frame, choice: Choice)
    requires Books(c, w) && IsUnfunded(f) && FrameAgrees(f, w)
    ensures GoodSection(c, w, UnfundedSection(w, f, choice))
  {
    if f.ExpireRecord? || f.HeldRecord? {
      hide StateAgrees, ReleaseUnfunded;
      ReleaseUnfundedGood(c, w);
    }
  }

  lemma ReleaseUnfundedGood(c: Config, w: World)
    requires Books(c, w) && w.htlc == Empty && w.ln == Canceled
    ensures GoodSection(c, w, Finish(ReleaseUnfunded(w, Expired)))
    ensures GoodSection(c, w, Finish(ReleaseUnfunded(w, InvoiceCanceled)))
  {
  }

  lemma FinishRefundGood(c: Config, w: World)
    requires Books(c, w) && w.htlc.Refunded? && w.ln == Canceled
    ensures GoodSection(c, w, Finish(FinishRefund(w)))
    ensures GoodSection(c, w, Finish(FinishReconciledRefund(w)))
  {
  }

  predicate RefundingBase(f: Frame) {
    f.RefundObserve? || f.RefundDecide? || f.RefundDispatch? || f.RefundRecheck? || f.RefundConfirm?
  }

  lemma RefundBaseGood(c: Config, w: World, f: Frame, choice: Choice)
    requires Books(c, w) && RefundingBase(f) && FrameAgrees(f, w)
    ensures GoodSection(c, w, RefundSection(c, w, f, choice))
  {
    if f.RefundDispatch? { RefundDispatchGood(c, w, choice); }
    else if f.RefundDecide? { RefundDecideGood(c, w, f, choice); }
    else { hide R.RestoreRefund; }
  }

  lemma RefundDecideGood(c: Config, w: World, f: Frame, choice: Choice)
    requires Books(c, w) && f.RefundDecide? && FrameAgrees(f, w)
    ensures GoodSection(c, w, RefundSection(c, w, f, choice))
  {
  }

  lemma RefundDispatchGood(c: Config, w: World, choice: Choice)
    requires Books(c, w) && Funded(w)
    ensures GoodSection(c, w, RefundSection(c, w, RefundDispatch, choice))
  {
  }

  lemma RefundLightningGood(c: Config, w: World, f: Frame, choice: Choice)
    requires Books(c, w) && IsRefund(f) && !RefundingBase(f) && FrameAgrees(f, w)
    ensures GoodSection(c, w, RefundSection(c, w, f, choice))
  {
    if f.RefundRestore? {
      hide StateAgrees, FinishRefund;
      FinishRefundGood(c, w);
    }
  }

  lemma DecideClaimedGood(c: Config, w: World, ln: LnObservation)
    requires Books(c, w) && LightningSeen(ln, w.ln) && w.htlc.Claimed?
    ensures GoodSection(c, w, DecideClaimed(c, w, ln))
  {
    if ln == LnFound(Accepted) && w.rec.claimTx.Some? {
      hide CommitAndAdvance, StateAgrees;
      if w.rec.settleRetries < c.maxRetries { SettleAgainGood(c, w, w.rec.claimTx.value); }
      EscalateGood(c, w);
    } else {
      hide BeginSettle;
      CommitAndAdvanceGood(c, w);
    }
  }

  lemma EscalateGood(c: Config, w: World)
    requires Books(c, w)
    ensures GoodSection(c, w, Escalate(w))
  {
  }

  lemma SettleAgainGood(c: Config, w: World, tx: TxHash)
    requires Books(c, w) && w.htlc.Claimed? && w.rec.settleRetries < c.maxRetries
    ensures var w1 := w.(rec := w.rec.(settleRetries := w.rec.settleRetries + 1, retries := w.rec.retries + 1));
      GoodSection(c, w, Nested(w1, BeginSettle(c, w1, tx)))
  {
  }

  lemma RefundAgainGood(c: Config, w: World)
    requires Books(c, w) && w.rec.refundRetries < c.maxRetries
    ensures var w1 := w.(rec := w.rec.(refundRetries := w.rec.refundRetries + 1, retries := w.rec.retries + 1));
      GoodSection(c, w, Nested(w1, BeginRefund(c, w1)))
  {
  }

  lemma DecideRefundedGood(c: Config, w: World, ln: LnObservation)
    requires Books(c, w) && LightningSeen(ln, w.ln) && w.htlc.Refunded?
    ensures GoodSection(c, w, DecideRefunded(c, w, ln))
  {
    hide StateAgrees, FinishReconciledRefund;
    EscalateGood(c, w);
    if GoneOrCanceled(ln) { RecoveredRefundGood(c, w, ln); }
    else if w.rec.cancelRetries < c.maxRetries { CancelAgainGood(c, w); }
  }

  /** A refunded HTLC was never absent on Lightning, so its invoice has been canceled. */
  lemma RecoveredRefundGood(c: Config, w: World, ln: LnObservation)
    requires Books(c, w) && LightningSeen(ln, w.ln) && w.htlc.Refunded? && GoneOrCanceled(ln)
    ensures GoodSection(c, w, Finish(FinishReconciledRefund(w)))
  {
    hide FinishReconciledRefund, StateAgrees;
    FinishRefundGood(c, w);
  }

  lemma CancelAgainGood(c: Config, w: World)
    requires Books(c, w) && w.htlc.Refunded? && w.rec.cancelRetries < c.maxRetries
    ensures var w1 := w.(rec := w.rec.(cancelRetries := w.rec.cancelRetries + 1, retries := w.rec.retries + 1));
      GoodSection(c, w, Continue(w1, ReconcileCancel))
  {
  }

  lemma CommitAndAdvanceGood(c: Config, w: World)
    requires Books(c, w) && w.htlc != Empty
    ensures CommitAndAdvance(w).Some? ==>
      var w1 := CommitAndAdvance(w).value;
      Books(c, w1) && Funded(w1) && w1 == w.(reservation := Committed, rec := w1.rec)
  {
  }

  lemma DecideLockedGood(c: Config, w: World, ln: LnObservation, lock: int, timestamp: int)
    requires Books(c, w) && (w.htlc.Locked? || w.htlc.Claimed?)
    ensures GoodSection(c, w, DecideLocked(c, w, ln, lock, timestamp))
  {
    hide CommitAndAdvance, BeginRefund, Nested, StateAgrees;
    EscalateGood(c, w);
    if ln == LnFound(Accepted) && timestamp >= lock {
      if w.rec.refundRetries < c.maxRetries { RefundAgainGood(c, w); }
    } else if ln == LnFound(Accepted) {
      if CommitAndAdvance(w).Some? { LockedFundedGood(c, w); }
    }
  }

  lemma LockedFundedGood(c: Config, w: World)
    requires Books(c, w) && (w.htlc.Locked? || w.htlc.Claimed?) && CommitAndAdvance(w).Some?
    ensures var w1 := CommitAndAdvance(w).value;
      GoodSection(c, w, Finish(Put(w1, w1.rec.(state := EvmFunded, reservationStatus := Committed,
                                               recoveryRequired := false))))
  {
    hide CommitAndAdvance;
    CommitAndAdvanceGood(c, w);
  }

  lemma RetryFundingGood(c: Config, w: World, choice: Choice)
    requires Books(c, w)
    ensures GoodSection(c, w, RetryFunding(c, w, choice))
  {
  }

  lemma DecideAbsentGood(c: Config, w: World, ln: LnObservation, view: SwapState, choice: Choice)
    requires Books(c, w) && LightningSeen(ln, w.ln) && w.htlc == Empty
    ensures GoodSection(c, w, DecideAbsent(c, w, ln, view, choice))
  {
    if ln == LnFound(Accepted) {
      DecideAbsentHeldGood(c, w, view, choice);
    } else {
      DecideAbsentOtherGood(c, w, ln, view, choice);
    }
  }

  lemma DecideAbsentHeldGood(c: Config, w: World, view: SwapState, choice: Choice)
    requires Books(c, w) && w.htlc == Empty
    ensures GoodSection(c, w, DecideAbsent(c, w, LnFound(Accepted), view, choice))
  {
    var held := w.rec.(state := LightningHeld, recoveryRequired := false);
    PutGood(c, w, held);
    RetryFundingGood(c, Put(w, held), choice);
    RetryFundingGood(c, w, choice);
  }

  lemma DecideAbsentOtherGood(c: Config, w: World, ln: LnObservation, view: SwapState, choice: Choice)
    requires Books(c, w) && LightningSeen(ln, w.ln) && w.htlc == Empty && ln != LnFound(Accepted)
    ensures GoodSection(c, w, DecideAbsent(c, w, ln, view, choice))
  {
  }

  lemma DecideGood(c: Config, w: World, seen: SwapState, ln: LnObservation, evm: EvmObservation, choice: Choice)
    requires Books(c, w) && LightningSeen(ln, w.ln) && EvmSeenBy(evm, w.htlc)
    ensures GoodSection(c, w, Decide(c, w, seen, ln, evm, choice))
  {
    if ln.LnUnknown? || evm.EvmUnknown? {
    } else if ln == LnFound(Settled) {
    } else {
      match evm.htlc {
        case Claimed(_, _, _) => DecideClaimedGood(c, w, ln);
        case Refunded(_, _, _) => DecideRefundedGood(c, w, ln);
        case Locked(lock) => DecideLockedGood(c, w, ln, lock, evm.timestamp);
        case Empty => DecideAbsentGood(c, w, ln, if choice.live then w.rec.state else seen, choice);
      }
    }
  }

  /** Canceling Lightning once Base is refunded disturbs nothing the row says. */
  lemma CancelRefundedGood(c: Config, w: World, fault: Fault)
    requires Books(c, w) && w.htlc.Refunded?
    ensures var w' := CallLightning(w, CancelInvoice(w.ln), fault);
      Books(c, w') && (Returned(CancelInvoice(w.ln), fault) ==> w'.ln == Canceled)
  {
  }

  lemma ObservationGood(c: Config, w: World, f: Frame, choice: Choice)
    requires Books(c, w) && (f.ReconcileLightning? || f.ReconcileEvm?) && FrameAgrees(f, w)
    ensures GoodSection(c, w, ReconcileSection(c, w, f, choice))
  {
    hide StateAgrees, ReservationAgrees, CountersAgree, RailsAgree;
  }

  lemma RecoveryEndGood(c: Config, w: World, f: Frame, choice: Choice)
    requires Books(c, w) && (f.ReconcileReobserve? || f.ReconcileRestore?) && FrameAgrees(f, w)
    ensures GoodSection(c, w, ReconcileSection(c, w, f, choice))
  {
    hide FinishReconciledRefund, StateAgrees, ReservationAgrees, CountersAgree, RailsAgree;
    if f.ReconcileRestore? { FinishRefundGood(c, w); } else { EscalateGood(c, w); }
  }

  lemma RecoveryCancelGood(c: Config, w: World, choice: Choice)
    requires Books(c, w) && w.htlc.Refunded?
    ensures GoodSection(c, w, ReconcileSection(c, w, ReconcileCancel, choice))
  {
    hide StateAgrees, ReservationAgrees, CountersAgree, RailsAgree;
    CancelRefundedGood(c, w, choice.fault);
  }

  lemma ReconcileSectionGood(c: Config, w: World, f: Frame, choice: Choice)
    requires Books(c, w) && IsReconcile(f) && !f.ReconcileDecide? && FrameAgrees(f, w)
    ensures GoodSection(c, w, ReconcileSection(c, w, f, choice))
  {
    hide ReconcileSection, GoodSection, Books;
    if f.ReconcileCancel? { RecoveryCancelGood(c, w, choice); }
    else if f.ReconcileLightning? || f.ReconcileEvm? { ObservationGood(c, w, f, choice); }
    else { RecoveryEndGood(c, w, f, choice); }
  }

  lemma BeginGood(c: Config, w: World, call: Call, choice: Choice)
    requires Books(c, w) && !call.DetectHold? && !call.ConfirmDelivery?
    ensures Begin(c, w, call, choice).Some? ==> GoodSection(c, w, Begin(c, w, call, choice).value)
  {
  }

  lemma ClaimedSectionGood(c: Config, w: World, f: Frame, choice: Choice)
    requires Books(c, w) && Holding(f) && FrameAgrees(f, w)
    ensures GoodSection(c, w, ClaimedSection(c, w, f, choice))
  {
    if IsFund(f) { FundSectionGood(c, w, f, choice); }
    else if IsSettle(f) { SettleSectionGood(c, w, f, choice); }
    else if IsClaim(f) { ClaimSectionGood(c, w, f, choice); }
    else if IsUnfunded(f) { UnfundedSectionGood(c, w, f, choice); }
    else if RefundingBase(f) { RefundBaseGood(c, w, f, choice); }
    else if IsRefund(f) { RefundLightningGood(c, w, f, choice); }
    else if f.ReconcileDecide? { DecideGood(c, w, f.seen, f.ln, f.evm, choice); }
    else { ReconcileSectionGood(c, w, f, choice); }
  }

  /** Only the owner of the claim runs sections, so the other suspended workers rely on nothing. */
  lemma ApplyKeepsInv(c: Config, w: World, id: Worker, s: Section)
    requires WorkersAgree(w) && w.claim == Some(id)
    requires GoodSection(c, w, s)
    ensures Inv(c, Apply(id, s))
  {
    var w' := Apply(id, s);
    forall j | j in w'.frames
      ensures (Holding(w'.frames[j]) ==> w'.claim == Some(j)) && FrameAgrees(w'.frames[j], w')
    {
      if j != id { assert w'.frames[j] == w.frames[j] && !Holding(w.frames[j]); }
    }
  }

  lemma HoldKeepsFrame(f: Frame, w: World, w': World)
    requires FrameAgrees(f, w) && w' == w.(rec := w'.rec, frames := w'.frames)
    requires w'.rec == w.rec || w'.rec == w.rec.(state := LightningHeld)
    ensures FrameAgrees(f, w')
  {
  }

  /** Hold detection owns no claim: it may overwrite the state, but only with one that promises nothing. */
  lemma HoldKeepsInv(c: Config, w: World, id: Worker, choice: Choice)
    requires Inv(c, w) && id in w.frames && !Holding(w.frames[id])
    ensures Inv(c, AdvanceHold(w, id, w.frames[id], choice))
  {
    var w' := AdvanceHold(w, id, w.frames[id], choice);
    forall j | j in w'.frames
      ensures (Holding(w'.frames[j]) ==> w'.claim == Some(j)) && FrameAgrees(w'.frames[j], w')
    {
      if j != id {
        assert w'.frames[j] == w.frames[j];
        HoldKeepsFrame(w.frames[j], w, w');
      }
    }
    hide FrameAgrees;
  }

  lemma StartKeepsInv(c: Config, w: World, id: Worker, call: Call, choice: Choice)
    requires Inv(c, w)
    ensures Inv(c, StartCall(c, w, id, call, choice))
  {
    if id !in w.frames {
      if call.DetectHold? || call.ConfirmDelivery? {
        var w' := StartCall(c, w, id, call, choice);
        forall j | j in w'.frames
          ensures (Holding(w'.frames[j]) ==> w'.claim == Some(j)) && FrameAgrees(w'.frames[j], w')
        {
          if j != id { assert w'.frames[j] == w.frames[j]; }
        }
      } else if ClaimFree(w, id) {
        // nobody else can be inside a claimed method while the claim is free for `id`
        var w1 := w.(claim := Some(id));
        BeginGood(c, w1, call, choice);
        var b := Begin(c, w1, call, choice);
        if b.Some? { ApplyKeepsInv(c, w1, id, b.value); }
      }
    }
  }

  /** The payer, the client and the clock cannot invalidate what a suspended worker relies on. */
  lemma EnvironmentKeepsFrame(f: Frame, w: World, w': World)
    requires FrameAgrees(f, w) && RailsAgree(w.ln, w.htlc)
    requires w'.reservation == w.reservation && w'.rec == w.rec
    requires w'.ln == w.ln || (w.ln == Open && w'.ln == Accepted)
    requires w'.htlc == w.htlc || (w.htlc.Locked? && w'.htlc.Claimed?)
    ensures FrameAgrees(f, w')
  {
  }

  lemma EnvironmentKeepsInv(c: Config, w: World, w': World)
    requires Inv(c, w)
    requires w' == w.(ln := w'.ln, htlc := w'.htlc, now := w'.now, block := w'.block)
    requires w'.ln == w.ln || (w.ln == Open && w'.ln == Accepted)
    requires w'.htlc == w.htlc || (w.htlc.Locked? && w'.htlc.Claimed?)
    ensures Inv(c, w')
  {
    forall j | j in w'.frames
      ensures (Holding(w'.frames[j]) ==> w'.claim == Some(j)) && FrameAgrees(w'.frames[j], w')
    {
      EnvironmentKeepsFrame(w.frames[j], w, w');
    }
  }

  lemma StepKeepsInv(c: Config, w: World, e: Event)
    requires Inv(c, w)
    ensures Inv(c, Step(c, w, e))
  {
    match e
    case PayerPays => EnvironmentKeepsInv(c, w, Step(c, w, e));
    case ClientClaims => EnvironmentKeepsInv(c, w, Step(c, w, e));
    case TimePasses(_, _) => EnvironmentKeepsInv(c, w, Step(c, w, e));
    case LeaseExpires =>
    case Crash(id) =>
      var w' := Step(c, w, e);
      forall j | j in w'.frames
        ensures (Holding(w'.frames[j]) ==> w'.claim == Some(j)) && FrameAgrees(w'.frames[j], w')
      {
        assert w.frames[j] == w'.frames[j];
      }
    case Start(id, call, choice) => StartKeepsInv(c, w, id, call, choice);
    case Advance(id, choice) =>
      if id in w.frames {
        if Holding(w.frames[id]) {
          ClaimedSectionGood(c, w, w.frames[id], choice);
          ApplyKeepsInv(c, w, id, ClaimedSection(c, w, w.frames[id], choice));
        } else {
          HoldKeepsInv(c, w, id, choice);
        }
      }
  }

  lemma {:induction false} RunKeepsInv(c: Config, w: World, events: seq<Event>)
    requires Inv(c, w)
    ensures Inv(c, Run(c, w, events))
    decreases |events|
  {
    if events != [] {
      StepKeepsInv(c, w, events[0]);
      RunKeepsInv(c, Step(c, w, events[0]), events[1..]);
    }
  }
}
