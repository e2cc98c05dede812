/**
 How often recovery calls the rails. The calls are counted where they are made,
 at the suspension points of workers whose method began as `reconcileSwap`, and
 are then compared with the retry counters of the row.
 */
module CoordinatorRecovery {
  import opened Wrappers
  import opened SwapTypes
  import opened Rails
  import opened CoordinatorSteps
  import opened CoordinatorSafety
  import opened CoordinatorTheorems
  import R = ReservationRules

  /** Calls on the rails; a cancellation by recovery itself and one inside a refund it started are told apart. */
  datatype RailCall = FundCall | ClaimCall | SettleCall | RefundCall | CancelCall | NestedCancelCall

  /** Advancing a worker suspended at `f` makes this call. */
  predicate Makes(f: Frame, k: RailCall) {
    match k
    case FundCall => f.FundDispatch?
    case ClaimCall => f.ClaimDispatch?
    case SettleCall => f.SettleDispatch? || f.ClaimSettle?
    case RefundCall => f.RefundDispatch?
    case CancelCall => f.ReconcileCancel?
    case NestedCancelCall => f.ExpireCancel? || f.HeldCancel? || f.RefundCancel?
  }

  /** The retries on record that a call by recovery is charged to; recovery never claims on Base. */
  function Retries(rec: Record, k: RailCall): nat {
    match k
    case FundCall => rec.fundRetries
    case ClaimCall => 0
    case SettleCall => rec.settleRetries
    case RefundCall => rec.refundRetries
    case CancelCall => rec.cancelRetries
    case NestedCancelCall => rec.refundRetries
  }

  /** A worker's method is the one it started last; starting while inside a method does nothing. */
  function NowRecovering(w: World, recovering: set<Worker>, e: Event): set<Worker> {
    match e
    case Start(id, call, _) =>
      if id in w.frames then recovering
      else if call.Reconcile? then recovering + {id}
      else recovering - {id}
    case _ => recovering
  }

  predicate CallsNow(w: World, recovering: set<Worker>, e: Event, k: RailCall) {
    e.Advance? && e.worker in w.frames && e.worker in recovering && Makes(w.frames[e.worker], k)
  }

  /** How often workers inside `reconcileSwap` make the call `k` during a run. */
  function CallsByRecovery(c: Config, w: World, recovering: set<Worker>, events: seq<Event>, k: RailCall): nat
    decreases |events|
  {
    if events == [] then 0
    else
      (if CallsNow(w, recovering, events[0], k) then 1 else 0)
      + CallsByRecovery(c, Step(c, w, events[0]), NowRecovering(w, recovering, events[0]), events[1..], k)
  }

  // ------------------------------------------------------------- what is still owed

  /** A method suspended at `f` may still make the call `k`, and at most once. */
  predicate MayMake(f: Frame, k: RailCall) {
    match k
    case FundCall => f.FundQuery? || f.FundChecks? || f.FundPersist? || f.FundDispatch?
    case ClaimCall => IsClaim(f)
    case SettleCall => f.SettleGate? || f.SettleEvidence? || f.SettleMark? || f.SettleDispatch?
    case RefundCall => f.RefundObserve? || f.RefundDecide? || f.RefundDispatch?
    case CancelCall => f.ReconcileCancel?
    case NestedCancelCall =>
      || f.RefundObserve? || f.RefundDecide? || f.RefundDispatch? || f.RefundRecheck? || f.RefundConfirm?
      || f.RefundVerify? || f.RefundMark? || f.RefundCancel? || f.ExpireCancel? || f.HeldObserve? || f.HeldCancel?
  }

  function Count(b: bool): nat { if b then 1 else 0 }

  /** One section spends what was pending, and a decision to retry records the retry before it hands over. */
  predicate Pays(w: World, f: Frame, s: Section, k: RailCall) {
    && Retries(w.rec, k) <= Retries(s.world.rec, k)
    && (s.Continue? ==> !IsClaim(s.frame))
    && Count(Makes(f, k)) + Count(s.Continue? && MayMake(s.frame, k)) + Retries(w.rec, k)
       <= Count(MayMake(f, k)) + Retries(s.world.rec, k)
  }

  lemma FundPays(c: Config, w: World, f: Frame, choice: Choice, k: RailCall)
    requires IsFund(f)
    ensures Pays(w, f, FundSection(c, w, f, choice), k)
  {
    hide FundHtlc, Returned, R.Commit;
  }

  lemma SettlePays(c: Config, w: World, f: Frame, choice: Choice, k: RailCall)
    requires IsSettle(f)
    ensures Pays(w, f, SettleSection(c, w, f, choice), k)
  {
    hide SettleInvoice, Returned, ClaimEvidenceFinal, RefundEvidenceFinal, Settleable;
  }

  lemma UnfundedPays(c: Config, w: World, f: Frame, choice: Choice, k: RailCall)
    requires IsUnfunded(f)
    ensures Pays(w, f, UnfundedSection(w, f, choice), k)
  {
  }

  lemma RefundPays(c: Config, w: World, f: Frame, choice: Choice, k: RailCall)
    requires IsRefund(f)
    ensures Pays(w, f, RefundSection(c, w, f, choice), k)
  {
    hide RefundHtlc, CancelInvoice, Returned, RefundEvidenceFinal, R.RestoreRefund;
  }

  lemma EscalatePays(w: World, f: Frame, k: RailCall)
    requires f.ReconcileDecide?
    ensures Pays(w, f, Escalate(w), k)
  {
  }

  lemma SettledPays(w: World, f: Frame, h: Htlc, k: RailCall)
    requires f.ReconcileDecide?
    ensures Pays(w, f, DecideSettled(w, h), k)
  {
  }

  lemma ClaimedPays(c: Config, w: World, f: Frame, ln: LnObservation, k: RailCall)
    requires f.ReconcileDecide?
    ensures Pays(w, f, DecideClaimed(c, w, ln), k)
  {
  }

  lemma RefundedPays(c: Config, w: World, f: Frame, ln: LnObservation, k: RailCall)
    requires f.ReconcileDecide?
    ensures Pays(w, f, DecideRefunded(c, w, ln), k)
  {
  }

  lemma LockedPays(c: Config, w: World, f: Frame, ln: LnObservation, lock: int, timestamp: int, k: RailCall)
    requires f.ReconcileDecide?
    ensures Pays(w, f, DecideLocked(c, w, ln, lock, timestamp), k)
  {
  }

  lemma AbsentPays(c: Config, w: World, f: Frame, ln: LnObservation, view: SwapState, choice: Choice, k: RailCall)
    requires f.ReconcileDecide?
    ensures Pays(w, f, DecideAbsent(c, w, ln, view, choice), k)
  {
  }

  lemma DecidePays(c: Config, w: World, f: Frame, choice: Choice, k: RailCall)
    requires f.ReconcileDecide?
    ensures Pays(w, f, Decide(c, w, f.seen, f.ln, f.evm, choice), k)
  {
    hide DecideAbsent, DecideClaimed, DecideLocked, DecideRefunded, DecideSettled, Pays;
    if f.ln.LnUnknown? || f.evm.EvmUnknown? {
      EscalatePays(w, f, k);
    } else if f.ln == LnFound(Settled) {
      SettledPays(w, f, f.evm.htlc, k);
    } else {
      match f.evm.htlc {
        case Claimed(_, _, _) => ClaimedPays(c, w, f, f.ln, k);
        case Refunded(_, _, _) => RefundedPays(c, w, f, f.ln, k);
        case Locked(lock) => LockedPays(c, w, f, f.ln, lock, f.evm.timestamp, k);
        case Empty => AbsentPays(c, w, f, f.ln, if choice.live then w.rec.state else f.seen, choice, k);
      }
    }
  }

  lemma ReconcilePays(c: Config, w: World, f: Frame, choice: Choice, k: RailCall)
    requires IsReconcile(f) && !f.ReconcileDecide?
    ensures Pays(w, f, ReconcileSection(c, w, f, choice), k)
  {
    hide CancelInvoice, Returned, Decide, ObserveLightning, ObserveEvm, R.RestoreRefund;
  }

  lemma SectionPays(c: Config, w: World, f: Frame, choice: Choice, k: RailCall)
    requires Holding(f) && !IsClaim(f)
    ensures Pays(w, f, ClaimedSection(c, w, f, choice), k)
  {
    hide Pays, FundSection, SettleSection, UnfundedSection, RefundSection, Decide;
    if IsFund(f) { FundPays(c, w, f, choice, k); }
    else if IsSettle(f) { SettlePays(c, w, f, choice, k); }
    else if IsUnfunded(f) { UnfundedPays(c, w, f, choice, k); }
    else if IsRefund(f) { RefundPays(c, w, f, choice, k); }
    else if f.ReconcileDecide? { DecidePays(c, w, f, choice, k); }
    else { ReconcilePays(c, w, f, choice, k); }
  }

  // ------------------------------------------------------------- the invariant

  /** Only the owner of the claim is inside a claimed method, so only its calls may still come. */
  predicate Owed(w: World, recovering: set<Worker>, k: RailCall) {
    && w.claim.Some? && w.claim.value in w.frames && w.claim.value in recovering
    && MayMake(w.frames[w.claim.value], k)
  }

  ghost predicate Charged(c: Config, w: World, recovering: set<Worker>, made: nat, k: RailCall) {
    && Inv(c, w)
    && (forall id :: id in w.frames && id in recovering ==> !IsClaim(w.frames[id]))
    && made + Count(Owed(w, recovering, k)) <= Retries(w.rec, k)
  }

  lemma ClaimKeepsRetries(c: Config, w: World, f: Frame, choice: Choice, k: RailCall)
    requires IsClaim(f)
    ensures Retries(w.rec, k) <= Retries(ClaimedSection(c, w, f, choice).world.rec, k)
  {
  }

  lemma AdvanceCharges(c: Config, w: World, recovering: set<Worker>, made: nat, id: Worker, choice: Choice,
                       k: RailCall)
    requires Charged(c, w, recovering, made, k) && id in w.frames && Holding(w.frames[id])
    ensures var e := Advance(id, choice);
      Charged(c, Step(c, w, e), recovering, made + Count(CallsNow(w, recovering, e, k)), k)
  {
    hide ClaimedSection, FrameAgrees, RailsAgree, ReservationAgrees, StateAgrees, CountersAgree;
    hide Retries, Makes, MayMake;
    StepKeepsInv(c, w, Advance(id, choice));
    var f := w.frames[id];
    ClaimedSectionGood(c, w, f, choice);
    if IsClaim(f) {
      ClaimKeepsRetries(c, w, f, choice, k);
    } else {
      SectionPays(c, w, f, choice, k);
    }
  }

  lemma BeginIsFree(c: Config, w: World, call: Call, choice: Choice, k: RailCall)
    requires !call.DetectHold? && !call.ConfirmDelivery? && Begin(c, w, call, choice).Some?
    ensures var s := Begin(c, w, call, choice).value;
      && Retries(s.world.rec, k) == Retries(w.rec, k) && s.world.frames == w.frames && s.world.claim == w.claim
      && (call.Reconcile? && s.Continue? ==> s.frame.ReconcileLightning?)
  {
  }

  lemma StartCharges(c: Config, w: World, recovering: set<Worker>, made: nat, e: Event, k: RailCall)
    requires Charged(c, w, recovering, made, k) && e.Start?
    ensures Charged(c, Step(c, w, e), NowRecovering(w, recovering, e), made, k)
  {
    hide Begin, ClaimedSection, AdvanceHold, FrameAgrees, RailsAgree, ReservationAgrees, StateAgrees, CountersAgree;
    StepKeepsInv(c, w, e);
    var w1 := w.(claim := Some(e.worker));
    if !e.call.DetectHold? && !e.call.ConfirmDelivery? && Begin(c, w1, e.call, e.choice).Some? {
      BeginIsFree(c, w1, e.call, e.choice, k);
    }
  }

  lemma OtherCharges(c: Config, w: World, recovering: set<Worker>, made: nat, e: Event, k: RailCall)
    requires Charged(c, w, recovering, made, k) && !e.Start?
    requires e.Advance? ==> e.worker !in w.frames || !Holding(w.frames[e.worker])
    ensures Charged(c, Step(c, w, e), recovering, made, k)
  {
    hide FrameAgrees, RailsAgree, ReservationAgrees, StateAgrees, CountersAgree;
    StepKeepsInv(c, w, e);
  }

  lemma StepCharges(c: Config, w: World, recovering: set<Worker>, made: nat, e: Event, k: RailCall)
    requires Charged(c, w, recovering, made, k)
    ensures Charged(c, Step(c, w, e), NowRecovering(w, recovering, e), made + Count(CallsNow(w, recovering, e, k)), k)
  {
    hide Charged, Step;
    if e.Start? {
      StartCharges(c, w, recovering, made, e, k);
    } else if e.Advance? && e.worker in w.frames && Holding(w.frames[e.worker]) {
      AdvanceCharges(c, w, recovering, made, e.worker, e.choice, k);
    } else {
      OtherCharges(c, w, recovering, made, e, k);
    }
  }

  lemma {:induction false} RunCharges(c: Config, w: World, recovering: set<Worker>, made: nat, events: seq<Event>,
                                      k: RailCall)
    requires Charged(c, w, recovering, made, k)
    ensures made + CallsByRecovery(c, w, recovering, events, k) <= Retries(Run(c, w, events).rec, k)
    decreases |events|
  {
    if events != [] {
      hide Charged, Step, NowRecovering, CallsNow;
      StepCharges(c, w, recovering, made, events[0], k);
      var now := Count(CallsNow(w, recovering, events[0], k));
      RunCharges(c, Step(c, w, events[0]), NowRecovering(w, recovering, events[0]), made + now, events[1..], k);
    }
  }

  /**
   However often recovery runs, by however many workers, and whatever fails:
   every call it makes on a rail has a retry of its own on record, so each is
   made at most maxRetries times. Recovery never claims on Base, and a refund it
   starts cancels Lightning at most once.
   */
  lemma RecoveryIsBounded(c: Config, w0: World, events: seq<Event>, k: RailCall)
    requires Init(w0)
    ensures CallsByRecovery(c, w0, {}, events, k) <= Retries(Run(c, w0, events).rec, k) <= c.maxRetries
    ensures var r := Run(c, w0, events).rec;
      r.retries == r.fundRetries + r.settleRetries + r.refundRetries + r.cancelRetries
  {
    hide Step;
    InitInv(c, w0);
    RunCharges(c, w0, {}, 0, events, k);
    RunKeepsInv(c, w0, events);
  }

  /**
   All cancellations of the Lightning invoice that recovery sends: its own are
   charged to the cancel retries and those inside a refund it started, at most
   one a refund, to the refund retries.
   */
  lemma CancellationsAreBounded(c: Config, w0: World, events: seq<Event>)
    requires Init(w0)
    ensures var r := Run(c, w0, events).rec;
      CallsByRecovery(c, w0, {}, events, CancelCall) + CallsByRecovery(c, w0, {}, events, NestedCancelCall)
        <= r.cancelRetries + r.refundRetries <= 2 * c.maxRetries
  {
    hide CallsByRecovery, Run;
    RecoveryIsBounded(c, w0, events, CancelCall);
    RecoveryIsBounded(c, w0, events, NestedCancelCall);
  }
}
