/** What uninterrupted, fault-free calls of `reconcileSwap` achieve. */
module CoordinatorConvergence {
  import opened Wrappers
  import opened SwapTypes
  import opened Rails
  import opened CoordinatorSteps
  import opened CoordinatorSafety
  import opened CoordinatorTheorems

  // ------------------------------------------------------------- solo calls

  /** Every call replies, the optional checks pass and reads are current. */
  const Smooth := Choice(NoFault, true, true)

  /** The longest uninterrupted method suspends fewer times than this. */
  const LongestCall: nat := 16

  function Drain(c: Config, w: World, id: Worker, n: nat): World
    decreases n
  {
    if n == 0 || id !in w.frames then w else Drain(c, Step(c, w, Advance(id, Smooth)), id, n - 1)
  }

  /** One fault-free call by one worker that nothing interrupts. */
  function SoloCall(c: Config, w: World, id: Worker, call: Call): World {
    Drain(c, Step(c, w, Start(id, call, Smooth)), id, LongestCall)
  }

  function At(w: World, id: Worker, f: Frame): World {
    w.(frames := w.frames[id := f], claim := Some(id))
  }

  lemma DrainContinue(c: Config, w: World, id: Worker, f: Frame, w': World, f': Frame, n: nat)
    requires n > 0 && Holding(f)
    requires ClaimedSection(c, At(w, id, f), f, Smooth) == Continue(At(w', id, f), f')
    ensures Drain(c, At(w, id, f), id, n) == Drain(c, At(w', id, f'), id, n - 1)
  {
    hide ClaimedSection;
    assert At(w', id, f).frames[id := f'] == At(w', id, f').frames;
  }

  lemma DrainFinish(c: Config, w: World, id: Worker, f: Frame, w': World, n: nat)
    requires n > 0 && Holding(f)
    requires id !in w'.frames
    requires ClaimedSection(c, At(w, id, f), f, Smooth) == Finish(At(w', id, f))
    ensures Drain(c, At(w, id, f), id, n) == w'.(claim := None)
  {
    hide ClaimedSection;
    assert At(w', id, f).frames - {id} == w'.frames;
  }

  // -------------------------------------------------------- refund convergence

  /** A funded record whose timelock has passed, with retries left and nobody else at work. */
  ghost predicate RefundDue(c: Config, w: World, id: Worker) {
    && Reachable(c, w)
    && w.rec.state == EvmFunded && w.htlc.Locked? && w.now >= w.htlc.lock
    && c.confirmations.Some? && w.rec.refundRetries < c.maxRetries
    && id !in w.frames && ClaimFree(w, id)
  }

  function Bumped(w: World): World {
    w.(rec := w.rec.(refundRetries := w.rec.refundRetries + 1, retries := w.rec.retries + 1))
  }

  function BaseRefunded(w: World): World
    requires w.htlc.Locked?
  {
    RefundConfirmed(HtlcRefunded(Bumped(w)), RefundTx(w.block + 1))
  }

  function FullyRefunded(w: World): World
    requires w.htlc.Locked?
  {
    var b := BaseRefunded(w);
    b.(ln := Canceled, reservation := Released,
       rec := b.rec.(state := SwapRefunded, reservationStatus := Released))
  }

  lemma ReconcileStarts(c: Config, w: World, id: Worker)
    requires id !in w.frames && ClaimFree(w, id) && !Terminal(w.rec.state)
    ensures Step(c, w, Start(id, Reconcile, Smooth)) == At(w, id, ReconcileLightning(w.rec.state))
  {
  }

  lemma DrainToDecision(c: Config, w: World, id: Worker, n: nat)
    requires n >= 3 && id !in w.frames && ClaimFree(w, id)
    requires !Terminal(w.rec.state) && w.ln != Absent
    ensures Drain(c, Step(c, w, Start(id, Reconcile, Smooth)), id, n)
         == Drain(c, At(w, id, ReconcileDecide(w.rec.state, LnFound(w.ln), EvmSeen(w.htlc, w.now))), id, n - 2)
  {
    hide Drain, Step, At;
    ReconcileStarts(c, w, id);
    DrainPastLightning(c, w, id, w.rec.state, n);
    DrainPastBase(c, w, id, w.rec.state, n - 1);
  }

  lemma DrainPastLightning(c: Config, w: World, id: Worker, s: SwapState, n: nat)
    requires n >= 1 && id !in w.frames && w.ln != Absent
    ensures Drain(c, At(w, id, ReconcileLightning(s)), id, n)
         == Drain(c, At(w, id, ReconcileEvm(s, LnFound(w.ln))), id, n - 1)
  {
    hide Drain, Step, Decide, FundSection, SettleSection, ClaimSection, UnfundedSection, RefundSection;
    DrainContinue(c, w, id, ReconcileLightning(s), w, ReconcileEvm(s, LnFound(w.ln)), n);
  }

  lemma DrainPastBase(c: Config, w: World, id: Worker, s: SwapState, n: nat)
    requires n >= 1 && id !in w.frames
    ensures Drain(c, At(w, id, ReconcileEvm(s, LnFound(w.ln))), id, n)
         == Drain(c, At(w, id, ReconcileDecide(s, LnFound(w.ln), EvmSeen(w.htlc, w.now))), id, n - 1)
  {
    hide Drain, Step, Decide, FundSection, SettleSection, ClaimSection, UnfundedSection, RefundSection;
    DrainContinue(c, w, id, ReconcileEvm(s, LnFound(w.ln)), w,
                  ReconcileDecide(s, LnFound(w.ln), EvmSeen(w.htlc, w.now)), n);
  }

  lemma DrainToRefund(c: Config, w: World, id: Worker, n: nat)
    requires n >= 1 && id !in w.frames && w.rec.state == EvmFunded && w.htlc.Locked? && w.now >= w.htlc.lock
    requires c.confirmations.Some? && w.rec.refundRetries < c.maxRetries
    ensures var f := ReconcileDecide(EvmFunded, LnFound(Accepted), EvmSeen(w.htlc, w.now));
            Drain(c, At(w, id, f), id, n) == Drain(c, At(Bumped(w), id, RefundObserve), id, n - 1)
  {
    hide Drain, Step, FundSection, SettleSection, ClaimSection, UnfundedSection, RefundSection;
    var f := ReconcileDecide(EvmFunded, LnFound(Accepted), EvmSeen(w.htlc, w.now));
    DrainContinue(c, w, id, f, Bumped(w), RefundObserve, n);
  }

  lemma DrainToDispatch(c: Config, b: World, id: Worker, n: nat)
    requires n >= 2 && id !in b.frames && !GuardedState(b.rec.state) && b.htlc.Locked? && b.now >= b.htlc.lock
    ensures Drain(c, At(b, id, RefundObserve), id, n)
         == Drain(c, At(b.(rec := b.rec.(state := EvmRefundPending)), id, RefundDispatch), id, n - 2)
  {
    hide Drain, Step, FundSection, SettleSection, ClaimSection, UnfundedSection, ReconcileSection;
    var f := RefundDecide(b.htlc, b.now);
    DrainContinue(c, b, id, RefundObserve, b, f, n);
    DrainContinue(c, b, id, f, b.(rec := b.rec.(state := EvmRefundPending)), RefundDispatch, n - 1);
  }

  function HtlcRefunded(p: World): World
    requires p.htlc.Locked?
  {
    p.(htlc := Refunded(p.htlc.lock, RefundTx(p.block + 1), p.block + 1), block := p.block + 2)
  }

  function RefundConfirmed(q: World, tx: TxHash): World {
    q.(rec := q.rec.(state := EvmRefundConfirmed, refundTx := Some(tx)))
  }

  lemma DrainToConfirm(c: Config, p: World, id: Worker, n: nat)
    requires n >= 1 && id !in p.frames && p.htlc.Locked? && p.now >= p.htlc.lock
    ensures Drain(c, At(p, id, RefundDispatch), id, n)
         == Drain(c, At(HtlcRefunded(p), id, RefundConfirm(RefundTx(p.block + 1))), id, n - 1)
  {
    hide Drain, Step, FundSection, SettleSection, ClaimSection, UnfundedSection, ReconcileSection;
    DrainContinue(c, p, id, RefundDispatch, HtlcRefunded(p), RefundConfirm(RefundTx(p.block + 1)), n);
  }

  lemma DrainToVerify(c: Config, q: World, id: Worker, tx: TxHash, n: nat)
    requires n >= 1 && id !in q.frames && q.rec.state == EvmRefundPending
    ensures Drain(c, At(q, id, RefundConfirm(tx)), id, n)
         == Drain(c, At(RefundConfirmed(q, tx), id, RefundVerify), id, n - 1)
  {
    hide Drain, Step, FundSection, SettleSection, ClaimSection, UnfundedSection, ReconcileSection;
    DrainContinue(c, q, id, RefundConfirm(tx), RefundConfirmed(q, tx), RefundVerify, n);
  }

  lemma DrainToCancel(c: Config, r: World, id: Worker, n: nat)
    requires n >= 2 && id !in r.frames && r.rec.state == EvmRefundConfirmed && r.htlc.Refunded?
    requires r.rec.refundTx == Some(r.htlc.tx)
    requires c.confirmations.Some? && Confirmed(r.block, r.htlc.atBlock, c.confirmations.value)
    ensures Drain(c, At(r, id, RefundVerify), id, n)
         == Drain(c, At(r.(rec := r.rec.(state := LightningCancelPending)), id, RefundCancel), id, n - 2)
  {
    hide Drain, Step, FundSection, SettleSection, ClaimSection, UnfundedSection, ReconcileSection;
    DrainContinue(c, r, id, RefundVerify, r, RefundMark, n);
    DrainContinue(c, r, id, RefundMark, r.(rec := r.rec.(state := LightningCancelPending)), RefundCancel, n - 1);
  }

  lemma DrainToEnd(c: Config, m: World, id: Worker, n: nat)
    requires n >= 2 && id !in m.frames && m.rec.state == LightningCancelPending && m.ln == Accepted
    requires m.reservation == Committed
    ensures Drain(c, At(m, id, RefundCancel), id, n)
         == m.(ln := Canceled, reservation := Released, claim := None,
               rec := m.rec.(state := SwapRefunded, reservationStatus := Released))
  {
    hide Drain, Step, FundSection, SettleSection, ClaimSection, UnfundedSection, ReconcileSection;
    var k := m.(ln := Canceled);
    DrainContinue(c, m, id, RefundCancel, k, RefundRestore, n);
    DrainFinish(c, k, id, RefundRestore,
                k.(reservation := Released,
                   rec := k.rec.(state := SwapRefunded, reservationStatus := Released)), n - 1);
  }

  lemma DrainToBaseRefund(c: Config, w: World, id: Worker, n: nat)
    requires n >= 9 && RefundDue(c, w, id) && w.ln == Accepted
    ensures Drain(c, Step(c, w, Start(id, Reconcile, Smooth)), id, n)
         == Drain(c, At(BaseRefunded(w), id, RefundVerify), id, n - 7)
  {
    hide Drain, Step, Reachable, At;
    DrainToDecision(c, w, id, n);
    DrainToRefund(c, w, id, n - 2);
    DrainFromDue(c, Bumped(w), id, n - 3);
  }

  lemma DrainFromDue(c: Config, b: World, id: Worker, n: nat)
    requires n >= 4 && id !in b.frames && !GuardedState(b.rec.state) && b.htlc.Locked? && b.now >= b.htlc.lock
    ensures Drain(c, At(b, id, RefundObserve), id, n)
         == Drain(c, At(RefundConfirmed(HtlcRefunded(b), RefundTx(b.block + 1)), id, RefundVerify), id, n - 4)
  {
    hide Drain, Step, At, GuardedState;
    DrainToDispatch(c, b, id, n);
    var p := b.(rec := b.rec.(state := EvmRefundPending));
    DrainToConfirm(c, p, id, n - 2);
    DrainToVerify(c, HtlcRefunded(p), id, RefundTx(b.block + 1), n - 3);
  }

  lemma LaxRefundEnds(c: Config, w: World, r: World, id: Worker, n: nat)
    requires n >= 4 && w.htlc.Locked? && id !in w.frames && w.ln == Accepted && w.reservation == Committed
    requires r == BaseRefunded(w) && c.confirmations.Some? && c.confirmations.value <= 2
    ensures Drain(c, At(r, id, RefundVerify), id, n) == FullyRefunded(w).(claim := None)
  {
    hide Drain, Step, At;
    DrainToCancel(c, r, id, n);
    DrainToEnd(c, r.(rec := r.rec.(state := LightningCancelPending)), id, n - 2);
  }

  lemma StrictRefundEnds(c: Config, w: World, r: World, id: Worker, n: nat)
    requires n >= 1 && w.htlc.Locked? && id !in w.frames
    requires r == BaseRefunded(w) && c.confirmations.Some? && c.confirmations.value > 2
    ensures Drain(c, At(r, id, RefundVerify), id, n) == r.(claim := None)
  {
    hide Drain, Step, FundSection, SettleSection, ClaimSection, UnfundedSection, ReconcileSection;
    DrainFinish(c, r, id, RefundVerify, r, n);
  }

  lemma RefundDrains(c: Config, w: World, id: Worker, n: nat)
    requires n >= 12 && RefundDue(c, w, id) && w.ln == Accepted && w.reservation == Committed
    ensures Drain(c, Step(c, w, Start(id, Reconcile, Smooth)), id, n)
         == (if c.confirmations.value <= 2 then FullyRefunded(w) else BaseRefunded(w)).(claim := None)
  {
    hide Drain, Step, Reachable, At, BaseRefunded, FullyRefunded;
    DrainToBaseRefund(c, w, id, n);
    if c.confirmations.value <= 2 {
      LaxRefundEnds(c, w, BaseRefunded(w), id, n - 7);
    } else {
      StrictRefundEnds(c, w, BaseRefunded(w), id, n - 7);
    }
  }

  /**
   One fault-free reconciliation refunds both rails exactly when the finality
   policy asks for at most the two confirmations a refund has when it is mined;
   repeating the call changes nothing. Under a stricter policy the call stops
   with Base refunded and Lightning still held.
   */
  lemma RefundConverges(c: Config, w: World, id: Worker)
    requires RefundDue(c, w, id)
    ensures var w' := SoloCall(c, w, id, Reconcile);
            && (w'.rec.state == SwapRefunded <==> c.confirmations.value <= 2)
            && (c.confirmations.value <= 2 ==>
                  && w' == FullyRefunded(w).(claim := None)
                  && w'.htlc.Refunded? && w'.ln == Canceled && w'.reservation == Released
                  && SoloCall(c, w', id, Reconcile) == w')
            && (c.confirmations.value > 2 ==> w' == BaseRefunded(w).(claim := None) && w'.ln == Accepted)
  {
    ReachableInv(c, w);
    RefundDrains(c, w, id, LongestCall);
  }

  function CancelCounted(r: World): World {
    r.(rec := r.rec.(cancelRetries := r.rec.cancelRetries + 1, retries := r.rec.retries + 1))
  }

  lemma DrainFromReconcileCancel(c: Config, k: World, id: Worker, n: nat)
    requires n >= 2 && id !in k.frames && k.htlc.Refunded? && k.ln == Accepted && k.reservation == Committed
    requires !GuardedState(k.rec.state)
    ensures Drain(c, At(k, id, ReconcileCancel), id, n)
         == k.(ln := Canceled, reservation := Released, claim := None,
               rec := k.rec.(state := SwapRefunded, reservationStatus := Released, recoveryRequired := false))
  {
    hide Drain, Step, FundSection, SettleSection, ClaimSection, UnfundedSection, RefundSection;
    var m := k.(ln := Canceled);
    DrainContinue(c, k, id, ReconcileCancel, m, ReconcileRestore, n);
    DrainFinish(c, m, id, ReconcileRestore,
                m.(reservation := Released,
                   rec := m.rec.(state := SwapRefunded, reservationStatus := Released,
                                 recoveryRequired := false)), n - 1);
  }

  lemma DrainToReconcileCancel(c: Config, r: World, id: Worker, n: nat)
    requires n >= 1 && id !in r.frames && r.htlc.Refunded? && r.rec.cancelRetries < c.maxRetries
    ensures var f := ReconcileDecide(EvmRefundConfirmed, LnFound(Accepted), EvmSeen(r.htlc, r.now));
      Drain(c, At(r, id, f), id, n) == Drain(c, At(CancelCounted(r), id, ReconcileCancel), id, n - 1)
  {
    hide Drain, Step, FundSection, SettleSection, ClaimSection, UnfundedSection, RefundSection;
    var f := ReconcileDecide(EvmRefundConfirmed, LnFound(Accepted), EvmSeen(r.htlc, r.now));
    DrainContinue(c, r, id, f, CancelCounted(r), ReconcileCancel, n);
  }

  lemma SecondCallDrains(c: Config, r: World, id: Worker, n: nat)
    requires n >= 6 && id !in r.frames && ClaimFree(r, id) && r.rec.state == EvmRefundConfirmed
    requires r.htlc.Refunded? && r.ln == Accepted && r.reservation == Committed && r.rec.cancelRetries < c.maxRetries
    ensures var k := CancelCounted(r);
      Drain(c, Step(c, r, Start(id, Reconcile, Smooth)), id, n)
         == k.(ln := Canceled, reservation := Released, claim := None,
               rec := k.rec.(state := SwapRefunded, reservationStatus := Released, recoveryRequired := false))
  {
    hide Drain, Step, ClaimedSection;
    DrainToDecision(c, r, id, n);
    DrainToReconcileCancel(c, r, id, n - 2);
    DrainFromReconcileCancel(c, CancelCounted(r), id, n - 3);
  }

  function Escalated(r: World): World {
    r.(claim := None, rec := r.rec.(state := RecoveryRequired, recoveryRequired := true))
  }

  lemma DrainToEscalation(c: Config, r: World, id: Worker, n: nat)
    requires n >= 1 && id !in r.frames && r.htlc.Refunded? && r.rec.cancelRetries >= c.maxRetries
    ensures var f := ReconcileDecide(EvmRefundConfirmed, LnFound(Accepted), EvmSeen(r.htlc, r.now));
      Drain(c, At(r, id, f), id, n) == Escalated(r)
  {
    hide Drain, Step, FundSection, SettleSection, ClaimSection, UnfundedSection, RefundSection;
    var f := ReconcileDecide(EvmRefundConfirmed, LnFound(Accepted), EvmSeen(r.htlc, r.now));
    DrainFinish(c, r, id, f, r.(rec := Escalated(r).rec), n);
  }

  lemma SecondCallEscalates(c: Config, r: World, id: Worker, n: nat)
    requires n >= 3 && id !in r.frames && ClaimFree(r, id) && r.rec.state == EvmRefundConfirmed
    requires r.htlc.Refunded? && r.ln == Accepted && r.rec.cancelRetries >= c.maxRetries
    ensures Drain(c, Step(c, r, Start(id, Reconcile, Smooth)), id, n) == Escalated(r)
  {
    hide Drain, Step, ClaimedSection;
    DrainToDecision(c, r, id, n);
    DrainToEscalation(c, r, id, n - 2);
  }

  /**
   Two fault-free reconciliations refund both rails under any finality policy,
   exactly unless the second one needs a cancel retry and none is left.
   */
  lemma RefundConvergesInTwo(c: Config, w: World, id: Worker)
    requires RefundDue(c, w, id)
    ensures var w2 := SoloCall(c, SoloCall(c, w, id, Reconcile), id, Reconcile);
      && (w2.rec.state == SwapRefunded <==> c.confirmations.value <= 2 || w.rec.cancelRetries < c.maxRetries)
      && (w2.rec.state == SwapRefunded ==> w2.htlc.Refunded? && w2.ln == Canceled && w2.reservation == Released)
      && (w2.rec.state != SwapRefunded ==> w2.rec.state == RecoveryRequired && w2.htlc.Refunded? && w2.ln == Accepted)
  {
    RefundConverges(c, w, id);
    if c.confirmations.value > 2 {
      ReachableInv(c, w);
      hide Drain, Step, Reachable, Inv;
      var r := BaseRefunded(w).(claim := None);
      if w.rec.cancelRetries < c.maxRetries {
        SecondCallDrains(c, r, id, LongestCall);
      } else {
        SecondCallEscalates(c, r, id, LongestCall);
      }
    }
  }

  // ---------------------------------------------------- settlement convergence

  /** The client has claimed, the claim transaction is known and final, and nobody else is at work. */
  ghost predicate SettlementDue(c: Config, w: World, id: Worker) {
    && Reachable(c, w)
    && Settleable(w.rec.state) && w.htlc.Claimed? && w.ln == Accepted
    && w.rec.claimTx == Some(w.htlc.tx) && w.rec.htlcId
    && c.confirmations.Some? && Confirmed(w.block, w.htlc.atBlock, c.confirmations.value)
    && w.rec.settleRetries < c.maxRetries
    && id !in w.frames && ClaimFree(w, id)
  }

  function LightningPaid(w: World): World {
    w.(ln := Settled,
       rec := w.rec.(state := DestinationPending, settleRetries := w.rec.settleRetries + 1,
                     retries := w.rec.retries + 1))
  }

  function BothPaid(w: World): World {
    var p := LightningPaid(w);
    p.(reservation := ReservationSettled,
       rec := p.rec.(state := Completed, reservationStatus := ReservationSettled, recoveryRequired := false))
  }

  lemma DrainToGate(c: Config, w: World, id: Worker, n: nat)
    requires n >= 1 && id !in w.frames && Settleable(w.rec.state) && w.htlc.Claimed?
    requires w.rec.claimTx == Some(w.htlc.tx) && c.confirmations.Some? && w.rec.settleRetries < c.maxRetries
    ensures var f := ReconcileDecide(w.rec.state, LnFound(Accepted), EvmSeen(w.htlc, w.now));
      Drain(c, At(w, id, f), id, n)
         == Drain(c, At(SettleCounted(w), id, SettleGate(w.htlc.tx, w.rec.state)), id, n - 1)
  {
    hide Drain, Step, FundSection, SettleSection, ClaimSection, UnfundedSection, RefundSection;
    var f := ReconcileDecide(w.rec.state, LnFound(Accepted), EvmSeen(w.htlc, w.now));
    DrainContinue(c, w, id, f, SettleCounted(w), SettleGate(w.htlc.tx, w.rec.state), n);
  }

  function SettleCounted(w: World): World {
    w.(rec := w.rec.(settleRetries := w.rec.settleRetries + 1, retries := w.rec.retries + 1))
  }

  lemma DrainToMark(c: Config, b: World, id: Worker, n: nat)
    requires n >= 2 && id !in b.frames && Settleable(b.rec.state) && b.htlc.Claimed? && b.rec.htlcId
    requires c.confirmations.Some? && Confirmed(b.block, b.htlc.atBlock, c.confirmations.value)
    ensures Drain(c, At(b, id, SettleGate(b.htlc.tx, b.rec.state)), id, n)
         == Drain(c, At(b, id, SettleMark(b.htlc.tx)), id, n - 2)
  {
    hide Drain, Step, FundSection, ClaimSection, UnfundedSection, RefundSection, ReconcileSection;
    var tx := b.htlc.tx;
    DrainContinue(c, b, id, SettleGate(tx, b.rec.state), b, SettleEvidence(tx), n);
    DrainContinue(c, b, id, SettleEvidence(tx), b, SettleMark(tx), n - 1);
  }

  lemma DrainToPaid(c: Config, b: World, id: Worker, n: nat)
    requires n >= 3 && id !in b.frames && Settleable(b.rec.state) && b.htlc.Claimed? && b.ln == Accepted
    requires b.rec.claimTx == Some(b.htlc.tx)
    ensures Drain(c, At(b, id, SettleMark(b.htlc.tx)), id, n)
         == b.(ln := Settled, claim := None, rec := b.rec.(state := DestinationPending))
  {
    hide Drain, Step, FundSection, ClaimSection, UnfundedSection, RefundSection, ReconcileSection;
    var tx := b.htlc.tx;
    var m := b.(rec := b.rec.(state := LightningSettlementPending, claimTx := Some(tx)));
    DrainContinue(c, b, id, SettleMark(tx), m, SettleDispatch, n);
    DrainFromSettlement(c, m, id, n - 1);
  }

  lemma DrainFromSettlement(c: Config, m: World, id: Worker, n: nat)
    requires n >= 2 && id !in m.frames && m.rec.state == LightningSettlementPending && m.ln == Accepted
    ensures Drain(c, At(m, id, SettleDispatch), id, n)
         == m.(ln := Settled, claim := None, rec := m.rec.(state := DestinationPending))
  {
    hide Drain, Step, FundSection, ClaimSection, UnfundedSection, RefundSection, ReconcileSection;
    var p := m.(ln := Settled);
    DrainContinue(c, m, id, SettleDispatch, p, SettleRecord, n);
    DrainFinish(c, p, id, SettleRecord, p.(rec := p.rec.(state := DestinationPending)), n - 1);
  }

  lemma SettlementFirstCall(c: Config, w: World, id: Worker, n: nat)
    requires n >= 9 && SettlementDue(c, w, id)
    ensures Drain(c, Step(c, w, Start(id, Reconcile, Smooth)), id, n) == LightningPaid(w).(claim := None)
  {
    hide Drain, Step;
    DrainToDecision(c, w, id, n);
    DrainToGate(c, w, id, n - 2);
    var b := SettleCounted(w);
    DrainToMark(c, b, id, n - 3);
    DrainToPaid(c, b, id, n - 5);
  }

  lemma SettlementSecondCall(c: Config, p: World, id: Worker, n: nat)
    requires n >= 3 && id !in p.frames && ClaimFree(p, id)
    requires p.rec.state == DestinationPending && p.ln == Settled && p.htlc.Claimed?
    requires p.reservation == Committed || p.reservation == ReservationSettled
    ensures Drain(c, Step(c, p, Start(id, Reconcile, Smooth)), id, n)
         == p.(claim := None, reservation := ReservationSettled,
               rec := p.rec.(state := Completed, reservationStatus := ReservationSettled, recoveryRequired := false))
  {
    hide Drain, FundSection, SettleSection, ClaimSection, UnfundedSection, RefundSection;
    DrainToDecision(c, p, id, n);
    var f := ReconcileDecide(DestinationPending, LnFound(Settled), EvmSeen(p.htlc, p.now));
    var q := p.(reservation := ReservationSettled,
                rec := p.rec.(state := Completed, reservationStatus := ReservationSettled, recoveryRequired := false));
    DrainFinish(c, p, id, f, q, n - 2);
  }

  /** Two fault-free reconciliations take a claimed swap to COMPLETED with both rails and the reservation settled. */
  lemma SettlementConverges(c: Config, w: World, id: Worker)
    requires SettlementDue(c, w, id)
    ensures var w1 := SoloCall(c, w, id, Reconcile);
            var w2 := SoloCall(c, w1, id, Reconcile);
            && w1.rec.state == DestinationPending && w1.ln == Settled
            && w2 == BothPaid(w).(claim := None)
            && w2.rec.state == Completed && w2.ln == Settled && w2.reservation == ReservationSettled
            && SoloCall(c, w2, id, Reconcile) == w2
  {
    ReachableInv(c, w);
    SettlementFirstCall(c, w, id, LongestCall);
    SettlementSecondCall(c, LightningPaid(w).(claim := None), id, LongestCall);
  }
}
