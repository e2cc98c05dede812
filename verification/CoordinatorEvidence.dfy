/**
 What a rail is moved on. Lightning should be settled only against a final claim
 on Base, and canceled only against a final refund. Both hold exactly under
 policies of at most two confirmations; under stricter ones exactly the steps
 named here act on evidence that is not final.
 */
module CoordinatorEvidence {
  import opened Wrappers
  import opened SwapTypes
  import opened Rails
  import opened CoordinatorSteps
  import opened CoordinatorSafety
  import opened CoordinatorTheorems
  import opened CoordinatorConvergence
  import opened CoordinatorRaces

  // ------------------------------------------------------------ final evidence

  predicate Final(c: Config, w: World)
    requires w.htlc.Claimed? || w.htlc.Refunded?
  {
    c.confirmations.Some? && Confirmed(w.block, w.htlc.atBlock, c.confirmations.value)
  }

  predicate ClaimFinal(c: Config, w: World) { w.htlc.Claimed? && Final(c, w) }

  predicate RefundFinal(c: Config, w: World) { w.htlc.Refunded? && Final(c, w) }

  /** The refund hashes for which `processRefund` skips the finality check. */
  predicate Unchecked(tx: Option<TxHash>) { tx == None || tx == Some(ReconciledRefund) }

  /** The evidence a worker has behind it when it is about to move Lightning. */
  predicate Evidenced(c: Config, w: World, f: Frame) {
    match f
    case SettleMark(_) => ClaimFinal(c, w)
    case SettleDispatch => ClaimFinal(c, w)
    case ClaimSettle(tx) => tx != Preclaimed ==> ClaimFinal(c, w)
    case RefundMark => RefundFinal(c, w) || Unchecked(w.rec.refundTx)
    case RefundCancel => RefundFinal(c, w) || Unchecked(w.rec.refundTx)
    case _ => true
  }

  /** Claiming on Base and refunding it need a finality policy to start with. */
  predicate NeedsPolicy(f: Frame) { IsClaim(f) || (IsRefund(f) && !f.RefundRestore?) }

  /** Base transactions are in the past: the chain grew by one block when its receipt was seen. */
  predicate MinedBefore(h: Htlc, block: nat) { h.Claimed? || h.Refunded? ==> h.atBlock < block }

  predicate EvidenceInv(c: Config, w: World) {
    && MinedBefore(w.htlc, w.block)
    && (w.htlc.Refunded? ==> c.confirmations.Some?)
    && (forall id :: id in w.frames ==>
          Evidenced(c, w, w.frames[id]) && (NeedsPolicy(w.frames[id]) ==> c.confirmations.Some?))
  }

  /** What a section does to the evidence: it keeps what is final and goes on only with what the next step needs. */
  predicate Careful(c: Config, w: World, s: Section) {
    && w.block <= s.world.block
    && MinedBefore(s.world.htlc, s.world.block)
    && (s.world.htlc.Refunded? ==> c.confirmations.Some?)
    && (s.Continue? ==> Evidenced(c, s.world, s.frame) && (NeedsPolicy(s.frame) ==> c.confirmations.Some?))
  }

  predicate Ready(c: Config, w: World, f: Frame) {
    && MinedBefore(w.htlc, w.block)
    && (w.htlc.Refunded? ==> c.confirmations.Some?)
    && Evidenced(c, w, f) && (NeedsPolicy(f) ==> c.confirmations.Some?)
  }

  lemma FundCareful(c: Config, w: World, f: Frame, choice: Choice)
    requires IsFund(f) && Ready(c, w, f)
    ensures Careful(c, w, FundSection(c, w, f, choice))
  {
  }

  lemma SettleCareful(c: Config, w: World, f: Frame, choice: Choice)
    requires IsSettle(f) && Ready(c, w, f)
    ensures Careful(c, w, SettleSection(c, w, f, choice))
  {
  }

  lemma ClaimCareful(c: Config, w: World, f: Frame, choice: Choice)
    requires IsClaim(f) && Ready(c, w, f)
    ensures Careful(c, w, ClaimSection(c, w, f, choice))
  {
  }

  lemma UnfundedCareful(c: Config, w: World, f: Frame, choice: Choice)
    requires IsUnfunded(f) && Ready(c, w, f)
    ensures Careful(c, w, UnfundedSection(w, f, choice))
  {
  }

  lemma RefundCareful(c: Config, w: World, f: Frame, choice: Choice)
    requires IsRefund(f) && Ready(c, w, f)
    ensures Careful(c, w, RefundSection(c, w, f, choice))
  {
  }

  lemma DecideCareful(c: Config, w: World, f: Frame, choice: Choice)
    requires f.ReconcileDecide? && Ready(c, w, f)
    ensures Careful(c, w, Decide(c, w, f.seen, f.ln, f.evm, choice))
  {
    hide Decide;
    DecideShape(c, w, f.seen, f.ln, f.evm, choice);
  }

  lemma ReconcileCareful(c: Config, w: World, f: Frame, choice: Choice)
    requires IsReconcile(f) && !f.ReconcileDecide? && Ready(c, w, f)
    ensures Careful(c, w, ReconcileSection(c, w, f, choice))
  {
  }

  lemma SectionCareful(c: Config, w: World, f: Frame, choice: Choice)
    requires Holding(f) && Ready(c, w, f)
    ensures Careful(c, w, ClaimedSection(c, w, f, choice))
  {
    hide Careful, Ready, FundSection, SettleSection, ClaimSection, UnfundedSection, RefundSection, Decide;
    if IsFund(f) { FundCareful(c, w, f, choice); }
    else if IsSettle(f) { SettleCareful(c, w, f, choice); }
    else if IsClaim(f) { ClaimCareful(c, w, f, choice); }
    else if IsUnfunded(f) { UnfundedCareful(c, w, f, choice); }
    else if IsRefund(f) { RefundCareful(c, w, f, choice); }
    else if f.ReconcileDecide? { DecideCareful(c, w, f, choice); }
    else { ReconcileCareful(c, w, f, choice); }
  }

  lemma AdvanceKeepsEvidence(c: Config, w: World, id: Worker, choice: Choice)
    requires Inv(c, w) && EvidenceInv(c, w) && id in w.frames && Holding(w.frames[id])
    ensures EvidenceInv(c, Step(c, w, Advance(id, choice)))
  {
    hide ClaimedSection, FrameAgrees, StateAgrees, RailsAgree, ReservationAgrees, CountersAgree, MinedBefore;
    SectionCareful(c, w, w.frames[id], choice);
    SectionTame(c, w, w.frames[id], choice);
  }

  lemma BeginCareful(c: Config, w: World, call: Call, choice: Choice)
    requires !call.DetectHold? && !call.ConfirmDelivery? && Begin(c, w, call, choice).Some?
    requires MinedBefore(w.htlc, w.block) && (w.htlc.Refunded? ==> c.confirmations.Some?)
    ensures var s := Begin(c, w, call, choice).value;
      Careful(c, w, s) && s.world == w.(rec := s.world.rec)
  {
    hide MinedBefore;
  }

  lemma StartKeepsEvidence(c: Config, w: World, e: Event)
    requires Inv(c, w) && EvidenceInv(c, w) && e.Start?
    ensures EvidenceInv(c, Step(c, w, e))
  {
    hide Begin, ClaimedSection, FrameAgrees, StateAgrees, RailsAgree, ReservationAgrees, CountersAgree, MinedBefore;
    var w1 := w.(claim := Some(e.worker));
    if !e.call.DetectHold? && !e.call.ConfirmDelivery? && Begin(c, w1, e.call, e.choice).Some? {
      BeginCareful(c, w1, e.call, e.choice);
    }
  }

  lemma OtherKeepsEvidence(c: Config, w: World, e: Event)
    requires EvidenceInv(c, w) && !e.Start?
    requires e.Advance? ==> e.worker !in w.frames || !Holding(w.frames[e.worker])
    ensures EvidenceInv(c, Step(c, w, e))
  {
    hide ClaimedSection;
  }

  lemma StepKeepsEvidence(c: Config, w: World, e: Event)
    requires Inv(c, w) && EvidenceInv(c, w)
    ensures EvidenceInv(c, Step(c, w, e))
  {
    hide Step, Inv, EvidenceInv;
    if e.Start? { StartKeepsEvidence(c, w, e); }
    else if e.Advance? && e.worker in w.frames && Holding(w.frames[e.worker]) {
      AdvanceKeepsEvidence(c, w, e.worker, e.choice);
    } else {
      OtherKeepsEvidence(c, w, e);
    }
  }

  lemma {:induction false} RunKeepsEvidence(c: Config, w: World, events: seq<Event>)
    requires Inv(c, w) && EvidenceInv(c, w)
    ensures Inv(c, Run(c, w, events)) && EvidenceInv(c, Run(c, w, events))
    decreases |events|
  {
    hide Step, Inv, EvidenceInv;
    if events != [] {
      StepKeepsInv(c, w, events[0]);
      StepKeepsEvidence(c, w, events[0]);
      RunKeepsEvidence(c, Step(c, w, events[0]), events[1..]);
    }
  }

  lemma ReachableEvidence(c: Config, w: World)
    requires Reachable(c, w)
    ensures Inv(c, w) && EvidenceInv(c, w)
  {
    hide Step, Inv;
    var w0 :| Init(w0) && Reaches(c, w0, w);
    var events: seq<Event> :| Run(c, w0, events) == w;
    InitInv(c, w0);
    RunKeepsEvidence(c, w0, events);
  }

  // ------------------------------------------------------ settling on evidence

  predicate Settles(c: Config, w: World, e: Event) { w.ln != Settled && Step(c, w, e).ln == Settled }

  predicate Advances(w: World, e: Event, f: Frame) {
    e.Advance? && e.worker in w.frames && w.frames[e.worker] == f
  }

  /** Recovery decisions, funding and refunds never settle Lightning, and cancel it in four sections only. */
  predicate LeavesLightning(w: World, f: Frame, s: Section) {
    s.world.ln != w.ln ==>
      w.ln != Settled && s.world.ln == Canceled
      && (f.ExpireCancel? || f.HeldCancel? || f.RefundCancel? || f.ReconcileCancel?)
  }

  lemma FundLeavesLightning(c: Config, w: World, f: Frame, choice: Choice)
    requires IsFund(f)
    ensures LeavesLightning(w, f, FundSection(c, w, f, choice))
  {
  }

  lemma RefundLeavesLightning(c: Config, w: World, f: Frame, choice: Choice)
    requires IsRefund(f)
    ensures LeavesLightning(w, f, RefundSection(c, w, f, choice))
  {
  }

  lemma ReconcileLeavesLightning(c: Config, w: World, f: Frame, choice: Choice)
    requires IsReconcile(f)
    ensures LeavesLightning(w, f, ReconcileSection(c, w, f, choice))
  {
    if f.ReconcileDecide? {
      hide Decide;
      DecideShape(c, w, f.seen, f.ln, f.evm, choice);
    }
  }

  lemma SectionMovesLightning(c: Config, w: World, f: Frame, choice: Choice)
    requires Holding(f) && !IsSettle(f) && !IsClaim(f)
    ensures LeavesLightning(w, f, ClaimedSection(c, w, f, choice))
  {
    hide FundSection, SettleSection, ClaimSection, RefundSection, ReconcileSection;
    if IsFund(f) { FundLeavesLightning(c, w, f, choice); }
    else if IsRefund(f) { RefundLeavesLightning(c, w, f, choice); }
    else if IsReconcile(f) { ReconcileLeavesLightning(c, w, f, choice); }
  }

  lemma SectionSettles(c: Config, w: World, f: Frame, choice: Choice)
    requires Holding(f) && w.ln != Settled && ClaimedSection(c, w, f, choice).world.ln == Settled
    ensures f.SettleDispatch? || f.ClaimSettle?
  {
    hide FundSection, UnfundedSection, RefundSection, Decide;
    if !IsSettle(f) && !IsClaim(f) { SectionMovesLightning(c, w, f, choice); }
  }

  /**
   Lightning is settled only by these two sections, always over a claimed HTLC.
   The claim is not final exactly when a claim on the client's behalf found the
   HTLC already claimed and the claim lacks the confirmations.
   */
  lemma SettledWithoutEvidenceExactly(c: Config, w: World, e: Event)
    requires Reachable(c, w) && Settles(c, w, e)
    ensures e.Advance? && e.worker in w.frames && w.htlc.Claimed? && c.confirmations.Some?
    ensures w.frames[e.worker].SettleDispatch? || w.frames[e.worker].ClaimSettle?
    ensures !ClaimFinal(c, w) <==>
            w.frames[e.worker] == ClaimSettle(Preclaimed)
            && !Confirmed(w.block, w.htlc.atBlock, c.confirmations.value)
  {
    ReachableEvidence(c, w);
    hide Reachable, ClaimedSection;
    assert e.Advance? && e.worker in w.frames && Holding(w.frames[e.worker]);
    SectionSettles(c, w, w.frames[e.worker], e.choice);
    assert FrameAgrees(w.frames[e.worker], w) && Evidenced(c, w, w.frames[e.worker]);
  }

  predicate GoesOnTo(s: Section, f: Frame) { s.Continue? && s.frame == f }

  /** The skipped evidence check has one entrance, and the settlement behind it no other. */
  lemma PreclaimedEnteredExactly(c: Config, w: World, f: Frame, choice: Choice)
    requires IsClaim(f)
    ensures GoesOnTo(ClaimSection(c, w, f, choice), ClaimEvidence(Preclaimed)) <==>
            && f == ClaimObserve && choice.fault == NoFault && w.htlc.Claimed?
            && (w.rec.claimTx == None || w.rec.claimTx == Some(Preclaimed))
    ensures GoesOnTo(ClaimSection(c, w, f, choice), ClaimSettle(Preclaimed)) <==> f == ClaimEvidence(Preclaimed)
  {
  }

  function BeingClaimed(w: World): World { w.(rec := w.rec.(state := Claiming)) }

  lemma DrainToPreclaimed(c: Config, u: World, id: Worker, n: nat)
    requires n >= 2 && id !in u.frames && u.htlc.Claimed? && u.rec.claimTx == None
    ensures Drain(c, At(u, id, ClaimObserve), id, n) == Drain(c, At(u, id, ClaimSettle(Preclaimed)), id, n - 2)
  {
    hide Drain, Step, FundSection, SettleSection, UnfundedSection, RefundSection, ReconcileSection;
    DrainContinue(c, u, id, ClaimObserve, u, ClaimEvidence(Preclaimed), n);
    DrainContinue(c, u, id, ClaimEvidence(Preclaimed), u, ClaimSettle(Preclaimed), n - 1);
  }

  lemma PreclaimedReachable(c: Config)
    requires c.confirmations.Some?
    ensures Reachable(c, At(BeingClaimed(ClaimedWorld(c)), 1, ClaimSettle(Preclaimed)))
  {
    FundedReachable(c);
    Hop(c, FundedWorld(c), ClientClaims, ClaimedWorld(c));
    var u := BeingClaimed(ClaimedWorld(c));
    Hop(c, ClaimedWorld(c), Start(1, ClaimForClient, Smooth), At(u, 1, ClaimObserve));
    DrainReachable(c, At(u, 1, ClaimObserve), 1, 2);
    DrainToPreclaimed(c, u, 1, 2);
  }

  /** Under a policy of more than two confirmations a run settles Lightning against a claim that has only two. */
  lemma SettledBeforeFinal(c: Config)
    requires c.confirmations.Some? && c.confirmations.value > 2
    ensures exists w, e :: Reachable(c, w) && Settles(c, w, e) && !ClaimFinal(c, w)
  {
    PreclaimedReachable(c);
    var w := At(BeingClaimed(ClaimedWorld(c)), 1, ClaimSettle(Preclaimed));
    hide Reachable;
    assert Settles(c, w, Advance(1, Smooth));
  }

  // which calls settle without evidence

  function ClaimRecorded(u: World, tx: TxHash): World {
    u.(ln := Settled, claim := None, rec := u.rec.(state := DestinationPending, claimTx := Some(tx)))
  }

  lemma DrainClaimSettle(c: Config, u: World, id: Worker, tx: TxHash, n: nat)
    requires n >= 2 && id !in u.frames && u.rec.state == Claiming && (u.ln == Accepted || u.ln == Settled)
    ensures Drain(c, At(u, id, ClaimSettle(tx)), id, n) == ClaimRecorded(u, tx)
  {
    hide Drain, Step, FundSection, SettleSection, UnfundedSection, RefundSection, ReconcileSection;
    var p := u.(ln := Settled);
    DrainContinue(c, u, id, ClaimSettle(tx), p, ClaimRecord(tx), n);
    DrainFinish(c, p, id, ClaimRecord(tx), ClaimRecorded(u, tx), n - 1);
  }

  /** From the evidence on, a smooth claim settles if it needs no evidence or has it, and otherwise stops. */
  lemma DrainClaimEvidence(c: Config, u: World, id: Worker, tx: TxHash, n: nat)
    requires n >= 3 && id !in u.frames && u.rec.state == Claiming && (u.ln == Accepted || u.ln == Settled)
    requires c.confirmations.Some?
    ensures Drain(c, At(u, id, ClaimEvidence(tx)), id, n)
         == if tx == Preclaimed || ClaimEvidenceFinal(ChainOf(u), tx, c.confirmations.value)
            then ClaimRecorded(u, tx)
            else u.(claim := None)
  {
    hide Drain, Step, FundSection, SettleSection, UnfundedSection, RefundSection, ReconcileSection;
    if tx == Preclaimed || ClaimEvidenceFinal(ChainOf(u), tx, c.confirmations.value) {
      DrainContinue(c, u, id, ClaimEvidence(tx), u, ClaimSettle(tx), n);
      DrainClaimSettle(c, u, id, tx, n - 1);
    } else {
      DrainFinish(c, u, id, ClaimEvidence(tx), u, n);
    }
  }

  lemma DrainClaimed(c: Config, u: World, id: Worker, n: nat)
    requires n >= 4 && id !in u.frames && u.rec.state == Claiming && (u.ln == Accepted || u.ln == Settled)
    requires c.confirmations.Some? && u.htlc.Claimed?
    ensures var tx := if u.rec.claimTx.Some? then u.rec.claimTx.value else Preclaimed;
      Drain(c, At(u, id, ClaimObserve), id, n)
      == if tx == Preclaimed || ClaimEvidenceFinal(ChainOf(u), tx, c.confirmations.value)
         then ClaimRecorded(u, tx)
         else u.(claim := None)
  {
    hide Drain, Step, FundSection, SettleSection, UnfundedSection, RefundSection, ReconcileSection;
    var tx := if u.rec.claimTx.Some? then u.rec.claimTx.value else Preclaimed;
    DrainContinue(c, u, id, ClaimObserve, u, ClaimEvidence(tx), n);
    DrainClaimEvidence(c, u, id, tx, n - 1);
  }

  function HtlcClaimed(u: World): World
    requires u.htlc.Locked?
  {
    u.(htlc := Claimed(u.htlc.lock, ClaimTx(u.block + 1), u.block + 1), block := u.block + 2)
  }

  lemma DrainLocked(c: Config, u: World, id: Worker, n: nat)
    requires n >= 5 && id !in u.frames && u.rec.state == Claiming && u.ln == Accepted
    requires c.confirmations.Some? && u.htlc.Locked?
    ensures Drain(c, At(u, id, ClaimObserve), id, n)
         == if c.confirmations.value <= 2 then ClaimRecorded(HtlcClaimed(u), ClaimTx(u.block + 1))
            else HtlcClaimed(u).(claim := None)
  {
    hide Drain, Step, FundSection, SettleSection, UnfundedSection, RefundSection, ReconcileSection;
    DrainContinue(c, u, id, ClaimObserve, u, ClaimDispatch, n);
    DrainContinue(c, u, id, ClaimDispatch, HtlcClaimed(u), ClaimEvidence(ClaimTx(u.block + 1)), n - 1);
    DrainClaimEvidence(c, HtlcClaimed(u), id, ClaimTx(u.block + 1), n - 2);
  }

  lemma DrainRefundedClaim(c: Config, u: World, id: Worker, n: nat)
    requires n >= 2 && id !in u.frames && u.htlc.Refunded?
    ensures Drain(c, At(u, id, ClaimObserve), id, n) == u.(claim := None)
  {
    hide Drain, Step, FundSection, SettleSection, UnfundedSection, RefundSection, ReconcileSection;
    DrainContinue(c, u, id, ClaimObserve, u, ClaimDispatch, n);
    DrainFinish(c, u, id, ClaimDispatch, u, n - 1);
  }

  lemma ClaimStarts(c: Config, w: World, id: Worker)
    requires c.confirmations.Some? && Claimable(w.rec.state) && id !in w.frames && ClaimFree(w, id)
    ensures Step(c, w, Start(id, ClaimForClient, Smooth)) == At(BeingClaimed(w), id, ClaimObserve)
  {
  }

  /**
   What a caller can check before claiming for the client: a fault-free call
   settles Lightning without final evidence if and only if the payment is held,
   the HTLC is already claimed, the row names no transaction, and the claim
   lacks the confirmations.
   */
  lemma ClaimSettlesWithoutEvidenceExactly(c: Config, w: World, id: Worker)
    requires Reachable(c, w) && c.confirmations.Some? && Claimable(w.rec.state)
    requires id !in w.frames && ClaimFree(w, id)
    ensures var w' := SoloCall(c, w, id, ClaimForClient);
      (w.ln != Settled && w'.ln == Settled && !ClaimFinal(c, w')) <==>
      (w.ln == Accepted && w.htlc.Claimed? && (w.rec.claimTx == None || w.rec.claimTx == Some(Preclaimed))
       && !Confirmed(w.block, w.htlc.atBlock, c.confirmations.value))
  {
    ReachableInv(c, w);
    hide Drain, Step, Reachable;
    ClaimStarts(c, w, id);
    var u := BeingClaimed(w);
    match w.htlc {
      case Claimed(_, _, _) => DrainClaimed(c, u, id, LongestCall);
      case Locked(_) => DrainLocked(c, u, id, LongestCall);
      case Refunded(_, _, _) => DrainRefundedClaim(c, u, id, LongestCall);
      case Empty =>
    }
  }

  predicate LaxPolicy(c: Config) { c.confirmations.Some? ==> c.confirmations.value <= 2 }

  /** In all runs Lightning is settled only against final claims exactly under policies of at most two confirmations. */
  lemma ClaimsAreVerifiedExactly(c: Config)
    ensures (forall w, e :: Reachable(c, w) && Settles(c, w, e) ==> ClaimFinal(c, w)) <==> LaxPolicy(c)
  {
    hide Reachable, Settles, Step;
    if LaxPolicy(c) {
      forall w, e | Reachable(c, w) && Settles(c, w, e) ensures ClaimFinal(c, w) {
        SettledWithoutEvidenceExactly(c, w, e);
        ReachableEvidence(c, w);
      }
    } else {
      SettledBeforeFinal(c);
    }
  }

  // ---------------------------------------------------- canceling on evidence

  predicate CancelsRefunded(c: Config, w: World, e: Event) {
    w.htlc.Refunded? && w.ln != Canceled && Step(c, w, e).ln == Canceled
  }

  lemma SettlingNeverCancels(c: Config, w: World, f: Frame, choice: Choice)
    requires IsSettle(f) || IsClaim(f)
    ensures ClaimedSection(c, w, f, choice).world.ln == Canceled ==> w.ln == Canceled
  {
    hide FundSection, UnfundedSection, RefundSection, ReconcileSection;
  }

  lemma SectionCancels(c: Config, w: World, f: Frame, choice: Choice)
    requires Holding(f) && w.ln != Canceled && ClaimedSection(c, w, f, choice).world.ln == Canceled
    ensures f.ExpireCancel? || f.HeldCancel? || f.RefundCancel? || f.ReconcileCancel?
  {
    hide ClaimedSection;
    if IsSettle(f) || IsClaim(f) {
      SettlingNeverCancels(c, w, f, choice);
    } else {
      SectionMovesLightning(c, w, f, choice);
    }
  }

  /** The section cancels without having compared the refund with the finality policy. */
  predicate Unverified(w: World, f: Frame) {
    f.ReconcileCancel? || (f.RefundCancel? && Unchecked(w.rec.refundTx))
  }

  /**
   Lightning over a refunded HTLC is canceled only by these two sections. The
   refund is not final exactly when recovery cancels, or a refund whose hash is
   unknown, and the confirmations are lacking.
   */
  lemma CanceledWithoutEvidenceExactly(c: Config, w: World, e: Event)
    requires Reachable(c, w) && CancelsRefunded(c, w, e)
    ensures e.Advance? && e.worker in w.frames && c.confirmations.Some?
    ensures w.frames[e.worker].RefundCancel? || w.frames[e.worker].ReconcileCancel?
    ensures !RefundFinal(c, w) <==>
            Unverified(w, w.frames[e.worker]) && !Confirmed(w.block, w.htlc.atBlock, c.confirmations.value)
  {
    ReachableEvidence(c, w);
    hide Reachable, ClaimedSection;
    assert e.Advance? && e.worker in w.frames && Holding(w.frames[e.worker]);
    SectionCancels(c, w, w.frames[e.worker], e.choice);
    assert FrameAgrees(w.frames[e.worker], w) && Evidenced(c, w, w.frames[e.worker]);
  }

  // a refund whose reply is lost

  function RefundDueWorld(c: Config): World {
    FundedWorld(c).(now := c.timelockSeconds)
  }

  function RefundPending(c: Config): World {
    var b := RefundDueWorld(c);
    b.(rec := b.rec.(state := EvmRefundPending))
  }

  lemma RefundStartReachable(c: Config)
    requires c.confirmations.Some?
    ensures Reachable(c, At(RefundDueWorld(c), 1, RefundObserve))
  {
    FundedReachable(c);
    var b := RefundDueWorld(c);
    Hop(c, FundedWorld(c), TimePasses(c.timelockSeconds, 0), b);
    Hop(c, b, Start(1, ProcessRefund, Smooth), At(b, 1, RefundObserve));
  }

  lemma RefundDispatchReachable(c: Config)
    requires c.confirmations.Some?
    ensures Reachable(c, At(RefundPending(c), 1, RefundDispatch))
  {
    hide Step, Reachable;
    RefundStartReachable(c);
    DrainReachable(c, At(RefundDueWorld(c), 1, RefundObserve), 1, 2);
    DrainToDispatch(c, RefundDueWorld(c), 1, 2);
  }

  lemma LostReplyReachable(c: Config)
    requires c.confirmations.Some?
    ensures Reachable(c, At(HtlcRefunded(RefundPending(c)), 1, RefundRecheck))
  {
    RefundDispatchReachable(c);
    var p := RefundPending(c);
    assert At(p, 1, RefundDispatch).frames[1 := RefundRecheck] == At(HtlcRefunded(p), 1, RefundRecheck).frames;
    Hop(c, At(p, 1, RefundDispatch), Advance(1, Choice(LostReply, true, true)), At(HtlcRefunded(p), 1, RefundRecheck));
  }

  function CancelPending(q: World, tx: TxHash): World {
    var r := RefundConfirmed(q, tx);
    r.(rec := r.rec.(state := LightningCancelPending))
  }

  lemma DrainMark(c: Config, r: World, id: Worker, n: nat)
    requires n >= 1 && id !in r.frames && r.rec.state == EvmRefundConfirmed
    ensures Drain(c, At(r, id, RefundMark), id, n)
         == Drain(c, At(r.(rec := r.rec.(state := LightningCancelPending)), id, RefundCancel), id, n - 1)
  {
    hide Drain, Step, FundSection, SettleSection, ClaimSection, UnfundedSection, ReconcileSection;
    DrainContinue(c, r, id, RefundMark, r.(rec := r.rec.(state := LightningCancelPending)), RefundCancel, n);
  }

  lemma DrainUnverified(c: Config, r: World, id: Worker, n: nat)
    requires n >= 2 && id !in r.frames && r.rec.state == EvmRefundConfirmed && r.htlc.Refunded?
    requires r.rec.refundTx == Some(ReconciledRefund)
    ensures Drain(c, At(r, id, RefundVerify), id, n)
         == Drain(c, At(r.(rec := r.rec.(state := LightningCancelPending)), id, RefundCancel), id, n - 2)
  {
    hide Drain, Step, FundSection, SettleSection, ClaimSection, UnfundedSection, ReconcileSection;
    DrainContinue(c, r, id, RefundVerify, r, RefundMark, n);
    DrainMark(c, r, id, n - 1);
  }

  lemma DrainUnchecked(c: Config, q: World, id: Worker, n: nat)
    requires n >= 4 && id !in q.frames && q.rec.state == EvmRefundPending && q.htlc.Refunded?
    ensures Drain(c, At(q, id, RefundRecheck), id, n)
         == Drain(c, At(CancelPending(q, ReconciledRefund), id, RefundCancel), id, n - 4)
  {
    hide Drain, Step, FundSection, SettleSection, ClaimSection, UnfundedSection, ReconcileSection;
    DrainContinue(c, q, id, RefundRecheck, q, RefundConfirm(ReconciledRefund), n);
    DrainToVerify(c, q, id, ReconciledRefund, n - 1);
    DrainUnverified(c, RefundConfirmed(q, ReconciledRefund), id, n - 2);
  }

  function EarlyCancel(c: Config): World {
    At(CancelPending(HtlcRefunded(RefundPending(c)), ReconciledRefund), 1, RefundCancel)
  }

  lemma EarlyRefundReachable(c: Config)
    requires c.confirmations.Some?
    ensures Reachable(c, EarlyCancel(c))
  {
    hide Step, Reachable, Drain;
    LostReplyReachable(c);
    var q := HtlcRefunded(RefundPending(c));
    DrainReachable(c, At(q, 1, RefundRecheck), 1, 4);
    DrainUnchecked(c, q, 1, 4);
    DrainNothing(c, EarlyCancel(c), 1);
  }

  lemma DrainNothing(c: Config, w: World, id: Worker)
    ensures Drain(c, w, id, 0) == w
  {
  }

  /** Under a policy of more than two confirmations a refund whose reply was lost cancels Lightning too early. */
  lemma CanceledBeforeFinal(c: Config)
    requires c.confirmations.Some? && c.confirmations.value > 2
    ensures exists w, e :: Reachable(c, w) && CancelsRefunded(c, w, e) && !RefundFinal(c, w)
                           && Advances(w, e, RefundCancel)
  {
    EarlyRefundReachable(c);
    hide Reachable, FundSection, SettleSection, ClaimSection, UnfundedSection, ReconcileSection;
    assert CancelsRefunded(c, EarlyCancel(c), Advance(1, Smooth));
  }

  // a reconciliation after a refund that is not final

  function RefundedOnBase(c: Config): World {
    RefundConfirmed(HtlcRefunded(RefundDueWorld(c)), RefundTx(2))
  }

  lemma StrictVerifyEnds(c: Config)
    requires c.confirmations.Some? && c.confirmations.value > 2
    ensures Drain(c, At(RefundedOnBase(c), 1, RefundVerify), 1, 1) == RefundedOnBase(c)
  {
    hide Drain, Step, FundSection, SettleSection, ClaimSection, UnfundedSection, ReconcileSection;
    DrainFinish(c, RefundedOnBase(c), 1, RefundVerify, RefundedOnBase(c), 1);
  }

  lemma RefundedOnBaseReachable(c: Config)
    requires c.confirmations.Some? && c.confirmations.value > 2
    ensures Reachable(c, RefundedOnBase(c))
  {
    hide Step, Reachable;
    RefundStartReachable(c);
    DrainReachable(c, At(RefundDueWorld(c), 1, RefundObserve), 1, 5);
    DrainFromDue(c, RefundDueWorld(c), 1, 5);
    StrictVerifyEnds(c);
  }

  lemma EarlyCancelReachable(c: Config)
    requires c.confirmations.Some? && c.confirmations.value > 2 && c.maxRetries > 0
    ensures Reachable(c, At(CancelCounted(RefundedOnBase(c)), 1, ReconcileCancel))
  {
    hide Step, Reachable, Drain;
    RefundedOnBaseReachable(c);
    var r := RefundedOnBase(c);
    ReachableStep(c, r, Start(1, Reconcile, Smooth));
    DrainReachable(c, Step(c, r, Start(1, Reconcile, Smooth)), 1, 3);
    DrainToDecision(c, r, 1, 3);
    DrainToReconcileCancel(c, r, 1, 1);
    DrainNothing(c, At(CancelCounted(r), 1, ReconcileCancel), 1);
  }

  /** And so does a reconciliation that finds Base refunded, whatever its own record says. */
  lemma ReconciledBeforeFinal(c: Config)
    requires c.confirmations.Some? && c.confirmations.value > 2 && c.maxRetries > 0
    ensures exists w, e :: Reachable(c, w) && CancelsRefunded(c, w, e) && !RefundFinal(c, w)
                           && Advances(w, e, ReconcileCancel)
  {
    EarlyCancelReachable(c);
    var w := At(CancelCounted(RefundedOnBase(c)), 1, ReconcileCancel);
    hide Reachable;
    assert CancelsRefunded(c, w, Advance(1, Smooth));
  }

  /** In all runs Lightning is canceled only against final refunds exactly under the same policies. */
  lemma RefundsAreVerifiedExactly(c: Config)
    ensures (forall w, e :: Reachable(c, w) && CancelsRefunded(c, w, e) ==> RefundFinal(c, w)) <==> LaxPolicy(c)
  {
    hide Reachable, CancelsRefunded, Step;
    if LaxPolicy(c) {
      forall w, e | Reachable(c, w) && CancelsRefunded(c, w, e) ensures RefundFinal(c, w) {
        CanceledWithoutEvidenceExactly(c, w, e);
        ReachableEvidence(c, w);
      }
    } else {
      CanceledBeforeFinal(c);
    }
  }

  // which calls cancel without evidence

  /** The call cancels Lightning, over a refund that is not final. */
  predicate CancelsEarly(c: Config, w: World, w': World) {
    w.ln != Canceled && w'.ln == Canceled && w'.htlc.Refunded? && !RefundFinal(c, w')
  }

  function RecoveryCanceled(k: World): World {
    FinishReconciledRefund(k.(ln := Canceled)).(claim := None)
  }

  lemma DrainRecoveryCancel(c: Config, k: World, id: Worker, n: nat)
    requires n >= 2 && id !in k.frames && k.ln == Accepted
    ensures Drain(c, At(k, id, ReconcileCancel), id, n) == RecoveryCanceled(k)
  {
    hide Drain, Step, FundSection, SettleSection, ClaimSection, UnfundedSection, RefundSection;
    var m := k.(ln := Canceled);
    DrainContinue(c, k, id, ReconcileCancel, m, ReconcileRestore, n);
    DrainFinish(c, m, id, ReconcileRestore, FinishReconciledRefund(m), n - 1);
  }

  lemma RefundedDecision(c: Config, w: World, id: Worker, n: nat)
    requires n >= 3 && id !in w.frames && w.htlc.Refunded? && w.ln == Accepted
    ensures var f := ReconcileDecide(w.rec.state, LnFound(Accepted), EvmSeen(w.htlc, w.now));
      Drain(c, At(w, id, f), id, n)
         == if w.rec.cancelRetries < c.maxRetries then RecoveryCanceled(CancelCounted(w)) else Escalated(w)
  {
    hide Drain, Step, FundSection, SettleSection, ClaimSection, UnfundedSection, RefundSection;
    var f := ReconcileDecide(w.rec.state, LnFound(Accepted), EvmSeen(w.htlc, w.now));
    if w.rec.cancelRetries < c.maxRetries {
      DrainContinue(c, w, id, f, CancelCounted(w), ReconcileCancel, n);
      DrainRecoveryCancel(c, CancelCounted(w), id, n - 1);
    } else {
      DrainFinish(c, w, id, f, w.(rec := Escalated(w).rec), n);
    }
  }

  lemma CancelKeepsBase(k: World)
    ensures RecoveryCanceled(k).htlc == k.htlc && RecoveryCanceled(k).block == k.block
    ensures RecoveryCanceled(k).ln == Canceled
  {
  }

  /**
   What a caller can check before reconciling over a refunded HTLC: a fault-free
   call cancels Lightning without final evidence if and only if the payment is
   held, a cancel retry is left, and the refund lacks the confirmations.
   */
  lemma ReconcileCancelsEarlyExactly(c: Config, w: World, id: Worker)
    requires Reachable(c, w) && w.htlc.Refunded? && id !in w.frames && ClaimFree(w, id)
    ensures CancelsEarly(c, w, SoloCall(c, w, id, Reconcile)) <==>
            w.ln == Accepted && w.rec.cancelRetries < c.maxRetries && !RefundFinal(c, w)
  {
    ReachableInv(c, w);
    hide Drain, Step, Reachable, RecoveryCanceled;
    if w.ln == Accepted {
      assert !Terminal(w.rec.state);
      DrainToDecision(c, w, id, LongestCall);
      RefundedDecision(c, w, id, LongestCall - 2);
      CancelKeepsBase(CancelCounted(w));
    }
  }

  // refunds

  function RefundCanceled(r: World): World {
    FinishRefund(r.(ln := Canceled, rec := r.rec.(state := LightningCancelPending))).(claim := None)
  }

  lemma DrainRefundCancel(c: Config, m: World, id: Worker, n: nat)
    requires n >= 2 && id !in m.frames && m.ln == Accepted
    ensures Drain(c, At(m, id, RefundCancel), id, n) == FinishRefund(m.(ln := Canceled)).(claim := None)
  {
    hide Drain, Step, FundSection, SettleSection, ClaimSection, UnfundedSection, ReconcileSection;
    var k := m.(ln := Canceled);
    DrainContinue(c, m, id, RefundCancel, k, RefundRestore, n);
    DrainFinish(c, k, id, RefundRestore, FinishRefund(k), n - 1);
  }

  lemma DrainAnyMark(c: Config, r: World, id: Worker, n: nat)
    requires n >= 3 && id !in r.frames && r.ln == Accepted && !GuardedState(r.rec.state)
    ensures Drain(c, At(r, id, RefundMark), id, n) == RefundCanceled(r)
  {
    hide Drain, Step, FundSection, SettleSection, ClaimSection, UnfundedSection, ReconcileSection, FinishRefund;
    var m := r.(rec := r.rec.(state := LightningCancelPending));
    DrainContinue(c, r, id, RefundMark, m, RefundCancel, n);
    DrainRefundCancel(c, m, id, n - 1);
  }

  /** The refund's own check, which an unknown hash skips. */
  predicate RefundPasses(c: Config, r: World) {
    Unchecked(r.rec.refundTx)
    || (c.confirmations.Some? && RefundEvidenceFinal(ChainOf(r), r.rec.refundTx.value, c.confirmations.value))
  }

  lemma DrainAnyVerify(c: Config, r: World, id: Worker, n: nat)
    requires n >= 4 && id !in r.frames && r.ln == Accepted && !GuardedState(r.rec.state)
    ensures Drain(c, At(r, id, RefundVerify), id, n)
         == if RefundPasses(c, r) then RefundCanceled(r) else r.(claim := None)
  {
    hide Drain, Step, FundSection, SettleSection, ClaimSection, UnfundedSection, ReconcileSection, RefundCanceled;
    if RefundPasses(c, r) {
      DrainContinue(c, r, id, RefundVerify, r, RefundMark, n);
      DrainAnyMark(c, r, id, n - 1);
    } else {
      DrainFinish(c, r, id, RefundVerify, r, n);
    }
  }

  lemma DrainRefunded(c: Config, w: World, id: Worker, n: nat)
    requires n >= 6 && id !in w.frames && w.htlc.Refunded? && w.ln == Accepted && !GuardedState(w.rec.state)
    ensures Drain(c, At(w, id, RefundObserve), id, n)
         == if RefundPasses(c, w) then RefundCanceled(w) else w.(claim := None)
  {
    hide Drain, Step, FundSection, SettleSection, ClaimSection, UnfundedSection, ReconcileSection, RefundCanceled;
    DrainContinue(c, w, id, RefundObserve, w, RefundDecide(w.htlc, w.now), n);
    DrainContinue(c, w, id, RefundDecide(w.htlc, w.now), w, RefundVerify, n - 1);
    DrainAnyVerify(c, w, id, n - 2);
  }

  lemma RefundKeepsBase(r: World)
    ensures RefundCanceled(r).htlc == r.htlc && RefundCanceled(r).block == r.block
    ensures RefundCanceled(r).ln == Canceled
  {
  }

  lemma RefundStarts(c: Config, w: World, id: Worker)
    requires c.confirmations.Some? && Refundable(w.rec.state) && id !in w.frames && ClaimFree(w, id)
    ensures Step(c, w, Start(id, ProcessRefund, Smooth)) == At(w, id, RefundObserve)
  {
  }

  /** Over a refunded HTLC a refund call in any other state does not reach Lightning. */
  lemma OtherRefundIsIdle(c: Config, w: World, id: Worker)
    requires Inv(c, w) && w.htlc.Refunded? && !Refundable(w.rec.state) && id !in w.frames && ClaimFree(w, id)
    ensures SoloCall(c, w, id, ProcessRefund).ln == w.ln
  {
    hide Drain, FundSection, SettleSection, ClaimSection, RefundSection, ReconcileSection;
    if w.rec.state == LightningHeld {
      assert Step(c, w, Start(id, ProcessRefund, Smooth)) == At(w, id, HeldObserve);
      DrainFinish(c, w, id, HeldObserve, w, LongestCall);
    } else {
      assert id !in Step(c, w, Start(id, ProcessRefund, Smooth)).frames;
      DrainIdle(c, Step(c, w, Start(id, ProcessRefund, Smooth)), id, LongestCall);
    }
  }

  lemma DrainIdle(c: Config, w: World, id: Worker, n: nat)
    requires id !in w.frames
    ensures Drain(c, w, id, n) == w
  {
  }

  /**
   The same before `processRefund` over a refunded HTLC: it cancels without final
   evidence if and only if the row is refundable, the payment is held, the row
   names no refund transaction and the confirmations are lacking.
   */
  lemma RefundCancelsEarlyExactly(c: Config, w: World, id: Worker)
    requires Reachable(c, w) && w.htlc.Refunded? && id !in w.frames && ClaimFree(w, id)
    ensures CancelsEarly(c, w, SoloCall(c, w, id, ProcessRefund)) <==>
            Refundable(w.rec.state) && w.ln == Accepted && Unchecked(w.rec.refundTx) && !RefundFinal(c, w)
  {
    ReachableEvidence(c, w);
    hide Drain, Step, Reachable, RefundCanceled;
    if !Refundable(w.rec.state) {
      OtherRefundIsIdle(c, w, id);
    } else if w.ln == Accepted {
      RefundStarts(c, w, id);
      DrainRefunded(c, w, id, LongestCall);
      RefundKeepsBase(w);
    }
  }
}
