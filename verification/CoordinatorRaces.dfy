/**
 Concrete runs in which two concurrent workers undo a terminal record. Only
 EXPIRED and COMPLETED can be undone; `CoordinatorFinality` says exactly when.
 */
module CoordinatorRaces {
  import opened Wrappers
  import opened SwapTypes
  import opened Rails
  import opened CoordinatorSteps
  import opened CoordinatorSafety
  import opened CoordinatorTheorems
  import opened CoordinatorConvergence

  const FreshRecord := Record(InvoiceCreated, Reserved, false, None, None, None, false, 0, 0, 0, 0, 0)

  const Fresh := World(Open, Empty, 0, 0, FreshRecord, Reserved, None, map[])

  const Paid := Fresh.(ln := Accepted)

  const NoReply := Choice(NoEffect, true, true)

  lemma Hop(c: Config, w: World, e: Event, w': World)
    requires Reachable(c, w) && Step(c, w, e) == w'
    ensures Reachable(c, w')
  {
    ReachableStep(c, w, e);
  }

  lemma PaidReachable(c: Config)
    ensures Reachable(c, Paid)
  {
    assert Run(c, Fresh, []) == Fresh;
    assert Reaches(c, Fresh, Fresh);
    assert Init(Fresh);
    Hop(c, Fresh, PayerPays, Paid);
  }

  lemma HoldPending(c: Config, id: Worker)
    ensures Reachable(c, Paid.(frames := map[id := HoldWrite]))
  {
    PaidReachable(c);
    Hop(c, Paid, Start(id, DetectHold, Smooth), Paid.(frames := map[id := HoldQuery]));
    Hop(c, Paid.(frames := map[id := HoldQuery]), Advance(id, Smooth), Paid.(frames := map[id := HoldObserve]));
    Hop(c, Paid.(frames := map[id := HoldObserve]), Advance(id, Smooth), Paid.(frames := map[id := HoldWrite]));
  }

  const ExpiredWorld := Paid.(ln := Canceled, reservation := Released,
                              rec := FreshRecord.(state := Expired, reservationStatus := Released))

  const Expiring := Paid.(claim := Some(2), frames := map[1 := HoldWrite, 2 := ExpireCancel])

  lemma ExpiringWithHoldPending(c: Config)
    ensures Reachable(c, Expiring)
  {
    HoldPending(c, 1);
    Hop(c, Paid.(frames := map[1 := HoldWrite]), Start(2, ProcessRefund, Smooth), Expiring);
  }

  const ExpiryCanceled := Expiring.(ln := Canceled, frames := map[1 := HoldWrite, 2 := ExpireRecord])

  lemma CanceledWithHoldPending(c: Config)
    ensures Reachable(c, ExpiryCanceled)
  {
    hide FundSection, SettleSection, ClaimSection, RefundSection, ReconcileSection, AdvanceHold, StartCall;
    ExpiringWithHoldPending(c);
    assert Expiring.frames[2 := ExpireRecord] == ExpiryCanceled.frames;
    Hop(c, Expiring, Advance(2, Smooth), ExpiryCanceled);
  }

  lemma ExpiredWithHoldPending(c: Config)
    ensures Reachable(c, ExpiredWorld.(frames := map[1 := HoldWrite]))
  {
    hide FundSection, SettleSection, ClaimSection, RefundSection, ReconcileSection, AdvanceHold, StartCall;
    CanceledWithHoldPending(c);
    hide Reachable;
    assert ExpiryCanceled.frames - {2} == map[1 := HoldWrite];
    Hop(c, ExpiryCanceled, Advance(2, Smooth), ExpiredWorld.(frames := map[1 := HoldWrite]));
  }

  /** A hold detection that was already under way overwrites EXPIRED, which the stale-worker guard does not cover. */
  lemma ExpiredCanBeLeft(c: Config)
    ensures exists w, e :: Reachable(c, w) && w.rec.state == Expired && Step(c, w, e).rec.state == LightningHeld
  {
    ExpiredWithHoldPending(c);
    var w := ExpiredWorld.(frames := map[1 := HoldWrite]);
    assert Step(c, w, Advance(1, Smooth)).rec.state == LightningHeld;
  }

  // ----------------------------------------------------- COMPLETED can be left

  const HeldWorld := Paid.(rec := FreshRecord.(state := LightningHeld))

  function PendingRecord(c: Config): Record {
    FreshRecord.(state := EvmFundingPending, refundLocktime := Some(c.timelockSeconds))
  }

  function FundedWorld(c: Config): World {
    Paid.(htlc := Locked(c.timelockSeconds), block := 1, reservation := Committed,
          rec := PendingRecord(c).(state := EvmFunded, reservationStatus := Committed, htlcId := true))
  }

  lemma HeldReachable(c: Config)
    ensures Reachable(c, HeldWorld)
  {
    HoldPending(c, 1);
    var w := Paid.(frames := map[1 := HoldWrite]);
    assert w.frames - {1} == map[];
    Hop(c, w, Advance(1, Smooth), HeldWorld);
  }

  lemma FundingChecked(c: Config)
    ensures Reachable(c, HeldWorld.(claim := Some(1), frames := map[1 := FundChecks]))
  {
    HeldReachable(c);
    var h := HeldWorld.(claim := Some(1));
    Hop(c, HeldWorld, Start(1, Fund, Smooth), h.(frames := map[1 := FundQuery]));
    Hop(c, h.(frames := map[1 := FundQuery]), Advance(1, Smooth), h.(frames := map[1 := FundChecks]));
  }

  lemma FundingPersisted(c: Config)
    ensures Reachable(c, Paid.(rec := PendingRecord(c), claim := Some(1),
                               frames := map[1 := FundDispatch(c.timelockSeconds)]))
  {
    FundingChecked(c);
    var lock := c.timelockSeconds;
    var h := HeldWorld.(claim := Some(1));
    Hop(c, h.(frames := map[1 := FundChecks]), Advance(1, Smooth), h.(frames := map[1 := FundPersist(lock)]));
    Hop(c, h.(frames := map[1 := FundPersist(lock)]), Advance(1, Smooth),
        Paid.(rec := PendingRecord(c), claim := Some(1), frames := map[1 := FundDispatch(lock)]));
  }

  function FundingLocked(c: Config): World {
    Paid.(rec := PendingRecord(c), claim := Some(1), htlc := Locked(c.timelockSeconds), block := 1,
          frames := map[1 := FundCommit(c.timelockSeconds, true)])
  }

  lemma LockedReachable(c: Config)
    ensures Reachable(c, FundingLocked(c))
  {
    FundingPersisted(c);
    hide Reachable, SettleSection, ClaimSection, UnfundedSection, RefundSection, ReconcileSection, StartCall;
    var w := Paid.(rec := PendingRecord(c), claim := Some(1), frames := map[1 := FundDispatch(c.timelockSeconds)]);
    assert w.frames[1 := FundCommit(c.timelockSeconds, true)] == FundingLocked(c).frames;
    Hop(c, w, Advance(1, Smooth), FundingLocked(c));
  }

  lemma FundedReachable(c: Config)
    ensures Reachable(c, FundedWorld(c))
  {
    LockedReachable(c);
    hide Reachable, SettleSection, ClaimSection, UnfundedSection, RefundSection, ReconcileSection, StartCall;
    var w1 := FundingLocked(c);
    var w2 := w1.(reservation := Committed, rec := w1.rec.(reservationStatus := Committed),
                  frames := map[1 := FundRecord(c.timelockSeconds, true)]);
    assert w1.frames[1 := FundRecord(c.timelockSeconds, true)] == w2.frames;
    Hop(c, w1, Advance(1, Smooth), w2);
    assert w2.frames - {1} == map[];
    Hop(c, w2, Advance(1, Smooth), FundedWorld(c));
  }

  function ClaimedWorld(c: Config): World {
    FundedWorld(c).(htlc := Claimed(c.timelockSeconds, ClaimTx(2), 2), block := 3)
  }

  function PaidOutWorld(c: Config): World {
    var w := ClaimedWorld(c);
    w.(ln := Settled, rec := w.rec.(state := DestinationPending, claimTx := Some(ClaimTx(2))))
  }

  lemma PaidOutReachable(c: Config)
    requires c.confirmations.Some? && c.confirmations.value <= 2
    ensures Reachable(c, PaidOutWorld(c))
  {
    FundedReachable(c);
    var w := ClaimedWorld(c);
    Hop(c, FundedWorld(c), ClientClaims, w);
    var tx := ClaimTx(2);
    var f := SettleGate(tx, EvmFunded);
    var w0 := At(w, 1, f);
    Hop(c, w, Start(1, SettleFromClaim(tx), Smooth), w0);
    assert w0.frames == map[1 := f];
    SettlementSteps(c);
  }

  lemma SettlementSteps(c: Config)
    requires c.confirmations.Some? && c.confirmations.value <= 2
    requires Reachable(c, At(ClaimedWorld(c), 1, SettleGate(ClaimTx(2), EvmFunded)))
    ensures Reachable(c, PaidOutWorld(c))
  {
    var w := ClaimedWorld(c);
    var tx := ClaimTx(2);
    DrainReachable(c, At(w, 1, SettleGate(tx, EvmFunded)), 1, 5);
    DrainToMark(c, w, 1, 5);
    PaidOutDrain(c);
    assert PaidOutWorld(c).claim == None;
  }

  lemma PaidOutDrain(c: Config)
    ensures Drain(c, At(ClaimedWorld(c), 1, SettleMark(ClaimTx(2))), 1, 3) == PaidOutWorld(c)
  {
    hide Drain, Step;
    var w := ClaimedWorld(c);
    var tx := ClaimTx(2);
    var m := w.(rec := w.rec.(state := LightningSettlementPending, claimTx := Some(tx)));
    DrainContinue(c, w, 1, SettleMark(tx), m, SettleDispatch, 3);
    var p := m.(ln := Settled);
    DrainContinue(c, m, 1, SettleDispatch, p, SettleRecord, 2);
    DrainFinish(c, p, 1, SettleRecord, PaidOutWorld(c), 1);
  }

  lemma {:induction false} DrainReachable(c: Config, w: World, id: Worker, n: nat)
    requires Reachable(c, w)
    ensures Reachable(c, Drain(c, w, id, n))
    decreases n
  {
    hide Step;
    if n > 0 && id in w.frames {
      ReachableStep(c, w, Advance(id, Smooth));
      DrainReachable(c, Step(c, w, Advance(id, Smooth)), id, n - 1);
    }
  }

  function DeliveredWorld(c: Config): World {
    PaidOutWorld(c).(rec := PaidOutWorld(c).rec.(state := Completed))
  }

  lemma RecoveryUnderWay(c: Config)
    requires c.confirmations.Some? && c.confirmations.value <= 2
    ensures Reachable(c, At(PaidOutWorld(c), 2, ReconcileLightning(DestinationPending)))
  {
    PaidOutReachable(c);
    Hop(c, PaidOutWorld(c), Start(2, Reconcile, Smooth),
        At(PaidOutWorld(c), 2, ReconcileLightning(DestinationPending)));
  }

  lemma DeliveredMeanwhile(c: Config)
    requires c.confirmations.Some? && c.confirmations.value <= 2
    ensures Reachable(c, At(DeliveredWorld(c), 2, ReconcileLightning(DestinationPending)))
  {
    RecoveryUnderWay(c);
    Hop(c, At(PaidOutWorld(c), 2, ReconcileLightning(DestinationPending)), Start(1, ConfirmDelivery, Smooth),
        At(DeliveredWorld(c), 2, ReconcileLightning(DestinationPending)));
  }

  /**
   A recovery whose observation fails escalates past the guard, so a delivery
   confirmed in the meantime by another worker is overwritten.
   */
  lemma CompletedCanBeLeft(c: Config)
    requires c.confirmations.Some? && c.confirmations.value <= 2
    ensures exists w, e :: Reachable(c, w) && w.rec.state == Completed && Step(c, w, e).rec.state == RecoveryRequired
  {
    hide FundSection, SettleSection, ClaimSection, UnfundedSection, RefundSection, AdvanceHold, Reachable;
    DeliveredMeanwhile(c);
    var d := DeliveredWorld(c);
    FailedLightningObservation(c, d);
    FailedBaseObservation(c, d);
    var w2 := At(d, 2, ReconcileDecide(DestinationPending, LnUnknown, EvmUnknown));
    assert Step(c, w2, Advance(2, Smooth)).rec.state == RecoveryRequired;
  }

  lemma FailedLightningObservation(c: Config, d: World)
    requires Reachable(c, At(d, 2, ReconcileLightning(DestinationPending)))
    ensures Reachable(c, At(d, 2, ReconcileEvm(DestinationPending, LnUnknown)))
  {
    var w1 := At(d, 2, ReconcileLightning(DestinationPending));
    var w2 := At(d, 2, ReconcileEvm(DestinationPending, LnUnknown));
    assert w1.frames[2 := w2.frames[2]] == w2.frames;
    Hop(c, w1, Advance(2, NoReply), w2);
  }

  lemma FailedBaseObservation(c: Config, d: World)
    requires Reachable(c, At(d, 2, ReconcileEvm(DestinationPending, LnUnknown)))
    ensures Reachable(c, At(d, 2, ReconcileDecide(DestinationPending, LnUnknown, EvmUnknown)))
  {
    var w2 := At(d, 2, ReconcileEvm(DestinationPending, LnUnknown));
    var w3 := At(d, 2, ReconcileDecide(DestinationPending, LnUnknown, EvmUnknown));
    assert w2.frames[2 := w3.frames[2]] == w3.frames;
    Hop(c, w2, Advance(2, NoReply), w3);
  }
}
