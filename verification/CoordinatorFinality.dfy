/**
 Which terminal records are final. REFUNDED and INVOICE_CANCELED are, for any
 number of workers; EXPIRED and COMPLETED are left in exactly the steps, and can
 be left from exactly the states, that are named here.
 */
module CoordinatorFinality {
  import opened Wrappers
  import opened SwapTypes
  import opened Rails
  import opened CoordinatorSteps
  import opened CoordinatorSafety
  import opened CoordinatorTheorems

  // ------------------------------------------------- what guards a guarded state

  /** A guarded state survives a section, unless a reconciliation escalates past the guard. */
  predicate GuardedResult(w: World, s: Section, f: Frame) {
    s.world.rec.state == w.rec.state
    || (s.world.rec.state == RecoveryRequired && s.world.rec.recoveryRequired && IsReconcile(f))
  }

  lemma GuardedSection(c: Config, w: World, f: Frame, choice: Choice)
    requires GuardedState(w.rec.state) && Holding(f)
    requires f.RefundRestore? ==> w.reservation != ReservationSettled
    ensures GuardedResult(w, ClaimedSection(c, w, f, choice), f)
  {
    hide FundSection, SettleSection, ClaimSection, UnfundedSection, RefundSection, ReconcileSection, GuardedResult;
    if IsReconcile(f) { GuardedReconcile(c, w, f, choice); }
    else if IsRefund(f) { GuardedRefund(c, w, f, choice); }
    else { GuardedOther(c, w, f, choice); }
  }

  lemma GuardedOther(c: Config, w: World, f: Frame, choice: Choice)
    requires GuardedState(w.rec.state) && Holding(f) && !IsRefund(f) && !IsReconcile(f)
    ensures GuardedResult(w, ClaimedSection(c, w, f, choice), f)
  {
    hide RefundSection, ReconcileSection;
  }

  lemma GuardedRefund(c: Config, w: World, f: Frame, choice: Choice)
    requires GuardedState(w.rec.state) && IsRefund(f)
    requires f.RefundRestore? ==> w.reservation != ReservationSettled
    ensures GuardedResult(w, RefundSection(c, w, f, choice), f)
  {
  }

  lemma GuardedReconcile(c: Config, w: World, f: Frame, choice: Choice)
    requires GuardedState(w.rec.state) && IsReconcile(f)
    ensures GuardedResult(w, ReconcileSection(c, w, f, choice), f)
  {
    if f.ReconcileDecide? {
      hide DecideAbsent, DecideClaimed, DecideLocked, DecideRefunded, DecideSettled;
      if f.ln.LnUnknown? || f.evm.EvmUnknown? {
      } else if f.ln == LnFound(Settled) {
        GuardedSettled(w, f, f.evm.htlc);
      } else {
        match f.evm.htlc {
          case Claimed(_, _, _) => GuardedClaimed(c, w, f, f.ln);
          case Refunded(_, _, _) => GuardedRefunded(c, w, f, f.ln);
          case Locked(lock) => GuardedLocked(c, w, f, f.ln, lock, f.evm.timestamp);
          case Empty => GuardedAbsent(c, w, f, f.ln, if choice.live then w.rec.state else f.seen, choice);
        }
      }
    }
  }

  lemma GuardedSettled(w: World, f: Frame, h: Htlc)
    requires GuardedState(w.rec.state) && IsReconcile(f)
    ensures GuardedResult(w, DecideSettled(w, h), f)
  {
  }

  lemma GuardedClaimed(c: Config, w: World, f: Frame, ln: LnObservation)
    requires GuardedState(w.rec.state) && IsReconcile(f)
    ensures GuardedResult(w, DecideClaimed(c, w, ln), f)
  {
  }

  lemma GuardedRefunded(c: Config, w: World, f: Frame, ln: LnObservation)
    requires GuardedState(w.rec.state) && IsReconcile(f)
    ensures GuardedResult(w, DecideRefunded(c, w, ln), f)
  {
  }

  lemma GuardedLocked(c: Config, w: World, f: Frame, ln: LnObservation, lock: int, timestamp: int)
    requires GuardedState(w.rec.state) && IsReconcile(f)
    ensures GuardedResult(w, DecideLocked(c, w, ln, lock, timestamp), f)
  {
  }

  lemma GuardedAbsent(c: Config, w: World, f: Frame, ln: LnObservation, view: SwapState, choice: Choice)
    requires GuardedState(w.rec.state) && IsReconcile(f)
    ensures GuardedResult(w, DecideAbsent(c, w, ln, view, choice), f)
  {
  }

  // ------------------------------------------------------ the additional invariant

  /** Terminal states that free the payer; no section of a claimed method goes on in them. */
  predicate Closing(s: SwapState) { s == SwapRefunded || s == InvoiceCanceled || s == Expired }

  /** The one claimed method that still starts in a closing state, and stops at its first gate. */
  predicate Doomed(f: Frame) { f.SettleGate? && Closing(f.seen) }

  /** Lightning is read before Base, so a settled invoice has been seen with its HTLC claimed. */
  predicate SeesInOrder(f: Frame) {
    f.ReconcileDecide? && f.ln == LnFound(Settled) && f.evm.EvmSeen? ==> f.evm.htlc.Claimed?
  }

  predicate FramesFinal(w: World) {
    forall id :: id in w.frames ==>
      SeesInOrder(w.frames[id]) && (Closing(w.rec.state) && Holding(w.frames[id]) ==> Doomed(w.frames[id]))
  }

  lemma OtherSectionSees(c: Config, w: World, f: Frame, choice: Choice)
    requires Holding(f) && !IsReconcile(f)
    ensures ClaimedSection(c, w, f, choice).Continue? ==> !ClaimedSection(c, w, f, choice).frame.ReconcileDecide?
  {
  }

  lemma ReconcileSees(c: Config, w: World, f: Frame, choice: Choice)
    requires IsReconcile(f) && !f.ReconcileDecide? && FrameAgrees(f, w) && RailsAgree(w.ln, w.htlc)
    ensures ReconcileSection(c, w, f, choice).Continue? ==> SeesInOrder(ReconcileSection(c, w, f, choice).frame)
  {
  }

  lemma DecideSees(c: Config, w: World, f: Frame, choice: Choice)
    requires f.ReconcileDecide?
    ensures var s := Decide(c, w, f.seen, f.ln, f.evm, choice); s.Continue? ==> !s.frame.ReconcileDecide?
  {
    hide Decide;
    DecideShape(c, w, f.seen, f.ln, f.evm, choice);
  }

  lemma SectionSees(c: Config, w: World, f: Frame, choice: Choice)
    requires Holding(f) && FrameAgrees(f, w) && RailsAgree(w.ln, w.htlc)
    ensures ClaimedSection(c, w, f, choice).Continue? ==> SeesInOrder(ClaimedSection(c, w, f, choice).frame)
  {
    hide FundSection, SettleSection, ClaimSection, UnfundedSection, RefundSection, Decide;
    if f.ReconcileDecide? { DecideSees(c, w, f, choice); }
    else if IsReconcile(f) { ReconcileSees(c, w, f, choice); }
    else { OtherSectionSees(c, w, f, choice); }
  }

  /** A section that goes on has not entered a closing state. */
  lemma SectionCloses(c: Config, w: World, f: Frame, choice: Choice)
    requires Inv(c, w) && Holding(f) && FrameAgrees(f, w)
    requires Closing(w.rec.state) ==> Doomed(f)
    ensures var s := ClaimedSection(c, w, f, choice); s.Continue? ==> !Closing(s.world.rec.state)
  {
    if Closing(w.rec.state) {
      hide FundSection, ClaimSection, UnfundedSection, RefundSection, ReconcileSection;
    } else {
      hide ClaimedSection, StateAgrees, RailsAgree;
      SectionTame(c, w, f, choice);
      if w.rec.state == Completed { CompletedSection(c, w, f, choice); }
    }
  }

  lemma CompletedSection(c: Config, w: World, f: Frame, choice: Choice)
    requires Inv(c, w) && Holding(f) && FrameAgrees(f, w) && w.rec.state == Completed
    ensures GuardedResult(w, ClaimedSection(c, w, f, choice), f)
  {
    hide ClaimedSection;
    GuardedSection(c, w, f, choice);
  }

  lemma AdvanceKeepsFinal(c: Config, w: World, id: Worker, choice: Choice)
    requires Inv(c, w) && FramesFinal(w) && id in w.frames && Holding(w.frames[id])
    ensures FramesFinal(Step(c, w, Advance(id, choice)))
  {
    hide ClaimedSection, StateAgrees, RailsAgree, FrameAgrees, ReservationAgrees, CountersAgree;
    var f := w.frames[id];
    SectionSees(c, w, f, choice);
    SectionCloses(c, w, f, choice);
    SectionTame(c, w, f, choice);
  }

  lemma StartKeepsFinal(c: Config, w: World, id: Worker, call: Call, choice: Choice)
    requires Inv(c, w) && FramesFinal(w)
    ensures FramesFinal(Step(c, w, Start(id, call, choice)))
  {
    hide ClaimedSection, StateAgrees, RailsAgree, FrameAgrees, ReservationAgrees, CountersAgree;
  }

  lemma HoldKeepsFinal(c: Config, w: World, id: Worker, choice: Choice)
    requires FramesFinal(w) && id in w.frames && !Holding(w.frames[id])
    ensures FramesFinal(Step(c, w, Advance(id, choice)))
  {
    hide ClaimedSection;
  }

  lemma StepKeepsFinal(c: Config, w: World, e: Event)
    requires Inv(c, w) && FramesFinal(w)
    ensures FramesFinal(Step(c, w, e))
  {
    match e {
      case Start(id, call, choice) => StartKeepsFinal(c, w, id, call, choice);
      case Advance(id, choice) =>
        if id in w.frames {
          if Holding(w.frames[id]) {
            AdvanceKeepsFinal(c, w, id, choice);
          } else {
            HoldKeepsFinal(c, w, id, choice);
          }
        }
      case _ =>
    }
  }

  lemma {:induction false} RunKeepsFinal(c: Config, w: World, events: seq<Event>)
    requires Inv(c, w) && FramesFinal(w)
    ensures Inv(c, Run(c, w, events)) && FramesFinal(Run(c, w, events))
    decreases |events|
  {
    hide Step, Inv, FramesFinal;
    if events != [] {
      StepKeepsInv(c, w, events[0]);
      StepKeepsFinal(c, w, events[0]);
      RunKeepsFinal(c, Step(c, w, events[0]), events[1..]);
    }
  }

  lemma ReachableFinal(c: Config, w: World)
    requires Reachable(c, w)
    ensures Inv(c, w) && FramesFinal(w)
  {
    hide Step, Inv;
    var w0 :| Init(w0) && Reaches(c, w0, w);
    var events: seq<Event> :| Run(c, w0, events) == w;
    InitInv(c, w0);
    RunKeepsFinal(c, w0, events);
  }

  // ----------------------------------------------------- refunded and canceled

  predicate SameBook(w: World, w': World) { w'.rec == w.rec && w'.reservation == w.reservation }

  /** In a closing state nothing but a pending hold write touches the row, and nothing the reservation. */
  lemma ClosingStep(c: Config, w: World, e: Event)
    requires FramesFinal(w) && Closing(w.rec.state)
    requires w.rec.state == Expired ==> !(e.Advance? && e.worker in w.frames && w.frames[e.worker].HoldWrite?)
    ensures SameBook(w, Step(c, w, e))
  {
    match e {
      case Advance(id, choice) =>
        hide FundSection, ClaimSection, UnfundedSection, RefundSection, ReconcileSection;
      case Start(_, _, _) =>
        hide ClaimedSection;
      case _ =>
    }
  }

  lemma {:induction false} ClosedForGood(c: Config, w: World, after: seq<Event>)
    requires Inv(c, w) && FramesFinal(w) && (w.rec.state == SwapRefunded || w.rec.state == InvoiceCanceled)
    ensures SameBook(w, Run(c, w, after))
    decreases |after|
  {
    hide Step, Inv, FramesFinal;
    if after != [] {
      ClosingStep(c, w, after[0]);
      StepKeepsInv(c, w, after[0]);
      StepKeepsFinal(c, w, after[0]);
      ClosedForGood(c, Step(c, w, after[0]), after[1..]);
    }
  }

  /** With any number of workers, nothing ever changes a record that says REFUNDED or INVOICE_CANCELED. */
  lemma RefundedAndCanceledAreFinal(c: Config, w0: World, before: seq<Event>, after: seq<Event>)
    requires Init(w0)
    requires var s := Run(c, w0, before).rec.state; s == SwapRefunded || s == InvoiceCanceled
    ensures Run(c, w0, before + after).rec == Run(c, w0, before).rec
    ensures Run(c, w0, before + after).reservation == Run(c, w0, before).reservation
  {
    hide Step, Inv;
    InitInv(c, w0);
    RunKeepsFinal(c, w0, before);
    RunAppend(c, w0, before, after);
    ClosedForGood(c, Run(c, w0, before), after);
  }

  // ------------------------------------------------------------------- expired

  predicate HoldUnderWay(w: World) {
    exists id :: id in w.frames && (w.frames[id].HoldObserve? || w.frames[id].HoldWrite?)
  }

  /** The only step that leaves EXPIRED is the write of a hold detection; it changes nothing but the state. */
  lemma ExpiredLeftExactly(c: Config, w: World, e: Event)
    requires Reachable(c, w) && w.rec.state == Expired
    ensures Step(c, w, e).rec.state != Expired <==>
            e.Advance? && e.worker in w.frames && w.frames[e.worker].HoldWrite?
    ensures Step(c, w, e).reservation == w.reservation
    ensures Step(c, w, e).rec == w.rec || Step(c, w, e).rec == w.rec.(state := LightningHeld)
  {
    hide Reachable;
    ReachableFinal(c, w);
    if e.Advance? && e.worker in w.frames && w.frames[e.worker].HoldWrite? {
    } else {
      ClosingStep(c, w, e);
    }
  }

  lemma RunOne(c: Config, w: World, e: Event)
    ensures Run(c, w, [e]) == Step(c, w, e)
  {
    hide Step;
    assert Run(c, w, [e]) == Run(c, Step(c, w, e), []);
  }

  lemma RunTwo(c: Config, w: World, e: Event, e': Event)
    ensures Run(c, w, [e, e']) == Step(c, Step(c, w, e), e')
  {
    hide Step;
    RunOne(c, Step(c, w, e), e');
    assert [e, e'][1..] == [e'];
  }

  lemma StepWithoutHold(c: Config, w: World, e: Event)
    requires Inv(c, w) && FramesFinal(w) && w.rec.state == Expired && !HoldUnderWay(w)
    ensures Step(c, w, e).rec.state == Expired && !HoldUnderWay(Step(c, w, e))
  {
    ClosingStep(c, w, e);
    match e {
      case Advance(id, choice) =>
        hide FundSection, ClaimSection, UnfundedSection, RefundSection, ReconcileSection;
      case Start(_, _, _) =>
        hide ClaimedSection;
      case _ =>
    }
  }

  lemma {:induction false} ExpiredForGood(c: Config, w: World, after: seq<Event>)
    requires Inv(c, w) && FramesFinal(w) && w.rec.state == Expired && !HoldUnderWay(w)
    ensures Run(c, w, after).rec.state == Expired
    decreases |after|
  {
    hide Step, Inv, FramesFinal, HoldUnderWay;
    if after != [] {
      StepWithoutHold(c, w, after[0]);
      StepKeepsInv(c, w, after[0]);
      StepKeepsFinal(c, w, after[0]);
      ExpiredForGood(c, Step(c, w, after[0]), after[1..]);
    }
  }

  lemma HoldEndsExpired(c: Config, w: World, id: Worker, choice: Choice)
    requires w.rec.state == Expired && id in w.frames && (w.frames[id].HoldObserve? || w.frames[id].HoldWrite?)
    ensures exists after: seq<Event> :: Run(c, w, after).rec.state != Expired
  {
    var e := Advance(id, choice);
    if w.frames[id].HoldWrite? {
      RunOne(c, w, e);
      assert Run(c, w, [e]).rec.state == LightningHeld;
    } else {
      RunTwo(c, w, e, e);
      assert Run(c, w, [e, e]).rec.state == LightningHeld;
    }
  }

  /** An EXPIRED record stays so through everything that may follow if and only if no held payment was already seen. */
  lemma ExpiredIsFinalExactly(c: Config, w: World)
    requires Reachable(c, w) && w.rec.state == Expired
    ensures (forall after: seq<Event> :: Run(c, w, after).rec.state == Expired) <==> !HoldUnderWay(w)
  {
    hide Step, Reachable, Inv, FramesFinal;
    ReachableFinal(c, w);
    if HoldUnderWay(w) {
      var id :| id in w.frames && (w.frames[id].HoldObserve? || w.frames[id].HoldWrite?);
      HoldEndsExpired(c, w, id, Choice(NoFault, true, true));
    } else {
      forall after: seq<Event> ensures Run(c, w, after).rec.state == Expired { ExpiredForGood(c, w, after); }
    }
  }

  // ----------------------------------------------------------------- completed

  /** A reconciliation one of whose observations has failed, or may still fail. */
  predicate ObservationFailed(f: Frame) { f.ReconcileDecide? && (f.ln.LnUnknown? || f.evm.EvmUnknown?) }

  predicate MayEscalate(f: Frame) { f.ReconcileLightning? || f.ReconcileEvm? || ObservationFailed(f) }

  lemma CompletedDecision(c: Config, w: World, f: Frame, choice: Choice)
    requires Inv(c, w) && w.rec.state == Completed
    requires f.ReconcileDecide? && FrameAgrees(f, w) && SeesInOrder(f)
    ensures Decide(c, w, f.seen, f.ln, f.evm, choice).world.rec.state != Completed <==> ObservationFailed(f)
  {
    hide DecideAbsent, DecideClaimed, DecideLocked, DecideRefunded;
    assert w.ln == Settled;
  }

  lemma CompletedAdvance(c: Config, w: World, id: Worker, choice: Choice)
    requires Inv(c, w) && FramesFinal(w) && w.rec.state == Completed && id in w.frames && Holding(w.frames[id])
    ensures Step(c, w, Advance(id, choice)).rec.state != Completed <==> ObservationFailed(w.frames[id])
  {
    var f := w.frames[id];
    assert FrameAgrees(f, w);
    hide FundSection, SettleSection, ClaimSection, UnfundedSection, RefundSection, Decide;
    CompletedSection(c, w, f, choice);
    if f.ReconcileDecide? { CompletedDecision(c, w, f, choice); }
  }

  /** The only step that leaves COMPLETED is a reconciliation deciding on an observation that failed. */
  lemma CompletedLeftExactly(c: Config, w: World, e: Event)
    requires Reachable(c, w) && w.rec.state == Completed
    ensures Step(c, w, e).rec.state != Completed <==>
            e.Advance? && e.worker in w.frames && ObservationFailed(w.frames[e.worker])
  {
    hide Reachable;
    ReachableFinal(c, w);
    if e.Advance? && e.worker in w.frames && Holding(w.frames[e.worker]) {
      hide Step;
      CompletedAdvance(c, w, e.worker, e.choice);
    } else {
      hide ClaimedSection, FrameAgrees, StateAgrees, RailsAgree;
    }
  }

  predicate RecoveryMayEscalate(w: World) { exists id :: id in w.frames && MayEscalate(w.frames[id]) }

  lemma OtherSectionIsCalm(c: Config, w: World, f: Frame, choice: Choice)
    requires Holding(f) && !IsReconcile(f)
    ensures var s := ClaimedSection(c, w, f, choice); s.Continue? ==> !MayEscalate(s.frame)
  {
  }

  lemma DecisionIsCalm(c: Config, w: World, f: Frame, choice: Choice)
    requires f.ReconcileDecide?
    ensures var s := Decide(c, w, f.seen, f.ln, f.evm, choice); s.Continue? ==> !MayEscalate(s.frame)
  {
    hide Decide;
    DecideShape(c, w, f.seen, f.ln, f.evm, choice);
  }

  lemma CalmAdvance(c: Config, w: World, id: Worker, choice: Choice)
    requires !RecoveryMayEscalate(w) && id in w.frames && Holding(w.frames[id])
    ensures !RecoveryMayEscalate(Step(c, w, Advance(id, choice)))
  {
    var f := w.frames[id];
    hide FundSection, SettleSection, ClaimSection, UnfundedSection, RefundSection, Decide;
    SectionTame(c, w, f, choice);
    if f.ReconcileDecide? { DecisionIsCalm(c, w, f, choice); }
    else if !IsReconcile(f) { OtherSectionIsCalm(c, w, f, choice); }
  }

  lemma CalmStep(c: Config, w: World, e: Event)
    requires w.rec.state == Completed && !RecoveryMayEscalate(w)
    ensures !RecoveryMayEscalate(Step(c, w, e))
  {
    if e.Advance? && e.worker in w.frames && Holding(w.frames[e.worker]) {
      CalmAdvance(c, w, e.worker, e.choice);
    } else {
      hide ClaimedSection;
    }
  }

  lemma {:induction false} CompletedForGood(c: Config, w: World, after: seq<Event>)
    requires Reachable(c, w) && w.rec.state == Completed && !RecoveryMayEscalate(w)
    ensures Run(c, w, after).rec.state == Completed
    decreases |after|
  {
    hide Step, Reachable;
    if after != [] {
      CompletedLeftExactly(c, w, after[0]);
      CalmStep(c, w, after[0]);
      ReachableStep(c, w, after[0]);
      CompletedForGood(c, Step(c, w, after[0]), after[1..]);
    }
  }

  const Silent := Choice(NoEffect, true, true)

  /** A pending observation that gets no answer leads to a failed one. */
  lemma SilenceFails(c: Config, w: World, id: Worker)
    requires id in w.frames && (w.frames[id].ReconcileLightning? || w.frames[id].ReconcileEvm?)
    ensures var w' := Step(c, w, Advance(id, Silent));
      id in w'.frames && w'.rec == w.rec && MayEscalate(w'.frames[id])
      && (w.frames[id].ReconcileEvm? ==> ObservationFailed(w'.frames[id]))
  {
  }

  lemma EscalationEndsCompleted(c: Config, w: World, id: Worker)
    requires w.rec.state == Completed && id in w.frames && MayEscalate(w.frames[id])
    ensures exists after: seq<Event> :: Run(c, w, after).rec.state != Completed
    decreases if w.frames[id].ReconcileLightning? then 2 else if w.frames[id].ReconcileEvm? then 1 else 0
  {
    hide Run;
    var e := Advance(id, Silent);
    RunOne(c, w, e);
    if ObservationFailed(w.frames[id]) {
      assert Run(c, w, [e]).rec.state == RecoveryRequired;
    } else {
      hide Step;
      SilenceFails(c, w, id);
      var w' := Step(c, w, e);
      EscalationEndsCompleted(c, w', id);
      var after: seq<Event> :| Run(c, w', after).rec.state != Completed;
      RunAppend(c, w, [e], after);
      assert Run(c, w, [e] + after).rec.state != Completed;
    }
  }

  /** COMPLETED holds through everything that may follow if and only if no reconciliation has an answer to lose. */
  lemma CompletedIsFinalExactly(c: Config, w: World)
    requires Reachable(c, w) && w.rec.state == Completed
    ensures (forall after: seq<Event> :: Run(c, w, after).rec.state == Completed) <==> !RecoveryMayEscalate(w)
  {
    hide Step, Reachable;
    if RecoveryMayEscalate(w) {
      var id :| id in w.frames && MayEscalate(w.frames[id]);
      EscalationEndsCompleted(c, w, id);
    } else {
      forall after: seq<Event> ensures Run(c, w, after).rec.state == Completed { CompletedForGood(c, w, after); }
    }
  }
}
