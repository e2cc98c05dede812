/**
 The cross-rail claims over whole runs: any number of workers, any faults, any
 moves of the payer, the client and the clock.
 */
module CoordinatorTheorems {
  import opened Wrappers
  import opened SwapTypes
  import opened Rails
  import opened CoordinatorSteps
  import opened CoordinatorSafety

  ghost predicate Reaches(c: Config, w0: World, w: World) {
    exists events: seq<Event> :: Run(c, w0, events) == w
  }

  ghost predicate Reachable(c: Config, w: World) {
    exists w0 :: Init(w0) && Reaches(c, w0, w)
  }

  lemma {:induction false} RunAppend(c: Config, w: World, xs: seq<Event>, ys: seq<Event>)
    ensures Run(c, w, xs + ys) == Run(c, Run(c, w, xs), ys)
    decreases |xs|
  {
    if xs == [] {
      assert xs + ys == ys;
    } else {
      assert (xs + ys)[1..] == xs[1..] + ys;
      RunAppend(c, Step(c, w, xs[0]), xs[1..], ys);
    }
  }

  lemma ReachableStep(c: Config, w: World, e: Event)
    requires Reachable(c, w)
    ensures Reachable(c, Step(c, w, e))
  {
    var w0 :| Init(w0) && Reaches(c, w0, w);
    var events: seq<Event> :| Run(c, w0, events) == w;
    RunAppend(c, w0, events, [e]);
    assert Run(c, w, [e]) == Run(c, Step(c, w, e), []);
    assert Run(c, w0, events + [e]) == Step(c, w, e);
  }

  lemma ReachableInv(c: Config, w: World)
    requires Reachable(c, w)
    ensures Inv(c, w)
  {
    var w0 :| Init(w0) && Reaches(c, w0, w);
    var events: seq<Event> :| Run(c, w0, events) == w;
    InitInv(c, w0);
    RunKeepsInv(c, w0, events);
  }

  // --------------------------------------------------------- cross-rail atomicity

  /** Lightning settles only against a claimed HTLC and is canceled only against a refunded or empty one. */
  lemma CrossRailAtomicity(c: Config, w0: World, events: seq<Event>)
    requires Init(w0)
    ensures var w := Run(c, w0, events);
            && (w.ln == Settled ==> w.htlc.Claimed?)
            && (w.ln == Canceled ==> w.htlc.Refunded? || w.htlc == Empty)
            && (w.htlc.Locked? ==> w.ln == Accepted)
            && !(w.htlc.Claimed? && (w.ln == Canceled || w.ln == Absent))
            && !(w.htlc.Refunded? && w.ln == Settled)
  {
    InitInv(c, w0);
    RunKeepsInv(c, w0, events);
  }

  predicate LightningMove(a: Lightning, b: Lightning) {
    a == b || (a == Open && (b == Accepted || b == Canceled)) || (a == Accepted && (b == Settled || b == Canceled))
  }

  predicate HtlcMove(a: Htlc, b: Htlc) {
    || a == b
    || (a == Empty && b.Locked?)
    || (a.Locked? && (b.Claimed? || b.Refunded?) && b.lock == a.lock)
  }

  predicate RailMoves(w: World, w': World) {
    LightningMove(w.ln, w'.ln) && HtlcMove(w.htlc, w'.htlc)
  }

  /**
   What every section shares: it leaves the suspended workers alone, moves the
   rails forward, and is the last one of its method if it writes a terminal state.
   */
  predicate Tame(w: World, s: Section) {
    && s.world.frames == w.frames
    && RailMoves(w, s.world)
    && (!Terminal(w.rec.state) && s.Continue? ==> !Terminal(s.world.rec.state))
  }

  lemma FundTame(c: Config, w: World, f: Frame, choice: Choice)
    requires IsFund(f)
    ensures Tame(w, FundSection(c, w, f, choice))
  {
  }

  lemma SettleTame(c: Config, w: World, f: Frame, choice: Choice)
    requires IsSettle(f)
    ensures Tame(w, SettleSection(c, w, f, choice))
  {
  }

  lemma ClaimTame(c: Config, w: World, f: Frame, choice: Choice)
    requires IsClaim(f)
    ensures Tame(w, ClaimSection(c, w, f, choice))
  {
  }

  lemma UnfundedTame(w: World, f: Frame, choice: Choice)
    requires IsUnfunded(f)
    ensures Tame(w, UnfundedSection(w, f, choice))
  {
  }

  lemma RefundTame(c: Config, w: World, f: Frame, choice: Choice)
    requires IsRefund(f)
    ensures Tame(w, RefundSection(c, w, f, choice))
  {
  }

  /** Where a decision hands over: to a method it calls, or to its own cancellation. */
  predicate HandsOverTo(f: Frame) {
    || f.FundQuery? || f.SettleGate? || f.ExpireCancel? || f.HeldObserve? || f.RefundObserve? || f.ReconcileCancel?
  }

  /** A decision itself touches neither rail, nor the clock, nor any worker. */
  predicate Decision(c: Config, w: World, s: Section) {
    && s.world == w.(rec := s.world.rec, reservation := s.world.reservation)
    && (!Terminal(w.rec.state) && s.Continue? ==> !Terminal(s.world.rec.state))
    && (s.Continue? ==> HandsOverTo(s.frame) && (s.frame.RefundObserve? ==> c.confirmations.Some?))
  }

  lemma DecideShape(c: Config, w: World, seen: SwapState, ln: LnObservation, evm: EvmObservation, choice: Choice)
    ensures Decision(c, w, Decide(c, w, seen, ln, evm, choice))
  {
    hide DecideAbsent, DecideClaimed, DecideLocked, DecideRefunded, DecideSettled, Decision;
    if ln.LnUnknown? || evm.EvmUnknown? {
      EscalateShape(c, w);
    } else if ln == LnFound(Settled) {
      SettledShape(c, w, evm.htlc);
    } else {
      match evm.htlc {
        case Claimed(_, _, _) => ClaimedShape(c, w, ln);
        case Refunded(_, _, _) => RefundedShape(c, w, ln);
        case Locked(lock) => LockedShape(c, w, ln, lock, evm.timestamp);
        case Empty => AbsentShape(c, w, ln, if choice.live then w.rec.state else seen, choice);
      }
    }
  }

  lemma EscalateShape(c: Config, w: World)
    ensures Decision(c, w, Escalate(w))
  {
  }

  lemma SettledShape(c: Config, w: World, h: Htlc)
    ensures Decision(c, w, DecideSettled(w, h))
  {
  }

  lemma ClaimedShape(c: Config, w: World, ln: LnObservation)
    ensures Decision(c, w, DecideClaimed(c, w, ln))
  {
  }

  lemma RefundedShape(c: Config, w: World, ln: LnObservation)
    ensures Decision(c, w, DecideRefunded(c, w, ln))
  {
  }

  lemma LockedShape(c: Config, w: World, ln: LnObservation, lock: int, timestamp: int)
    ensures Decision(c, w, DecideLocked(c, w, ln, lock, timestamp))
  {
  }

  lemma AbsentShape(c: Config, w: World, ln: LnObservation, view: SwapState, choice: Choice)
    ensures Decision(c, w, DecideAbsent(c, w, ln, view, choice))
  {
  }

  lemma DecideTame(c: Config, w: World, seen: SwapState, ln: LnObservation, evm: EvmObservation, choice: Choice)
    ensures Tame(w, Decide(c, w, seen, ln, evm, choice))
  {
    hide Decide;
    DecideShape(c, w, seen, ln, evm, choice);
  }

  lemma ReconcileTame(c: Config, w: World, f: Frame, choice: Choice)
    requires IsReconcile(f) && !f.ReconcileDecide?
    ensures Tame(w, ReconcileSection(c, w, f, choice))
  {
  }

  lemma SectionTame(c: Config, w: World, f: Frame, choice: Choice)
    requires Holding(f)
    ensures Tame(w, ClaimedSection(c, w, f, choice))
  {
    if IsFund(f) { FundTame(c, w, f, choice); }
    else if IsSettle(f) { SettleTame(c, w, f, choice); }
    else if IsClaim(f) { ClaimTame(c, w, f, choice); }
    else if IsUnfunded(f) { UnfundedTame(w, f, choice); }
    else if IsRefund(f) { RefundTame(c, w, f, choice); }
    else if f.ReconcileDecide? { DecideTame(c, w, f.seen, f.ln, f.evm, choice); }
    else { ReconcileTame(c, w, f, choice); }
  }

  /** Neither rail ever goes back: claimed, refunded, settled and canceled are final. */
  lemma RailsNeverGoBack(c: Config, w: World, e: Event)
    ensures RailMoves(w, Step(c, w, e))
  {
    match e {
      case Advance(id, choice) =>
        if id in w.frames && Holding(w.frames[id]) { SectionTame(c, w, w.frames[id], choice); }
      case _ =>
    }
  }

  lemma {:induction false} CanceledStaysUnfunded(c: Config, w: World, after: seq<Event>)
    requires Inv(c, w) && Closed(w.ln) && w.htlc == Empty
    ensures Run(c, w, after).htlc == Empty && Run(c, w, after).ln == w.ln
    decreases |after|
  {
    if after != [] {
      var w1 := Step(c, w, after[0]);
      StepKeepsInv(c, w, after[0]);
      RailsNeverGoBack(c, w, after[0]);
      CanceledStaysUnfunded(c, w1, after[1..]);
    }
  }

  /** An invoice that is canceled or absent while Base is empty is never funded later, whatever happens next. */
  lemma CanceledIsNeverFundedLater(c: Config, w0: World, before: seq<Event>, after: seq<Event>)
    requires Init(w0)
    requires Closed(Run(c, w0, before).ln) && Run(c, w0, before).htlc == Empty
    ensures Run(c, w0, before + after).htlc == Empty
  {
    InitInv(c, w0);
    RunKeepsInv(c, w0, before);
    RunAppend(c, w0, before, after);
    CanceledStaysUnfunded(c, Run(c, w0, before), after);
  }

  /** Base is funded for the first time only while the reservation is held, which liquidity accounting relies on. */
  lemma FundingStartsWhileReserved(c: Config, w: World, id: Worker)
    requires Reachable(c, w) && id in w.frames && w.frames[id].FundDispatch? && w.htlc == Empty
    ensures w.reservation == Reserved && w.rec.reservationStatus == Reserved && w.ln == Accepted
  {
    ReachableInv(c, w);
    assert FrameAgrees(w.frames[id], w);
  }

  // ------------------------------------------------------------ terminal records

  /** A terminal record tells the truth about both rails and the reservation table. */
  lemma TerminalRecordsAgree(c: Config, w0: World, events: seq<Event>)
    requires Init(w0)
    ensures var w := Run(c, w0, events);
            && w.rec.reservationStatus == w.reservation
            && (w.rec.state == Completed ==>
                  w.ln == Settled && w.htlc.Claimed?
                  && (w.reservation == Committed || w.reservation == ReservationSettled))
            && (w.rec.state == SwapRefunded ==> w.htlc.Refunded? && w.ln == Canceled && w.reservation == Released)
            && (w.rec.state == InvoiceCanceled || w.rec.state == Expired ==>
                  w.htlc == Empty && Closed(w.ln) && w.reservation == Released)
  {
    InitInv(c, w0);
    RunKeepsInv(c, w0, events);
  }

  // ---------------------------------------------------- one worker: terminal is final

  predicate OnlyWorker(e: Event, id: Worker) {
    match e
    case Start(j, _, _) => j == id
    case Advance(j, _) => j == id
    case Crash(j) => j == id
    case _ => true
  }

  predicate OnlyWorkers(events: seq<Event>, id: Worker) {
    forall i :: 0 <= i < |events| ==> OnlyWorker(events[i], id)
  }

  /** The only method a single worker can be inside of once the record is terminal is a doomed settlement. */
  predicate Alone(w: World, id: Worker) {
    && (forall j :: j in w.frames ==> j == id)
    && (Terminal(w.rec.state) && id in w.frames ==>
          w.frames[id].SettleGate? && Terminal(w.frames[id].seen))
  }

  lemma AloneStep(c: Config, w: World, e: Event, id: Worker)
    requires Alone(w, id) && OnlyWorker(e, id)
    ensures Alone(Step(c, w, e), id)
    ensures Terminal(w.rec.state) ==> Step(c, w, e).rec == w.rec && Step(c, w, e).reservation == w.reservation
  {
    match e {
      case Advance(_, choice) =>
        hide FundSection, ClaimSection, UnfundedSection, RefundSection, ReconcileSection;
        if id in w.frames && Holding(w.frames[id]) { SectionTame(c, w, w.frames[id], choice); }
      case Start(_, call, choice) =>
        hide ClaimedSection;
      case _ =>
    }
  }

  lemma {:induction false} AloneRun(c: Config, w: World, events: seq<Event>, id: Worker)
    requires Alone(w, id) && OnlyWorkers(events, id)
    ensures Alone(Run(c, w, events), id)
    ensures Terminal(w.rec.state) ==>
      Run(c, w, events).rec == w.rec && Run(c, w, events).reservation == w.reservation
    decreases |events|
  {
    if events != [] {
      AloneStep(c, w, events[0], id);
      AloneRun(c, Step(c, w, events[0]), events[1..], id);
    }
  }

  /**
   With one worker no later coordinator call, fault or crash changes a terminal
   record, COMPLETED and EXPIRED included.
   */
  lemma TerminalIsFinalForOneWorker(c: Config, w0: World, before: seq<Event>, after: seq<Event>, id: Worker)
    requires Init(w0) && OnlyWorkers(before, id) && OnlyWorkers(after, id)
    requires Terminal(Run(c, w0, before).rec.state)
    ensures Run(c, w0, before + after).rec == Run(c, w0, before).rec
    ensures Run(c, w0, before + after).reservation == Run(c, w0, before).reservation
  {
    AloneRun(c, w0, before, id);
    AloneRun(c, Run(c, w0, before), after, id);
    RunAppend(c, w0, before, after);
  }
}
