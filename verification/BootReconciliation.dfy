/**
 Reconciliation at boot: unresolved FUND intents and active swaps are compared
 with the chain before the router may accept new obligations.
 */
module BootReconciliation {
  import opened Wrappers
  import opened SwapTypes
  import opened EvmTypes
  import opened LiquidityLedger
  import EvmEngine
  import CoordinatorSteps

  /** What a query for an HTLC returned. */
  datatype HtlcReading = HtlcStatus(value: int) | MalformedHtlc | HtlcUnavailable

  datatype IntentReading = IntentIs(status: IntentStatus) | IntentUnavailable

  /**
   Everything boot hears from outside. `chainValid` is None when the identity
   check throws; `early` and `late` are the HTLC readings of the two passes.
   */
  datatype BootInput = BootInput(
    chainValid: Option<bool>,
    hasManager: bool,
    hasHtlcQuery: bool,
    intents: map<nat, IntentReading>,
    early: map<nat, HtlcReading>,
    late: map<nat, HtlcReading>,
    reading: CapacityReading,
    policy: FinalityPolicy,
    now: int)

  function Read(readings: map<nat, HtlcReading>, htlc: nat): HtlcReading {
    if htlc in readings then readings[htlc] else HtlcUnavailable
  }

  /** A phase either goes through or throws; its writes stay either way. */
  datatype Phase = Through(ledger: Ledger) | Halted(ledger: Ledger)

  predicate FailedFunding(s: IntentStatus) { s == Reverted || s == IntentFailed || s == NonceConflict }

  /** The reservation status that an observed HTLC status of 1, 2 or 3 calls for. */
  function StatusFor(htlcStatus: int): Reservation {
    if htlcStatus == 1 then Committed else if htlcStatus == 2 then ReservationSettled else Released
  }

  predicate Conclusive(r: HtlcReading) { r.HtlcStatus? && 1 <= r.value <= 3 }

  function Escalate(l: Ledger, swap: nat): Ledger {
    match FindSwap(l.swaps, swap)
    case None => l
    case Some(i) => MarkRecovery(l, i)
  }

  // ---------------------------------------------------- unresolved FUND intents

  /** The transaction manager answers; a terminal intent only repeats its own status. */
  function ResolveByManager(given: BootInput, l: Ledger, f: FundIntent, swap: Option<Swap>): Phase {
    if f.swap !in given.intents || given.intents[f.swap].IntentUnavailable? then Halted(l)
    else
      var status := if EvmEngine.Active(f.status) then given.intents[f.swap].status else f.status;
      var l1 := MoveFund(l, f.swap, status);
      if swap.None? then Through(l1)
      else if status == Confirmed then
        if swap.value.booking.None? then Halted(Escalate(l1, f.swap))
        else if swap.value.state == EvmFundingPending then
          match CommitAndAdvance(l1, swap.value.booking.value, f.swap)
          case None => Halted(Escalate(l1, f.swap))
          case Some(l2) => Through(l2)
        else
          match CommitLiquidity(l1, swap.value.booking.value)
          case None => Halted(l1)
          case Some(l2) => Through(l2)
      else if FailedFunding(status) && !CoordinatorSteps.Terminal(swap.value.state) then Through(Escalate(l1, f.swap))
      else Through(l1)
  }

  function ByHtlcStatus(l: Ledger, b: nat, status: int): Option<Ledger> {
    if status == 1 then CommitLiquidity(l, b)
    else if status == 2 then SettleLiquidity(l, b)
    else RestoreRefund(l, b)
  }

  function StateFor(htlcStatus: int): SwapState {
    if htlcStatus == 1 then EvmFunded else if htlcStatus == 2 then EvmClaimDetected else EvmRefundConfirmed
  }

  /** Without a manager the HTLC itself is the evidence; absence resolves nothing. */
  function ResolveByHtlc(given: BootInput, l: Ledger, f: FundIntent, swap: Swap): Phase
    requires swap.htlcId.Some?
  {
    var r := Read(given.early, swap.htlcId.value);
    if !Conclusive(r) then Halted(l)
    else
      var l1 := MoveFund(l, f.swap, Confirmed);
      if swap.booking.None? then Halted(Escalate(l1, f.swap))
      else
        match ByHtlcStatus(l1, swap.booking.value, r.value)
        case None => Halted(Escalate(l1, f.swap))
        case Some(l2) =>
          Through(EditSwap(l2, f.swap, StateFor(r.value), Some(StatusFor(r.value)), swap.htlcId, r.value != 1))
  }

  function ResolveFund(given: BootInput, l: Ledger, f: FundIntent, token: nat): Phase {
    var i := FindSwap(l.swaps, f.swap);
    var swap := if i.Some? then Some(l.swaps[i.value]) else None;
    if swap.Some? && swap.value.token.Some? && swap.value.token.value != token then Through(l)
    else
      var l1 := if swap.Some? && !CoordinatorSteps.Terminal(swap.value.state) && FailedFunding(f.status)
                then Escalate(l, f.swap) else l;
      if given.hasManager then ResolveByManager(given, l1, f, swap)
      else if given.hasHtlcQuery && swap.Some? && swap.value.htlcId.Some? then ResolveByHtlc(given, l1, f, swap.value)
      else if EvmEngine.Active(f.status) then Halted(l1)
      else Through(l1)
  }

  function ActiveFunds(funds: seq<FundIntent>): seq<FundIntent> {
    if funds == [] then []
    else
      var last := funds[|funds| - 1];
      ActiveFunds(funds[..|funds| - 1]) + (if EvmEngine.Active(last.status) then [last] else [])
  }

  /** Failed fundings whose swap is not closed yet. */
  function StrandedFunds(l: Ledger, funds: seq<FundIntent>): seq<FundIntent> {
    if funds == [] then []
    else
      var f := funds[|funds| - 1];
      var i := FindSwap(l.swaps, f.swap);
      StrandedFunds(l, funds[..|funds| - 1])
        + (if FailedFunding(f.status) && i.Some? && !CoordinatorSteps.Terminal(l.swaps[i.value].state) then [f] else [])
  }

  function ResolveAll(given: BootInput, l: Ledger, queue: seq<FundIntent>, token: nat): Phase
    decreases |queue|
  {
    if queue == [] then Through(l)
    else
      match ResolveFund(given, l, queue[0], token)
      case Halted(l1) => Halted(l1)
      case Through(l1) => ResolveAll(given, l1, queue[1..], token)
  }

  function ResolveFunds(given: BootInput, l: Ledger, token: nat): Phase {
    ResolveAll(given, l, ActiveFunds(l.funds) + StrandedFunds(l, l.funds), token)
  }

  // --------------------------------------------------------------- active swaps

  predicate RequiresHtlc(s: SwapState) {
    s == EvmFunded || s == Claiming || s == EvmClaimDetected || s == EvmClaimConfirmed
    || s == LightningSettlementPending || s == LightningSettled || s == DestinationPending
    || s == RefundEligible || s == EvmRefundPending || s == EvmRefundConfirmed || s == LightningCancelPending
  }

  predicate BeforeFunding(s: SwapState) { s == PlanPrepared || s == InvoiceCreated || s == LightningHeld }

  predicate OfToken(s: Swap, token: nat) { s.token.None? || s.token.value == token }

  /** The swap's HTLC must be observed: it is funded by its state, or its FUND intent is confirmed. */
  predicate NeedsObservation(l: Ledger, s: Swap) {
    var f := FindFund(l.funds, s.id);
    RequiresHtlc(s.state) || (s.state == EvmFundingPending && f.Some? && l.funds[f.value].status == Confirmed)
  }

  function ObserveSwap(given: BootInput, l: Ledger, s: Swap): Phase {
    if !given.hasHtlcQuery || s.htlcId.None? then Halted(l)
    else
      var r := Read(given.late, s.htlcId.value);
      if !Conclusive(r) then Halted(l)
      else if s.booking.None? then Halted(Escalate(l, s.id))
      else
        var next := if r.value == 1 then CommitAndAdvance(l, s.booking.value, s.id)
                    else ByHtlcStatus(l, s.booking.value, r.value);
        match next
        case None => Halted(Escalate(l, s.id))
        case Some(l1) => Through(l1)
  }

  function CheckSwap(given: BootInput, l: Ledger, s: Swap, token: nat): Phase {
    if !OfToken(s, token) || BeforeFunding(s.state) then Through(l)
    else if s.state == EvmFundingPending then
      match FindFund(l.funds, s.id)
      case None => Halted(l)
      case Some(i) =>
        if EvmEngine.Active(l.funds[i].status) then Through(l)
        else if l.funds[i].status != Confirmed then Halted(l)
        else ObserveSwap(given, l, s)
    else if !RequiresHtlc(s.state) then Halted(l)
    else ObserveSwap(given, l, s)
  }

  function NonTerminal(swaps: seq<Swap>): seq<Swap> {
    if swaps == [] then []
    else
      NonTerminal(swaps[..|swaps| - 1])
        + (if CoordinatorSteps.Terminal(swaps[|swaps| - 1].state) then [] else [swaps[|swaps| - 1]])
  }

  function CheckAll(given: BootInput, l: Ledger, queue: seq<Swap>, token: nat): Phase
    decreases |queue|
  {
    if queue == [] then Through(l)
    else
      match CheckSwap(given, l, queue[0], token)
      case Halted(l1) => Halted(l1)
      case Through(l1) => CheckAll(given, l1, queue[1..], token)
  }

  function CheckSwaps(given: BootInput, l: Ledger, token: nat): Phase {
    CheckAll(given, l, NonTerminal(l.swaps), token)
  }

  // ------------------------------------------------------------------------ boot

  function Stop(l: Ledger, token: nat, r: Readiness, now: int): Verdict {
    Verdict(SetReadiness(l, token, r, now), r, 0)
  }

  function Reconciled(given: BootInput, l: Ledger, token: nat): Phase {
    match ResolveFunds(given, l, token)
    case Halted(l1) => Halted(l1)
    case Through(l1) => CheckSwaps(given, l1, token)
  }

  function Boot(given: BootInput, l: Ledger, token: nat): Verdict {
    var l0 := SetReadiness(l, token, Reconciling, given.now);
    if given.chainValid.None? then Stop(l0, token, Unknown, given.now)
    else if !given.chainValid.value then Stop(l0, token, NotReady, given.now)
    else
      match Reconciled(given, l0, token)
      case Halted(l1) => Stop(l1, token, Unknown, given.now)
      case Through(l1) => ReconcileCapacity(given.policy, l1, token, given.reading, given.now)
  }

  /** The readiness other components see: `memory` is the state the last reconciliation left. */
  function ReportedReadiness(l: Ledger, token: nat, memory: Readiness, stale: bool): Readiness {
    if memory == NotReady || memory == Reconciling then memory
    else if exists i :: 0 <= i < |l.swaps| && !CoordinatorSteps.Terminal(l.swaps[i].state) && OfToken(l.swaps[i], token)
                        && (l.swaps[i].recoveryRequired || l.swaps[i].state == RecoveryRequired
                            || l.swaps[i].state == ManualReview)
    then NotReady
    else if token !in l.snapshots then NotReady
    else if stale then Degraded
    else if l.snapshots[token].readiness == Deficit then Deficit
    else memory
  }
}
