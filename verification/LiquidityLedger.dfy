/**
 Liquidity accounting: reservations, swaps, FUND intents and the latest chain
 snapshot, with every operation that moves them.
 */
module LiquidityLedger {
  import opened Wrappers
  import opened SwapTypes
  import opened EvmTypes
  import EvmEngine
  import CoordinatorSteps
  import Rules = ReservationRules

  /** A reservation; its id is its position in the table. `owner` is the execution it belongs to. */
  datatype Booking = Booking(owner: nat, token: nat, amount: nat, status: Reservation)

  /** The columns of a swap that accounting reads. Its EVM swap key is derived from its id. */
  datatype Swap = Swap(
    id: nat,
    booking: Option<nat>,
    amount: nat,
    token: Option<nat>,
    state: SwapState,
    mirror: Option<Reservation>,
    htlcId: Option<nat>,
    recoveryRequired: bool)

  /** A FUND intent, named by the swap it funds. */
  datatype FundIntent = FundIntent(swap: nat, status: IntentStatus)

  datatype Readiness = Ready | NotReady | Reconciling | Deficit | Unknown | Degraded

  datatype Snapshot = Snapshot(capacity: int, readiness: Readiness, freshUntil: int)

  /** `snapshots` holds the latest snapshot per token; `balances` the legacy confirmed balances. */
  datatype Ledger = Ledger(
    bookings: seq<Booking>,
    swaps: seq<Swap>,
    funds: seq<FundIntent>,
    snapshots: map<nat, Snapshot>,
    balances: map<nat, int>)

  function FindSwap(swaps: seq<Swap>, id: nat): (i: Option<nat>)
    ensures i.Some? ==> i.value < |swaps| && swaps[i.value].id == id
    ensures i.None? ==> forall j :: 0 <= j < |swaps| ==> swaps[j].id != id
  {
    if swaps == [] then None
    else if swaps[|swaps| - 1].id == id then Some(|swaps| - 1)
    else FindSwap(swaps[..|swaps| - 1], id)
  }

  function FindFund(funds: seq<FundIntent>, swap: nat): (i: Option<nat>)
    ensures i.Some? ==> i.value < |funds| && funds[i.value].swap == swap
    ensures i.None? ==> forall j :: 0 <= j < |funds| ==> funds[j].swap != swap
  {
    if funds == [] then None
    else if funds[|funds| - 1].swap == swap then Some(|funds| - 1)
    else FindFund(funds[..|funds| - 1], swap)
  }

  function FindOwner(bookings: seq<Booking>, owner: nat): (b: Option<nat>)
    ensures b.Some? ==> b.value < |bookings| && bookings[b.value].owner == owner
    ensures b.None? ==> forall j :: 0 <= j < |bookings| ==> bookings[j].owner != owner
  {
    if bookings == [] then None
    else if bookings[|bookings| - 1].owner == owner then Some(|bookings| - 1)
    else FindOwner(bookings[..|bookings| - 1], owner)
  }

  // --------------------------------------------------------------------- sums

  /** Reservations of a token in one status; with `Reserved` this is R. */
  function SumByStatus(bookings: seq<Booking>, token: nat, status: Reservation): nat {
    if bookings == [] then 0
    else
      var last := bookings[|bookings| - 1];
      SumByStatus(bookings[..|bookings| - 1], token, status)
        + (if last.token == token && last.status == status then last.amount else 0)
  }

  predicate BookingReserved(l: Ledger, b: Option<nat>) {
    b.Some? && b.value < |l.bookings| && l.bookings[b.value].status == Reserved
  }

  /** What one FUND intent adds to P: its swap's amount, unless R already counts it. */
  function Exposure(l: Ledger, f: FundIntent, token: nat): nat {
    if !EvmEngine.Active(f.status) then 0
    else
      match FindSwap(l.swaps, f.swap)
      case None => 0
      case Some(i) =>
        var s := l.swaps[i];
        if s.token.Some? && s.token.value != token then 0
        else if BookingReserved(l, s.booking) then 0
        else s.amount
  }

  function SumExposure(l: Ledger, funds: seq<FundIntent>, token: nat): nat {
    if funds == [] then 0
    else SumExposure(l, funds[..|funds| - 1], token) + Exposure(l, funds[|funds| - 1], token)
  }

  function ReservedUnits(l: Ledger, token: nat): nat { SumByStatus(l.bookings, token, Reserved) }

  function UnresolvedUnits(l: Ledger, token: nat): nat { SumExposure(l, l.funds, token) }

  function Headroom(l: Ledger, token: nat, capacity: int): int {
    capacity - ReservedUnits(l, token) - UnresolvedUnits(l, token)
  }

  // ------------------------------------------------------------------ reserve

  datatype ReserveError =
    | InvalidAmount | StaleSnapshot | InventoryNotReady | InDeficit | InventoryUnavailable | OwnerExists

  datatype ReserveReply = Granted(id: nat) | Insufficient | Failed(error: ReserveError)

  datatype Reserving = Reserving(ledger: Ledger, reply: ReserveReply)

  function WithReadiness(l: Ledger, token: nat, r: Readiness): Ledger {
    if token in l.snapshots then l.(snapshots := l.snapshots[token := l.snapshots[token].(readiness := r)]) else l
  }

  function Insert(l: Ledger, owner: nat, token: nat, amount: nat): Reserving {
    if FindOwner(l.bookings, owner).Some? then Reserving(l, Failed(OwnerExists))
    else Reserving(l.(bookings := l.bookings + [Booking(owner, token, amount, Reserved)]), Granted(|l.bookings|))
  }

  function ReserveFromSnapshot(l: Ledger, owner: nat, token: nat, amount: nat, now: int): Reserving
    requires token in l.snapshots
  {
    var s := l.snapshots[token];
    if s.freshUntil < now then Reserving(WithReadiness(l, token, Degraded), Failed(StaleSnapshot))
    else
      match s.readiness
      case Deficit => Reserving(l, Failed(InDeficit))
      case Unknown => Reserving(l, Failed(InventoryUnavailable))
      case Degraded => Reserving(l, Failed(InventoryUnavailable))
      case NotReady => Reserving(l, Failed(InventoryNotReady))
      case Reconciling => Reserving(l, Failed(InventoryNotReady))
      case Ready =>
        var available := Headroom(l, token, s.capacity);
        if available < 0 then Reserving(WithReadiness(l, token, Deficit), Failed(InDeficit))
        else if available < amount then Reserving(l, Insufficient)
        else Insert(l, owner, token, amount)
  }

  function ReserveFromBalance(l: Ledger, owner: nat, token: nat, amount: nat, allowFallback: bool): Reserving {
    if !allowFallback then Reserving(l, Failed(InventoryNotReady))
    else
      var confirmed := if token in l.balances then l.balances[token] else 0;
      var available := confirmed - SumByStatus(l.bookings, token, Reserved) - SumByStatus(l.bookings, token, Committed);
      if available < amount then Reserving(l, Insufficient) else Insert(l, owner, token, amount)
  }

  function ReserveLiquidity(l: Ledger, owner: nat, token: nat, amount: int, now: int, allowFallback: bool): Reserving {
    if amount <= 0 then Reserving(l, Failed(InvalidAmount))
    else
      var existing := FindOwner(l.bookings, owner);
      if existing.Some?
         && (l.bookings[existing.value].status == Reserved || l.bookings[existing.value].status == Committed)
      then Reserving(l, Granted(existing.value))
      else if token in l.snapshots then ReserveFromSnapshot(l, owner, token, amount, now)
      else ReserveFromBalance(l, owner, token, amount, allowFallback)
  }

  // -------------------------------------------------------------- transitions

  function Mirrored(swaps: seq<Swap>, b: nat, status: Reservation): (r: seq<Swap>)
    ensures |r| == |swaps|
    ensures forall i :: 0 <= i < |swaps| ==>
      r[i] == if swaps[i].booking == Some(b) then swaps[i].(mirror := Some(status)) else swaps[i]
  {
    seq(|swaps|, i requires 0 <= i < |swaps| =>
      if swaps[i].booking == Some(b) then swaps[i].(mirror := Some(status)) else swaps[i])
  }

  function WriteBooking(l: Ledger, b: nat, status: Reservation): Ledger
    requires b < |l.bookings|
  {
    l.(bookings := l.bookings[b := l.bookings[b].(status := status)], swaps := Mirrored(l.swaps, b, status))
  }

  /** One reservation transition; None when it throws because the row is missing or in another status. */
  function TransitionLiquidity(l: Ledger, b: nat, allowedFrom: set<Reservation>, next: Reservation): Option<Ledger> {
    if b < |l.bookings| && Rules.Transition(l.bookings[b].status, allowedFrom, next).Some?
    then Some(WriteBooking(l, b, next)) else None
  }

  function CommitLiquidity(l: Ledger, b: nat): Option<Ledger> { TransitionLiquidity(l, b, {Reserved}, Committed) }

  function ReleaseLiquidity(l: Ledger, b: nat): Option<Ledger> { TransitionLiquidity(l, b, {Reserved}, Released) }

  function RestoreRefund(l: Ledger, b: nat): Option<Ledger> {
    TransitionLiquidity(l, b, {Committed, Reserved}, Released)
  }

  function SettleLiquidity(l: Ledger, b: nat): Option<Ledger> {
    TransitionLiquidity(l, b, {Committed, Reserved}, ReservationSettled)
  }

  /** Commits only the swap's own reservation and advances a pending swap to funded in the same transaction. */
  function CommitAndAdvance(l: Ledger, b: nat, swap: nat): Option<Ledger> {
    if b >= |l.bookings| || l.bookings[b].owner != swap then None
    else if l.bookings[b].status != Reserved && l.bookings[b].status != Committed then None
    else
      match FindSwap(l.swaps, swap)
      case None => None
      case Some(i) =>
        if l.swaps[i].booking != Some(b) then None
        else
          var state := if l.swaps[i].state == EvmFundingPending then EvmFunded else l.swaps[i].state;
          Some(l.(bookings := l.bookings[b := l.bookings[b].(status := Committed)],
                  swaps := l.swaps[i := l.swaps[i].(mirror := Some(Committed), state := state)]))
  }

  // ------------------------------------------------------------ swaps, intents

  /** The row written after a successful reservation, with the reservation's own amount and token. */
  function CreateSwap(l: Ledger, owner: nat, b: nat): Ledger
    requires b < |l.bookings|
  {
    if FindSwap(l.swaps, owner).Some? then l
    else
      l.(swaps := l.swaps + [Swap(owner, Some(b), l.bookings[b].amount, Some(l.bookings[b].token), PlanPrepared,
                                  Some(Reserved), None, false)])
  }

  /** Funding is dispatched while the reservation is held; the intent is created once per swap. */
  function CreateFund(l: Ledger, swap: nat): Ledger {
    match FindSwap(l.swaps, swap)
    case None => l
    case Some(i) =>
      if FindFund(l.funds, swap).Some? || !BookingReserved(l, l.swaps[i].booking) then l
      else l.(funds := l.funds + [FundIntent(swap, Created)])
  }

  /** An intent moves only while it is active, except that chain evidence may confirm it. */
  function MoveFund(l: Ledger, swap: nat, status: IntentStatus): Ledger {
    match FindFund(l.funds, swap)
    case None => l
    case Some(i) =>
      if EvmEngine.Active(l.funds[i].status) || status == Confirmed
      then l.(funds := l.funds[i := l.funds[i].(status := status)]) else l
  }

  /** The coordinator's own columns: state, mirror, HTLC id and health flag. */
  function EditSwap(l: Ledger, swap: nat, state: SwapState, mirror: Option<Reservation>, htlcId: Option<nat>,
                    recoveryRequired: bool): Ledger
  {
    match FindSwap(l.swaps, swap)
    case None => l
    case Some(i) =>
      l.(swaps := l.swaps[i := l.swaps[i].(state := state, mirror := mirror, htlcId := htlcId,
                                           recoveryRequired := recoveryRequired)])
  }

  function MarkRecovery(l: Ledger, i: nat): Ledger
    requires i < |l.swaps|
  {
    l.(swaps := l.swaps[i := l.swaps[i].(state := RecoveryRequired, recoveryRequired := true)])
  }

  // ----------------------------------------------------------------- capacity

  datatype FinalityPolicy = FinalityPolicy(confirmations: nat, lagTolerance: nat, maxFreshness: nat)

  /** What the capacity provider reports, or nothing when the query fails. */
  datatype CapacityReading =
    | CapacityReading(sameChain: bool, latest: nat, finalized: nat, capacity: int)
    | CapacityUnknown

  function Floor0(x: int): nat { if x > 0 then x else 0 }

  predicate FinalityAgrees(p: FinalityPolicy, latest: nat, finalized: nat) {
    var expected := Floor0(latest - p.confirmations);
    Floor0(expected - p.lagTolerance) <= finalized <= expected
  }

  function SetReadiness(l: Ledger, token: nat, r: Readiness, now: int): Ledger {
    if token in l.snapshots then WithReadiness(l, token, r)
    else l.(snapshots := l.snapshots[token := Snapshot(0, r, now + 60_000)])
  }

  datatype Verdict = Verdict(ledger: Ledger, readiness: Readiness, headroom: int)

  /** Observes the wallet and records a READY or DEFICIT snapshot; any doubt about the reading is UNKNOWN. */
  function ReconcileCapacity(p: FinalityPolicy, l: Ledger, token: nat, reading: CapacityReading, now: int): Verdict {
    if reading.CapacityUnknown? || !reading.sameChain || !FinalityAgrees(p, reading.latest, reading.finalized)
    then Verdict(SetReadiness(l, token, Unknown, now), Unknown, 0)
    else
      var headroom := Headroom(l, token, reading.capacity);
      var until := now + p.maxFreshness;
      if headroom < 0
      then Verdict(l.(snapshots := l.snapshots[token := Snapshot(reading.capacity, Deficit, until)]), Deficit, 0)
      else Verdict(l.(snapshots := l.snapshots[token := Snapshot(reading.capacity, Ready, until)],
                      balances := l.balances[token := reading.capacity]), Ready, headroom)
  }

  /** Headroom as the persistence layer reports it: zero unless the snapshot is usable and fresh. */
  function SafeHeadroom(l: Ledger, token: nat, now: int): int {
    if token !in l.snapshots then 0
    else
      var s := l.snapshots[token];
      if (s.readiness != Ready && s.readiness != Deficit) || s.freshUntil < now then 0
      else Headroom(l, token, s.capacity)
  }
}
