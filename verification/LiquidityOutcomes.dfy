/**
 What each reservation operation and each boot leaves behind: who may move from
 which status, that swaps mirror their reservations, and on which evidence boot
 answers READY.
 */
module LiquidityOutcomes {
  import opened Wrappers
  import opened SwapTypes
  import opened EvmTypes
  import opened LiquidityLedger
  import opened LiquiditySolvency
  import opened BootReconciliation
  import opened LiquidityRuns
  import opened BootTheorems
  import EvmEngine
  import CoordinatorSteps

  // --------------------------------------------------------------- reservations

  predicate StatusIn(l: Ledger, b: nat, a: Reservation, c: Reservation, d: Reservation) {
    b < |l.bookings| && (l.bookings[b].status == a || l.bookings[b].status == c || l.bookings[b].status == d)
  }

  /** Reservation `b` has the status, every swap of it mirrors that, and nothing else in the ledger changed. */
  predicate Moved(l: Ledger, m: Ledger, b: nat, status: Reservation) {
    && m.funds == l.funds && m.snapshots == l.snapshots && m.balances == l.balances
    && |m.bookings| == |l.bookings| && |m.swaps| == |l.swaps| && b < |l.bookings|
    && m.bookings[b] == l.bookings[b].(status := status)
    && (forall k :: 0 <= k < |l.bookings| && k != b ==> m.bookings[k] == l.bookings[k])
    && (forall i :: 0 <= i < |l.swaps| ==>
          m.swaps[i] == if l.swaps[i].booking == Some(b) then l.swaps[i].(mirror := Some(status)) else l.swaps[i])
  }

  /**
   A held reservation is committed or released, a held or committed one settled
   or restored; each repeats idempotently and throws from every other status.
   */
  lemma TransitionsExactly(l: Ledger, b: nat)
    ensures CommitLiquidity(l, b).Some? <==> StatusIn(l, b, Reserved, Committed, Committed)
    ensures ReleaseLiquidity(l, b).Some? <==> StatusIn(l, b, Reserved, Released, Released)
    ensures RestoreRefund(l, b).Some? <==> StatusIn(l, b, Reserved, Committed, Released)
    ensures SettleLiquidity(l, b).Some? <==> StatusIn(l, b, Reserved, Committed, ReservationSettled)
    ensures CommitLiquidity(l, b).Some? ==> Moved(l, CommitLiquidity(l, b).value, b, Committed)
    ensures ReleaseLiquidity(l, b).Some? ==> Moved(l, ReleaseLiquidity(l, b).value, b, Released)
    ensures RestoreRefund(l, b).Some? ==> Moved(l, RestoreRefund(l, b).value, b, Released)
    ensures SettleLiquidity(l, b).Some? ==> Moved(l, SettleLiquidity(l, b).value, b, ReservationSettled)
  {
    hide Moved;
    if b < |l.bookings| {
      WriteMoves(l, b, Committed);
      WriteMoves(l, b, Released);
      WriteMoves(l, b, ReservationSettled);
    }
    hide WriteBooking;
  }

  lemma WriteMoves(l: Ledger, b: nat, status: Reservation)
    requires b < |l.bookings|
    ensures Moved(l, WriteBooking(l, b, status), b, status)
  {
  }

  /**
   The commit that also advances: it succeeds exactly for the swap's own held or
   committed reservation, a pending swap is funded afterwards, and the mirror,
   the reservation and every other row are as they should be.
   */
  lemma CommitAdvancesExactly(l: Ledger, b: nat, swap: nat, i: nat)
    requires Consistent(l) && i < |l.swaps| && l.swaps[i].id == swap
    ensures CommitAndAdvance(l, b, swap).Some? <==>
            l.swaps[i].booking == Some(b) && StatusIn(l, b, Reserved, Committed, Committed)
    ensures CommitAndAdvance(l, b, swap).Some? ==>
      var m := CommitAndAdvance(l, b, swap).value;
      && Moved(l.(swaps := l.swaps[i := l.swaps[i].(state := m.swaps[i].state)]), m, b, Committed)
      && m.swaps[i].state != EvmFundingPending
      && (l.swaps[i].state == EvmFundingPending ==> m.swaps[i].state == EvmFunded)
      && (l.swaps[i].state != EvmFundingPending ==> m.swaps[i].state == l.swaps[i].state)
  {
    assert SwapOk(l.bookings, l.swaps[i]);
    assert FindSwap(l.swaps, swap) == Some(i);
    if CommitAndAdvance(l, b, swap).Some? {
      forall j | 0 <= j < |l.swaps| && j != i
        ensures l.swaps[j].booking != Some(b)
      {
        assert SwapOk(l.bookings, l.swaps[j]);
      }
    }
  }

  /** An unknown swap, or a reservation of another execution, commits nothing whatever else the tables say. */
  lemma ForeignCommitIsRefused(l: Ledger, b: nat, swap: nat)
    requires FindSwap(l.swaps, swap).None? || b >= |l.bookings| || l.bookings[b].owner != swap
    ensures CommitAndAdvance(l, b, swap).None?
  {
  }

  /** A repeated reservation of an execution returns the first one and charges nothing. */
  lemma RepeatedReserveIsFree(l: Ledger, b: nat, token: nat, amount: int, now: int, allowFallback: bool)
    requires Consistent(l) && amount > 0 && StatusIn(l, b, Reserved, Committed, Committed)
    ensures ReserveLiquidity(l, l.bookings[b].owner, token, amount, now, allowFallback) == Reserving(l, Granted(b))
  {
    assert FindOwner(l.bookings, l.bookings[b].owner) == Some(b);
  }

  /** The reservation is refused for this reason; at most the readiness of the token's snapshot changes. */
  predicate Denied(l: Ledger, r: Reserving, token: nat, error: ReserveError, readiness: Readiness) {
    && r.reply == Failed(error) && token in l.snapshots
    && r.ledger == l.(snapshots := l.snapshots[token := l.snapshots[token].(readiness := readiness)])
  }

  /**
   A new execution reserves from a fresh READY snapshot exactly what R and P
   leave of it; every other snapshot refuses, and one found stale or overdrawn
   is marked so.
   */
  lemma ReserveAnswersExactly(l: Ledger, owner: nat, token: nat, amount: int, now: int, allowFallback: bool)
    requires amount > 0 && token in l.snapshots && FindOwner(l.bookings, owner).None?
    ensures var s := l.snapshots[token]; var r := ReserveLiquidity(l, owner, token, amount, now, allowFallback);
      var left := s.capacity - ReservedUnits(l, token) - UnresolvedUnits(l, token);
      if s.freshUntil < now then Denied(l, r, token, StaleSnapshot, Degraded)
      else if s.readiness == Deficit || (s.readiness == Ready && left < 0) then Denied(l, r, token, InDeficit, Deficit)
      else if s.readiness == NotReady || s.readiness == Reconciling then
        Denied(l, r, token, InventoryNotReady, s.readiness)
      else if s.readiness != Ready then Denied(l, r, token, InventoryUnavailable, s.readiness)
      else if left < amount then r == Reserving(l, Insufficient)
      else r == Reserving(l.(bookings := l.bookings + [Booking(owner, token, amount, Reserved)]), Granted(|l.bookings|))
  {
    hide ReservedUnits, UnresolvedUnits, FindOwner;
  }

  /**
   Without any snapshot the confirmed balance, less everything held or
   committed, is lent out, and only if the caller allows it.
   */
  lemma FallbackExactly(l: Ledger, owner: nat, token: nat, amount: int, now: int, allowFallback: bool)
    requires token !in l.snapshots && FindOwner(l.bookings, owner).None?
    ensures var r := ReserveLiquidity(l, owner, token, amount, now, allowFallback);
      var confirmed := if token in l.balances then l.balances[token] else 0;
      var left := confirmed - SumByStatus(l.bookings, token, Reserved) - SumByStatus(l.bookings, token, Committed);
      if amount <= 0 then r == Reserving(l, Failed(InvalidAmount))
      else if !allowFallback then r == Reserving(l, Failed(InventoryNotReady))
      else if left < amount then r == Reserving(l, Insufficient)
      else r == Reserving(l.(bookings := l.bookings + [Booking(owner, token, amount, Reserved)]), Granted(|l.bookings|))
  {
    hide SumByStatus, FindOwner;
  }

  /** An execution whose reservation has ended never gets another, and nothing that is not positive is reserved. */
  lemma EndedOwnerIsRefused(l: Ledger, b: nat, token: nat, amount: int, now: int, allowFallback: bool)
    requires b < |l.bookings| && (l.bookings[b].status == Released || l.bookings[b].status == ReservationSettled)
    requires Consistent(l)
    ensures var r := ReserveLiquidity(l, l.bookings[b].owner, token, amount, now, allowFallback);
      !r.reply.Granted? && r.ledger.bookings == l.bookings && (amount <= 0 ==> r == Reserving(l, Failed(InvalidAmount)))
  {
    assert FindOwner(l.bookings, l.bookings[b].owner) == Some(b);
    hide Headroom, SumByStatus, FindOwner;
  }

  // ------------------------------------------------------------------- capacity

  /** The finalized block lags the confirmed head by no more than the tolerance, and is not ahead of it. */
  predicate LagsWithin(p: FinalityPolicy, latest: nat, finalized: nat) {
    && (finalized == 0 || finalized + p.confirmations <= latest)
    && latest <= finalized + p.confirmations + p.lagTolerance
  }

  predicate Trusted(p: FinalityPolicy, reading: CapacityReading) {
    reading.CapacityReading? && reading.sameChain && LagsWithin(p, reading.latest, reading.finalized)
  }

  predicate OnlySnapshot(l: Ledger, m: Ledger, token: nat, s: Snapshot) {
    m.bookings == l.bookings && m.swaps == l.swaps && m.funds == l.funds && m.snapshots == l.snapshots[token := s]
  }

  /** A refusal keeps the snapshot's numbers, or writes an empty one for a minute, and changes no other table. */
  predicate Refused(l: Ledger, m: Ledger, token: nat, r: Readiness, now: int) {
    && m.balances == l.balances
    && OnlySnapshot(l, m, token, if token in l.snapshots then l.snapshots[token].(readiness := r)
                                 else Snapshot(0, r, now + 60_000))
  }

  /**
   A trusted reading becomes the snapshot: READY with what R and P leave if that
   is not negative, DEFICIT otherwise. Every other reading is UNKNOWN.
   */
  lemma CapacityVerdict(p: FinalityPolicy, l: Ledger, token: nat, reading: CapacityReading, now: int)
    ensures var v := ReconcileCapacity(p, l, token, reading, now);
      if !Trusted(p, reading)
      then v.readiness == Unknown && v.headroom == 0 && Refused(l, v.ledger, token, Unknown, now)
      else
        var left := reading.capacity - ReservedUnits(l, token) - UnresolvedUnits(l, token);
        var until := now + p.maxFreshness;
        if left < 0
        then
          && v.readiness == Deficit && v.headroom == 0 && v.ledger.balances == l.balances
          && OnlySnapshot(l, v.ledger, token, Snapshot(reading.capacity, Deficit, until))
        else
          && v.readiness == Ready && v.headroom == left && v.ledger.balances == l.balances[token := reading.capacity]
          && OnlySnapshot(l, v.ledger, token, Snapshot(reading.capacity, Ready, until))
  {
    hide ReservedUnits, UnresolvedUnits;
  }

  /** Headroom is reported only from a fresh snapshot that is READY or in deficit, and is then all R and P leave. */
  lemma SafeHeadroomExactly(l: Ledger, token: nat, now: int)
    ensures var usable := token in l.snapshots && l.snapshots[token].freshUntil >= now
                         && (l.snapshots[token].readiness == Ready || l.snapshots[token].readiness == Deficit);
      if usable then SafeHeadroom(l, token, now) + ReservedUnits(l, token) + UnresolvedUnits(l, token)
                    == l.snapshots[token].capacity
      else SafeHeadroom(l, token, now) == 0
  {
    hide ReservedUnits, UnresolvedUnits;
  }

  // ----------------------------------------------------------------------- boot

  /** On the wrong chain boot stops before it looks at anything: NOT_READY, no headroom, no row touched. */
  lemma WrongChainIsNotReady(given: BootInput, l: Ledger, token: nat)
    requires given.chainValid == Some(false)
    ensures var v := Boot(given, l, token);
      v.readiness == NotReady && v.headroom == 0 && Refused(l, v.ledger, token, NotReady, given.now)
  {
    hide Reconciled, ReconcileCapacity;
  }

  lemma UnknownChainIsUnknown(given: BootInput, l: Ledger, token: nat)
    requires given.chainValid == None
    ensures var v := Boot(given, l, token);
      v.readiness == Unknown && v.headroom == 0 && Refused(l, v.ledger, token, Unknown, given.now)
  {
    hide Reconciled, ReconcileCapacity;
  }

  /** READY takes the right chain, a reading of that chain, and a finalized block within the policy's lag. */
  lemma ReadyNeedsTheChain(given: BootInput, l: Ledger, token: nat)
    requires Boot(given, l, token).readiness == Ready
    ensures given.chainValid == Some(true) && Trusted(given.policy, given.reading)
    ensures var v := Boot(given, l, token);
      && token in v.ledger.snapshots && v.ledger.balances == l.balances[token := given.reading.capacity]
      && v.ledger.snapshots[token] == Snapshot(given.reading.capacity, Ready, given.now + given.policy.maxFreshness)
  {
    hide Reconciled, ReconcileCapacity, Trusted, OnlySnapshot, Refused;
    var l0 := SetReadiness(l, token, Reconciling, given.now);
    ReconciledWinds(given, l0, token);
    var l1 := Reconciled(given, l0, token).ledger;
    CapacityVerdict(given.policy, l1, token, given.reading, given.now);
    SnapshotIs(l1, Boot(given, l, token).ledger, token);
  }

  lemma SnapshotIs(l: Ledger, m: Ledger, token: nat)
    ensures forall s :: OnlySnapshot(l, m, token, s) ==> token in m.snapshots && m.snapshots[token] == s
  {
  }

  /** Any other answer than READY grants no headroom. */
  lemma NoHeadroomUnlessReady(given: BootInput, l: Ledger, token: nat)
    requires Boot(given, l, token).readiness != Ready
    ensures Boot(given, l, token).headroom == 0
  {
    hide Reconciled, Headroom;
  }

  // ------------------------------------------------- boot resolves a FUND intent

  /** The intent's own swap, its intent's place, and a token this boot looks at. */
  predicate Concerns(l: Ledger, f: FundIntent, token: nat, i: nat, j: nat) {
    && i < |l.swaps| && l.swaps[i].id == f.swap && OfToken(l.swaps[i], token)
    && j < |l.funds| && l.funds[j].swap == f.swap
  }

  /** After `m`: the swap's row, its reservation's status and its intent's status; every other row as before. */
  predicate Resolved(l: Ledger, m: Ledger, i: nat, j: nat, row: Swap, booking: Reservation, fund: IntentStatus)
    requires i < |l.swaps| && j < |l.funds| && SwapOk(l.bookings, l.swaps[i])
  {
    var b := l.swaps[i].booking.value;
    && m.swaps == l.swaps[i := row]
    && m.bookings == l.bookings[b := l.bookings[b].(status := booking)]
    && m.funds == l.funds[j := l.funds[j].(status := fund)]
    && m.snapshots == l.snapshots && m.balances == l.balances
  }

  lemma PlacesAreFound(l: Ledger, f: FundIntent, token: nat, i: nat, j: nat)
    requires Consistent(l) && Concerns(l, f, token, i, j)
    ensures FindSwap(l.swaps, f.swap) == Some(i) && FindFund(l.funds, f.swap) == Some(j)
    ensures SwapOk(l.bookings, l.swaps[i])
    ensures forall k :: 0 <= k < |l.swaps| && k != i ==> l.swaps[k].booking != l.swaps[i].booking
  {
    forall k | 0 <= k < |l.swaps| && k != i
      ensures l.swaps[k].booking != l.swaps[i].booking
    {
      assert SwapOk(l.bookings, l.swaps[k]) && SwapOk(l.bookings, l.swaps[i]);
    }
  }

  function Parked(s: Swap): Swap { s.(state := RecoveryRequired, recoveryRequired := true) }

  lemma FoundAt(swaps: seq<Swap>, i: nat)
    requires i < |swaps| && forall a, b :: 0 <= a < b < |swaps| ==> swaps[a].id != swaps[b].id
    ensures FindSwap(swaps, swaps[i].id) == Some(i)
  {
  }

  /** Writing the reservation of one swap alone mirrors it into that swap's row. */
  lemma OneMirror(l: Ledger, i: nat, next: Reservation)
    requires i < |l.swaps| && SwapOk(l.bookings, l.swaps[i])
    requires forall k :: 0 <= k < |l.swaps| && k != i ==> l.swaps[k].booking != l.swaps[i].booking
    ensures var b := l.swaps[i].booking.value;
      WriteBooking(l, b, next)
         == l.(bookings := l.bookings[b := l.bookings[b].(status := next)],
               swaps := l.swaps[i := l.swaps[i].(mirror := Some(next))])
  {
    var b := l.swaps[i].booking.value;
    assert Mirrored(l.swaps, b, next) == l.swaps[i := l.swaps[i].(mirror := Some(next))];
  }

  /** A transition with the state that goes with it, on top of a confirmed intent. */
  lemma EvidenceResolves(l: Ledger, l1: Ledger, f: FundIntent, token: nat, i: nat, j: nat, allowed: set<Reservation>,
                         next: Reservation, state: SwapState, flag: bool)
    requires Consistent(l) && Concerns(l, f, token, i, j) && SwapOk(l.bookings, l.swaps[i])
    requires l1 == l.(funds := l.funds[j := l.funds[j].(status := Confirmed)])
    requires var b := l.swaps[i].booking.value; l.bookings[b].status in allowed || l.bookings[b].status == next
    ensures var s := l.swaps[i]; var l2 := TransitionLiquidity(l1, s.booking.value, allowed, next);
      && l2.Some?
      && Resolved(l, EditSwap(l2.value, f.swap, state, Some(next), s.htlcId, flag), i, j,
                  s.(state := state, mirror := Some(next), recoveryRequired := flag), next, Confirmed)
  {
    PlacesAreFound(l, f, token, i, j);
    var s := l.swaps[i];
    OneMirror(l1, i, next);
    var l2 := WriteBooking(l1, s.booking.value, next);
    FoundAt(l2.swaps, i);
    hide Consistent, WriteBooking, FindSwap, SwapOk;
    var row := s.(state := state, mirror := Some(next), recoveryRequired := flag);
    assert l2.swaps[i := row] == l.swaps[i := row];
  }

  /** The reservation may move to what the observed status 1, 2 or 3 calls for, or is there already. */
  predicate Fits(l: Ledger, b: nat, seen: int) {
    StatusIn(l, b, Reserved, Committed,
             if seen == 1 then Committed else if seen == 2 then ReservationSettled else Released)
  }

  /** The swap's row after its HTLC was seen locked, claimed or refunded. */
  function Evidenced(s: Swap, seen: int): Swap {
    if seen == 1 then s.(state := EvmFunded, mirror := Some(Committed), recoveryRequired := false)
    else if seen == 2 then
      s.(state := EvmClaimDetected, mirror := Some(ReservationSettled), recoveryRequired := true)
    else s.(state := EvmRefundConfirmed, mirror := Some(Released), recoveryRequired := true)
  }

  /** `ResolveByHtlc` asks for this swap, whose row may have been parked since. */
  predicate AsksFor(s: Swap, asked: Swap) { asked.booking == s.booking && asked.htlcId == s.htlcId && s.htlcId.Some? }

  lemma EvidenceFits(given: BootInput, l: Ledger, f: FundIntent, token: nat, i: nat, j: nat, seen: int, asked: Swap)
    requires Consistent(l) && Concerns(l, f, token, i, j) && AsksFor(l.swaps[i], asked) && 1 <= seen <= 3
    requires Read(given.early, asked.htlcId.value) == HtlcStatus(seen)
    requires SwapOk(l.bookings, l.swaps[i]) && Fits(l, l.swaps[i].booking.value, seen)
    ensures var s := l.swaps[i]; var p := ResolveByHtlc(given, l, f, asked);
      var status := if seen == 1 then Committed else if seen == 2 then ReservationSettled else Released;
      p.Through? && Resolved(l, p.ledger, i, j, Evidenced(s, seen), status, Confirmed)
  {
    PlacesAreFound(l, f, token, i, j);
    var l1 := l.(funds := l.funds[j := l.funds[j].(status := Confirmed)]);
    assert MoveFund(l, f.swap, Confirmed) == l1;
    hide Consistent, Concerns, TransitionLiquidity, EditSwap, MoveFund, Resolved, Escalate, SwapOk;
    if seen == 1 {
      EvidenceResolves(l, l1, f, token, i, j, {Reserved}, Committed, EvmFunded, false);
    } else if seen == 2 {
      EvidenceResolves(l, l1, f, token, i, j, {Committed, Reserved}, ReservationSettled, EvmClaimDetected, true);
    } else {
      EvidenceResolves(l, l1, f, token, i, j, {Committed, Reserved}, Released, EvmRefundConfirmed, true);
    }
  }

  lemma EvidenceClashes(given: BootInput, l: Ledger, f: FundIntent, token: nat, i: nat, j: nat, seen: int, asked: Swap)
    requires Consistent(l) && Concerns(l, f, token, i, j) && AsksFor(l.swaps[i], asked) && 1 <= seen <= 3
    requires Read(given.early, asked.htlcId.value) == HtlcStatus(seen)
    requires SwapOk(l.bookings, l.swaps[i]) && !Fits(l, l.swaps[i].booking.value, seen)
    ensures var s := l.swaps[i]; var p := ResolveByHtlc(given, l, f, asked);
      p.Halted? && Resolved(l, p.ledger, i, j, Parked(s), l.bookings[s.booking.value].status, Confirmed)
  {
    PlacesAreFound(l, f, token, i, j);
    var l1 := l.(funds := l.funds[j := l.funds[j].(status := Confirmed)]);
    assert MoveFund(l, f.swap, Confirmed) == l1;
    hide Consistent, MoveFund, WriteBooking, FindFund;
    var b := l.swaps[i].booking.value;
    assert l.bookings[b := l.bookings[b].(status := l.bookings[b].status)] == l.bookings;
    assert Escalate(l1, f.swap) == MarkRecovery(l1, i);
  }

  /** Boot first parks the swap of a failed funding that is still open. */
  function ParkStranded(l: Ledger, f: FundIntent, i: nat): Ledger
    requires i < |l.swaps|
  {
    if f.status in {Reverted, IntentFailed, NonceConflict} && !CoordinatorSteps.Terminal(l.swaps[i].state)
    then l.(swaps := l.swaps[i := Parked(l.swaps[i])]) else l
  }

  lemma ParkingIsConsistent(l: Ledger, f: FundIntent, i: nat, token: nat, j: nat)
    requires Consistent(l) && Concerns(l, f, token, i, j)
    ensures Consistent(ParkStranded(l, f, i)) && Concerns(ParkStranded(l, f, i), f, token, i, j)
  {
    hide FindSwap, OwnersDistinct, CoordinatorSteps.Terminal;
    var l1 := ParkStranded(l, f, i);
    forall k | 0 <= k < |l.funds|
      ensures FindSwap(l1.swaps, l.funds[k].swap).Some?
    {
      var at := FindSwap(l.swaps, l.funds[k].swap).value;
      assert l1.swaps[at].id == l.funds[k].swap;
    }
    forall k | 0 <= k < |l.swaps|
      ensures SwapOk(l.bookings, l1.swaps[k])
    {
      assert SwapOk(l.bookings, l.swaps[k]);
    }
  }

  lemma AskedOfTheHtlc(given: BootInput, l: Ledger, f: FundIntent, token: nat, i: nat, j: nat)
    requires Consistent(l) && Concerns(l, f, token, i, j) && l.swaps[i].htlcId.Some?
    requires !given.hasManager && given.hasHtlcQuery
    ensures ResolveFund(given, l, f, token) == ResolveByHtlc(given, ParkStranded(l, f, i), f, l.swaps[i])
  {
    PlacesAreFound(l, f, token, i, j);
    hide Consistent, ResolveByHtlc;
  }

  /** A row written over a parked one replaces it. */
  lemma ParkingIsOverwritten(l: Ledger, m: Ledger, f: FundIntent, i: nat, j: nat, row: Swap, booking: Reservation,
                             fund: IntentStatus)
    requires i < |l.swaps| && j < |l.funds| && SwapOk(l.bookings, l.swaps[i])
    ensures var l1 := ParkStranded(l, f, i);
      SwapOk(l1.bookings, l1.swaps[i]) && (Resolved(l1, m, i, j, row, booking, fund) ==>
                                            Resolved(l, m, i, j, row, booking, fund))
  {
    assert ParkStranded(l, f, i).swaps[i := row] == l.swaps[i := row];
  }

  /**
   An HTLC seen locked, claimed or refunded confirms its intent and moves its
   reservation and its swap accordingly, also when the intent had failed. If the
   reservation cannot follow, the swap is parked and boot stops.
   */
  lemma HtlcResolves(given: BootInput, l: Ledger, f: FundIntent, token: nat, i: nat, j: nat, seen: int)
    requires Consistent(l) && Concerns(l, f, token, i, j) && l.swaps[i].htlcId.Some? && 1 <= seen <= 3
    requires !given.hasManager && given.hasHtlcQuery
    requires Read(given.early, l.swaps[i].htlcId.value) == HtlcStatus(seen)
    ensures SwapOk(l.bookings, l.swaps[i])
    ensures var s := l.swaps[i]; var b := s.booking.value; var p := ResolveFund(given, l, f, token);
      var status := if seen == 1 then Committed else if seen == 2 then ReservationSettled else Released;
      if Fits(l, b, seen) then p.Through? && Resolved(l, p.ledger, i, j, Evidenced(s, seen), status, Confirmed)
      else p.Halted? && Resolved(l, p.ledger, i, j, Parked(s), l.bookings[b].status, Confirmed)
  {
    PlacesAreFound(l, f, token, i, j);
    AskedOfTheHtlc(given, l, f, token, i, j);
    ParkingIsConsistent(l, f, i, token, j);
    var l1, s := ParkStranded(l, f, i), l.swaps[i];
    var status := if seen == 1 then Committed else if seen == 2 then ReservationSettled else Released;
    ParkingIsOverwritten(l, ResolveFund(given, l, f, token).ledger, f, i, j, Evidenced(s, seen), status, Confirmed);
    ParkingIsOverwritten(l, ResolveFund(given, l, f, token).ledger, f, i, j, Parked(s),
                         l.bookings[s.booking.value].status, Confirmed);
    hide Consistent, Concerns, ResolveFund, ResolveByHtlc, Resolved, SwapOk;
    if Fits(l1, s.booking.value, seen) {
      EvidenceFits(given, l1, f, token, i, j, seen, s);
    } else {
      EvidenceClashes(given, l1, f, token, i, j, seen, s);
    }
  }

  /** An intent whose swap is in another token is not this boot's business. */
  lemma OtherTokenIsSkipped(given: BootInput, l: Ledger, f: FundIntent, token: nat, i: nat)
    requires FindSwap(l.swaps, f.swap) == Some(i) && !OfToken(l.swaps[i], token)
    ensures ResolveFund(given, l, f, token) == Through(l)
  {
  }

  /** Without anybody to ask, an active intent stops boot and a failed one is only parked. */
  lemma NobodyToAsk(given: BootInput, l: Ledger, f: FundIntent, token: nat, i: nat, j: nat)
    requires Consistent(l) && Concerns(l, f, token, i, j) && !given.hasManager
    requires !given.hasHtlcQuery || l.swaps[i].htlcId.None?
    ensures var p := ResolveFund(given, l, f, token);
      p == if EvmEngine.Active(f.status) then Halted(l) else Through(ParkStranded(l, f, i))
  {
    PlacesAreFound(l, f, token, i, j);
  }

  /** A conclusive reading for a swap without a reservation parks the swap and stops boot, in both passes. */
  lemma MissingReservationHalts(given: BootInput, l: Ledger, f: FundIntent, i: nat)
    requires i < |l.swaps| && FindSwap(l.swaps, f.swap) == Some(i) && l.swaps[i].id == f.swap
    requires l.swaps[i].booking.None? && l.swaps[i].htlcId.Some? && given.hasHtlcQuery
    ensures var s := l.swaps[i]; var swaps := l.swaps[i := Parked(s)];
      && (Conclusive(Read(given.early, s.htlcId.value)) ==>
            ResolveByHtlc(given, l, f, s) == Halted(MoveFund(l, f.swap, Confirmed).(swaps := swaps)))
      && (Conclusive(Read(given.late, s.htlcId.value)) ==> ObserveSwap(given, l, s) == Halted(l.(swaps := swaps)))
  {
    assert MoveFund(l, f.swap, Confirmed).swaps == l.swaps;
    hide MoveFund;
  }

  /** Any other reading leaves the intent unresolved and stops boot. */
  lemma InconclusiveHtlcHalts(given: BootInput, l: Ledger, f: FundIntent, token: nat, i: nat, j: nat)
    requires Consistent(l) && Concerns(l, f, token, i, j) && l.swaps[i].htlcId.Some?
    requires !given.hasManager && given.hasHtlcQuery && EvmEngine.Active(f.status)
    requires Read(given.early, l.swaps[i].htlcId.value) !in {HtlcStatus(1), HtlcStatus(2), HtlcStatus(3)}
    ensures ResolveFund(given, l, f, token) == Halted(l)
  {
    AskedOfTheHtlc(given, l, f, token, i, j);
    hide Consistent, Concerns, ResolveFund, MoveFund, ByHtlcStatus;
  }

  lemma CommitsOwn(l: Ledger, i: nat)
    requires i < |l.swaps| && SwapOk(l.bookings, l.swaps[i]) && FindSwap(l.swaps, l.swaps[i].id) == Some(i)
    requires forall k :: 0 <= k < |l.swaps| && k != i ==> l.swaps[k].booking != l.swaps[i].booking
    ensures var s := l.swaps[i]; var b := s.booking.value;
      var held := l.(bookings := l.bookings[b := l.bookings[b].(status := Committed)]);
      if StatusIn(l, b, Reserved, Committed, Committed)
      then
        && CommitAndAdvance(l, b, s.id) == Some(held.(swaps := l.swaps[i :=
             s.(mirror := Some(Committed), state := if s.state == EvmFundingPending then EvmFunded else s.state)]))
        && CommitLiquidity(l, b) == Some(held.(swaps := l.swaps[i := s.(mirror := Some(Committed))]))
      else CommitAndAdvance(l, b, s.id).None? && CommitLiquidity(l, b).None?
  {
    OneMirror(l, i, Committed);
    hide WriteBooking, FindSwap;
  }

  /** The transaction manager's answer does: a confirmed funding commits the swap's reservation, or stops boot. */
  lemma ManagerConfirms(given: BootInput, l: Ledger, f: FundIntent, token: nat, i: nat, j: nat)
    requires Consistent(l) && Concerns(l, f, token, i, j)
    requires given.hasManager && f.swap in given.intents && given.intents[f.swap] == IntentIs(Confirmed)
    requires EvmEngine.Active(l.funds[j].status) && f.status == l.funds[j].status
    ensures SwapOk(l.bookings, l.swaps[i])
    ensures var s := l.swaps[i]; var b := s.booking.value; var p := ResolveFund(given, l, f, token);
      if StatusIn(l, b, Reserved, Committed, Committed)
      then p.Through? && Resolved(l, p.ledger, i, j,
                                  s.(state := if s.state == EvmFundingPending then EvmFunded else s.state,
                                     mirror := Some(Committed)), Committed, Confirmed)
      else p.Halted?
  {
    PlacesAreFound(l, f, token, i, j);
    var l1 := MoveFund(l, f.swap, Confirmed);
    assert l1 == l.(funds := l.funds[j := l.funds[j].(status := Confirmed)]);
    CommitsOwn(l1, i);
    hide MoveFund, FindSwap, FindFund, CommitAndAdvance, CommitLiquidity, Consistent;
  }

  /** A failed funding parks an open swap; any other answer is only written down. */
  lemma ManagerDenies(given: BootInput, l: Ledger, f: FundIntent, token: nat, i: nat, j: nat, answer: IntentStatus)
    requires Consistent(l) && Concerns(l, f, token, i, j) && answer != Confirmed
    requires given.hasManager && f.swap in given.intents && given.intents[f.swap] == IntentIs(answer)
    requires EvmEngine.Active(l.funds[j].status) && f.status == l.funds[j].status
    ensures SwapOk(l.bookings, l.swaps[i])
    ensures var s := l.swaps[i]; var p := ResolveFund(given, l, f, token);
      p.Through? && Resolved(l, p.ledger, i, j,
                             if answer in {Reverted, IntentFailed, NonceConflict} && !CoordinatorSteps.Terminal(s.state)
                             then Parked(s) else s,
                             l.bookings[s.booking.value].status, answer)
  {
    PlacesAreFound(l, f, token, i, j);
    var l1 := MoveFund(l, f.swap, answer);
    assert l1 == l.(funds := l.funds[j := l.funds[j].(status := answer)]);
  }

  /** An answer that does not come stops boot before anything is written. */
  lemma SilentManagerHalts(given: BootInput, l: Ledger, f: FundIntent, token: nat, i: nat, j: nat)
    requires Consistent(l) && Concerns(l, f, token, i, j) && given.hasManager && EvmEngine.Active(f.status)
    requires f.swap !in given.intents || given.intents[f.swap].IntentUnavailable?
    ensures ResolveFund(given, l, f, token) == Halted(l)
  {
    PlacesAreFound(l, f, token, i, j);
  }

  // --------------------------------------------- boot checks the open swaps

  /** The HTLC of this swap has to be looked at. */
  predicate Observed(l: Ledger, s: Swap) {
    || s.state in {EvmFunded, Claiming, EvmClaimDetected, EvmClaimConfirmed, LightningSettlementPending,
                   LightningSettled, DestinationPending, RefundEligible, EvmRefundPending, EvmRefundConfirmed,
                   LightningCancelPending}
    || (s.state == EvmFundingPending && FundIs(l, s.id, Confirmed))
  }

  predicate Seen(given: BootInput, s: Swap) {
    && given.hasHtlcQuery && s.htlcId.Some?
    && Read(given.late, s.htlcId.value) in {HtlcStatus(1), HtlcStatus(2), HtlcStatus(3)}
  }

  lemma ObservationFits(given: BootInput, l: Ledger, i: nat)
    requires Consistent(l) && i < |l.swaps| && Seen(given, l.swaps[i])
    ensures SwapOk(l.bookings, l.swaps[i])
    ensures var s := l.swaps[i];
      ObserveSwap(given, l, s).Through? <==> Fits(l, s.booking.value, Read(given.late, s.htlcId.value).value)
    ensures var s := l.swaps[i];
      ObserveSwap(given, l, s).Halted? ==> ObserveSwap(given, l, s).ledger == l.(swaps := l.swaps[i := Parked(s)])
  {
    var s := l.swaps[i];
    assert SwapOk(l.bookings, s);
    FoundAt(l.swaps, i);
    hide WriteBooking, FindSwap, Consistent;
  }

  /** A swap that boot passes over without looking at its HTLC. */
  predicate Idle(l: Ledger, s: Swap, token: nat) {
    || !OfToken(s, token) || s.state in {PlanPrepared, InvoiceCreated, LightningHeld}
    || (s.state == EvmFundingPending && FundIsActive(l, s.id))
  }

  lemma CheckDispatches(given: BootInput, l: Ledger, s: Swap, token: nat)
    ensures CheckSwap(given, l, s, token) ==
      if Idle(l, s, token) then Through(l) else if Observed(l, s) then ObserveSwap(given, l, s) else Halted(l)
    ensures !Seen(given, s) ==> ObserveSwap(given, l, s) == Halted(l)
  {
    hide FindFund, CommitAndAdvance, ByHtlcStatus, Escalate;
  }

  /**
   Boot passes over an open swap exactly if it is another token's, is not funded
   yet, waits for an unresolved funding, or has an HTLC whose observed status its
   reservation can follow. Otherwise it stops, and parks the swap if it was the
   reservation that could not follow.
   */
  lemma CheckPassesExactly(given: BootInput, l: Ledger, i: nat, token: nat)
    requires Consistent(l) && i < |l.swaps|
    ensures SwapOk(l.bookings, l.swaps[i])
    ensures var s := l.swaps[i]; var p := CheckSwap(given, l, s, token);
      && (p.Through? <==> Idle(l, s, token) || (Observed(l, s) && Seen(given, s)
                            && Fits(l, s.booking.value, Read(given.late, s.htlcId.value).value)))
      && (Idle(l, s, token) ==> p.ledger == l)
      && (p.Halted? ==> p.ledger == if Observed(l, s) && Seen(given, s) then l.(swaps := l.swaps[i := Parked(s)])
                                    else l)
  {
    assert SwapOk(l.bookings, l.swaps[i]);
    CheckDispatches(given, l, l.swaps[i], token);
    if Seen(given, l.swaps[i]) { ObservationFits(given, l, i); }
    hide Consistent, Fits, CheckSwap, ObserveSwap, Idle, Observed, FindFund;
  }

  predicate Troubled(s: Swap, token: nat) {
    OpenOf(s, token) && (s.recoveryRequired || s.state == RecoveryRequired || s.state == ManualReview)
  }

  /** With a READY memory, the answer others get names the first reason against it. */
  lemma ReportedExactly(l: Ledger, token: nat, stale: bool)
    ensures var troubled := exists i :: 0 <= i < |l.swaps| && Troubled(l.swaps[i], token);
      ReportedReadiness(l, token, Ready, stale)
         == if troubled || token !in l.snapshots then NotReady
            else if stale then Degraded
            else if l.snapshots[token].readiness == Deficit then Deficit
            else Ready
    ensures forall memory | memory == NotReady || memory == Reconciling ::
      ReportedReadiness(l, token, memory, stale) == memory
    ensures forall memory :: ReportedReadiness(l, token, memory, stale) == Ready ==>
      memory == Ready && ReportedReadiness(l, token, Ready, stale) == Ready
  {
  }
}
