/**
 The liquidity tables updated in place: summing loops over rows, reservation
 transactions, and the reconciler that walks the active swaps at boot.
 */
module LiquidityStore {
  import opened Wrappers
  import opened SwapTypes
  import opened EvmTypes
  import opened LiquidityLedger
  import opened LiquiditySolvency
  import opened BootReconciliation
  import opened LiquidityRuns
  import EvmEngine
  import CoordinatorSteps
  import Rules = ReservationRules

  class Store {
    var bookings: seq<Booking>
    var swaps: seq<Swap>
    var funds: seq<FundIntent>
    var snapshots: map<nat, Snapshot>
    var balances: map<nat, int>

    function Contents(): Ledger
      reads this
    {
      Ledger(bookings, swaps, funds, snapshots, balances)
    }

    /** Rows agree with each other and every READY snapshot covers what is owed. */
    predicate Valid()
      reads this
    {
      Safe(Contents())
    }

    constructor ()
      ensures Valid() && Contents() == NoRows
    {
      bookings, swaps, funds, snapshots, balances := [], [], [], map[], map[];
    }

    // -------------------------------------------------------------------- sums

    method GetOperatorBalance(token: nat, status: Reservation) returns (sum: nat)
      ensures sum == SumByStatus(bookings, token, status)
    {
      sum := 0;
      for b := 0 to |bookings|
        invariant sum == SumByStatus(bookings[..b], token, status)
      {
        assert bookings[..b + 1][..b] == bookings[..b];
        if bookings[b].token == token && bookings[b].status == status { sum := sum + bookings[b].amount; }
      }
      assert bookings[..|bookings|] == bookings;
    }

    /** P: one pass over the FUND intents, skipping those whose reservation R already counts. */
    method GetUnresolvedFundingIntentsAmount(token: nat) returns (sum: nat)
      ensures sum == UnresolvedUnits(Contents(), token)
    {
      sum := 0;
      for j := 0 to |funds|
        invariant sum == SumExposure(Contents(), funds[..j], token)
      {
        assert funds[..j + 1][..j] == funds[..j];
        if EvmEngine.Active(funds[j].status) {
          var i := FindSwap(swaps, funds[j].swap);
          if i.Some? && OfToken(swaps[i.value], token) && !BookingReserved(Contents(), swaps[i.value].booking) {
            sum := sum + swaps[i.value].amount;
          }
        }
      }
      assert funds[..|funds|] == funds;
    }

    // ------------------------------------------------------------ reservations

    method Reserve(owner: nat, token: nat, amount: int, now: int, allowFallback: bool) returns (reply: ReserveReply)
      requires Valid()
      modifies this`bookings, this`snapshots
      ensures var r := ReserveLiquidity(old(Contents()), owner, token, amount, now, allowFallback);
        Contents() == r.ledger && reply == r.reply
      ensures Valid()
    {
      ReserveKeepsSafety(Contents(), owner, token, amount, now, allowFallback);
      hide Safe;
      if amount <= 0 { return Failed(InvalidAmount); }
      var existing := FindOwner(bookings, owner);
      if existing.Some?
         && (bookings[existing.value].status == Reserved || bookings[existing.value].status == Committed)
      {
        return Granted(existing.value);
      }
      var available;
      if token in snapshots {
        var s := snapshots[token];
        if s.freshUntil < now {
          snapshots := snapshots[token := s.(readiness := Degraded)];
          return Failed(StaleSnapshot);
        }
        match s.readiness {
          case Deficit => return Failed(InDeficit);
          case Unknown => return Failed(InventoryUnavailable);
          case Degraded => return Failed(InventoryUnavailable);
          case NotReady => return Failed(InventoryNotReady);
          case Reconciling => return Failed(InventoryNotReady);
          case Ready =>
        }
        var reserved := GetOperatorBalance(token, Reserved);
        var unresolved := GetUnresolvedFundingIntentsAmount(token);
        available := s.capacity - reserved - unresolved;
        if available < 0 {
          snapshots := snapshots[token := s.(readiness := Deficit)];
          return Failed(InDeficit);
        }
      } else {
        if !allowFallback { return Failed(InventoryNotReady); }
        var confirmed := if token in balances then balances[token] else 0;
        var reserved := GetOperatorBalance(token, Reserved);
        var committed := GetOperatorBalance(token, Committed);
        available := confirmed - reserved - committed;
      }
      if available < amount { return Insufficient; }
      if existing.Some? { return Failed(OwnerExists); }
      bookings := bookings + [Booking(owner, token, amount, Reserved)];
      reply := Granted(|bookings| - 1);
    }

    /** Writes the reservation and mirrors the status into the swap rows that refer to it. */
    method TransitionReservation(b: nat, allowedFrom: set<Reservation>, next: Reservation) returns (ok: bool)
      requires Valid() && next != Reserved
      modifies this`bookings, this`swaps
      ensures ok == TransitionLiquidity(old(Contents()), b, allowedFrom, next).Some?
      ensures Contents() == Else(old(Contents()), TransitionLiquidity(old(Contents()), b, allowedFrom, next))
      ensures Valid()
    {
      TransitionWinds(Contents(), b, allowedFrom, next);
      var target := Else(Contents(), TransitionLiquidity(Contents(), b, allowedFrom, next));
      WindsItself(Contents());
      WindingKeepsSafety(Contents(), target);
      hide Safe, Winds;
      if b >= |bookings| { return false; }
      var status := bookings[b].status;
      if status !in allowedFrom && status != next { return false; }
      bookings := bookings[b := bookings[b].(status := next)];
      var before := swaps;
      for i := 0 to |before|
        invariant |swaps| == |before| && bookings == old(bookings)[b := old(bookings)[b].(status := next)]
        invariant forall k :: 0 <= k < i ==> swaps[k] == Mirrored(before, b, next)[k]
        invariant forall k :: i <= k < |before| ==> swaps[k] == before[k]
      {
        if swaps[i].booking == Some(b) { swaps := swaps[i := swaps[i].(mirror := Some(next))]; }
      }
      assert swaps == Mirrored(before, b, next);
      ok := true;
    }

    method CommitReservationAndAdvanceSwapToFunded(b: nat, swap: nat) returns (ok: bool)
      requires Valid()
      modifies this`bookings, this`swaps
      ensures ok == CommitAndAdvance(old(Contents()), b, swap).Some?
      ensures Contents() == Else(old(Contents()), CommitAndAdvance(old(Contents()), b, swap))
      ensures Valid()
    {
      CommitAndAdvanceWinds(Contents(), b, swap);
      WindsItself(Contents());
      WindingKeepsSafety(Contents(), Else(Contents(), CommitAndAdvance(Contents(), b, swap)));
      hide Safe, Winds;
      if b >= |bookings| { return false; }
      if bookings[b].owner != swap { return false; }
      if bookings[b].status != Reserved && bookings[b].status != Committed { return false; }
      var i := FindSwap(swaps, swap);
      if i.None? { return false; }
      if swaps[i.value].booking != Some(b) { return false; }
      var state := swaps[i.value].state;
      if state == EvmFundingPending { state := EvmFunded; }
      bookings := bookings[b := bookings[b].(status := Committed)];
      swaps := swaps[i.value := swaps[i.value].(mirror := Some(Committed), state := state)];
      ok := true;
    }

    method MarkSovereignRecoveryRequired(swap: nat)
      requires Valid()
      modifies this`swaps
      ensures Contents() == Escalate(old(Contents()), swap) && Valid()
    {
      WindsItself(Contents());
      EscalateWinds(Contents(), Contents(), swap);
      WindingKeepsSafety(Contents(), Escalate(Contents(), swap));
      hide Safe, Winds;
      var i := FindSwap(swaps, swap);
      if i.Some? { swaps := swaps[i.value := swaps[i.value].(state := RecoveryRequired, recoveryRequired := true)]; }
    }

    // -------------------------------------------------------------- reconciler

    method ExecuteCapacityReconciliation(p: FinalityPolicy, token: nat, reading: CapacityReading, now: int)
      returns (readiness: Readiness, headroom: int)
      requires Valid()
      modifies this`snapshots, this`balances
      ensures var v := ReconcileCapacity(p, old(Contents()), token, reading, now);
        Contents() == v.ledger && readiness == v.readiness && headroom == v.headroom
      ensures Valid()
    {
      CapacityKeepsSafety(p, Contents(), token, reading, now);
      hide Safe;
      if reading.CapacityUnknown? || !reading.sameChain || !FinalityAgrees(p, reading.latest, reading.finalized) {
        SetInventoryReadinessState(token, Unknown, now);
        return Unknown, 0;
      }
      var reserved := GetOperatorBalance(token, Reserved);
      var unresolved := GetUnresolvedFundingIntentsAmount(token);
      headroom := reading.capacity - reserved - unresolved;
      if headroom < 0 {
        snapshots := snapshots[token := Snapshot(reading.capacity, Deficit, now + p.maxFreshness)];
        return Deficit, 0;
      }
      snapshots := snapshots[token := Snapshot(reading.capacity, Ready, now + p.maxFreshness)];
      balances := balances[token := reading.capacity];
      readiness := Ready;
    }

    method SetInventoryReadinessState(token: nat, r: Readiness, now: int)
      requires r != Ready
      modifies this`snapshots
      ensures Contents() == SetReadiness(old(Contents()), token, r, now)
      ensures old(Valid()) ==> Valid()
    {
      if Valid() { SetReadinessKeepsSafety(Contents(), token, r, now); }
      hide Safe;
      if token in snapshots {
        snapshots := snapshots[token := snapshots[token].(readiness := r)];
      } else {
        snapshots := snapshots[token := Snapshot(0, r, now + 60_000)];
      }
    }

    /** The HTLC of one swap decides its reservation; any doubt stops the reconciliation. */
    method ObserveActiveSwap(given: BootInput, s: Swap) returns (ok: bool)
      requires Valid()
      modifies this`bookings, this`swaps
      ensures var p := ObserveSwap(given, old(Contents()), s); Contents() == p.ledger && ok == p.Through?
      ensures Valid()
    {
      hide Safe, TransitionLiquidity, CommitAndAdvance, Escalate;
      if !given.hasHtlcQuery || s.htlcId.None? { return false; }
      var r := Read(given.late, s.htlcId.value);
      if !Conclusive(r) { return false; }
      if s.booking.None? {
        MarkSovereignRecoveryRequired(s.id);
        return false;
      }
      if r.value == 1 {
        ok := CommitReservationAndAdvanceSwapToFunded(s.booking.value, s.id);
      } else if r.value == 2 {
        ok := TransitionReservation(s.booking.value, {Committed, Reserved}, ReservationSettled);
      } else {
        ok := TransitionReservation(s.booking.value, {Committed, Reserved}, Released);
      }
      if !ok { MarkSovereignRecoveryRequired(s.id); }
    }

    method CheckActiveSwap(given: BootInput, s: Swap, token: nat) returns (ok: bool)
      requires Valid()
      modifies this`bookings, this`swaps
      ensures var p := CheckSwap(given, old(Contents()), s, token); Contents() == p.ledger && ok == p.Through?
      ensures Valid()
    {
      hide Safe, ObserveSwap;
      if !OfToken(s, token) || BeforeFunding(s.state) { return true; }
      if s.state == EvmFundingPending {
        var i := FindFund(funds, s.id);
        if i.None? { return false; }
        if EvmEngine.Active(funds[i.value].status) { return true; }
        if funds[i.value].status != Confirmed { return false; }
      } else if !RequiresHtlc(s.state) {
        return false;
      }
      ok := ObserveActiveSwap(given, s);
    }

    /** Visits the swaps that were non-terminal when it began, in order, and stops at the first exception. */
    method ReconcileActiveSwaps(given: BootInput, token: nat) returns (ok: bool)
      requires Valid()
      modifies this`bookings, this`swaps
      ensures var p := CheckSwaps(given, old(Contents()), token); Contents() == p.ledger && ok == p.Through?
      ensures Valid()
    {
      hide Safe, CheckSwap;
      var queue := NonTerminal(swaps);
      var n := 0;
      while n < |queue|
        invariant n <= |queue| && Valid()
        invariant CheckAll(given, old(Contents()), queue, token) == CheckAll(given, Contents(), queue[n..], token)
      {
        ok := CheckActiveSwap(given, queue[n], token);
        if !ok { return; }
        assert queue[n..][1..] == queue[n + 1..];
        n := n + 1;
      }
      ok := true;
    }
  }
}
