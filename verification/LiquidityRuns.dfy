/** Solvency over runs: no step but a checked reservation adds to what is owed. */
module LiquidityRuns {
  import opened Wrappers
  import opened SwapTypes
  import opened EvmTypes
  import opened LiquidityLedger
  import opened LiquiditySolvency
  import opened BootReconciliation
  import EvmEngine

  // ------------------------------------------------------- winding things down

  /** Rows, snapshots and balances keep their identity; nothing becomes reserved and no intent becomes active. */
  predicate Winds(l: Ledger, m: Ledger) {
    && m.snapshots == l.snapshots && m.balances == l.balances
    && |m.bookings| == |l.bookings| && |m.swaps| == |l.swaps| && |m.funds| == |l.funds|
    && (forall b :: 0 <= b < |l.bookings| ==> SettlesBooking(l.bookings[b], m.bookings[b]))
    && (forall i :: 0 <= i < |l.swaps| ==> SameSwap(l.swaps[i], m.swaps[i]))
    && (forall j :: 0 <= j < |l.funds| ==> SettlesFund(l.funds[j], m.funds[j]))
  }

  predicate SettlesBooking(b: Booking, c: Booking) {
    c.owner == b.owner && c.token == b.token && c.amount == b.amount && (c.status == Reserved ==> b.status == Reserved)
  }

  predicate SameSwap(s: Swap, t: Swap) {
    t.id == s.id && t.booking == s.booking && t.amount == s.amount && t.token == s.token
  }

  predicate SettlesFund(f: FundIntent, g: FundIntent) {
    g.swap == f.swap && (EvmEngine.Active(g.status) ==> EvmEngine.Active(f.status))
  }

  lemma WindsTwice(l: Ledger, m: Ledger, n: Ledger)
    requires Winds(l, m) && Winds(m, n)
    ensures Winds(l, n)
  {
    forall b | 0 <= b < |l.bookings| ensures SettlesBooking(l.bookings[b], n.bookings[b]) {
      assert SettlesBooking(l.bookings[b], m.bookings[b]) && SettlesBooking(m.bookings[b], n.bookings[b]);
    }
    forall i | 0 <= i < |l.swaps| ensures SameSwap(l.swaps[i], n.swaps[i]) {
      assert SameSwap(l.swaps[i], m.swaps[i]) && SameSwap(m.swaps[i], n.swaps[i]);
    }
    forall j | 0 <= j < |l.funds| ensures SettlesFund(l.funds[j], n.funds[j]) {
      assert SettlesFund(l.funds[j], m.funds[j]) && SettlesFund(m.funds[j], n.funds[j]);
    }
  }

  lemma WindsKeepsConsistency(l: Ledger, m: Ledger)
    requires Consistent(l) && Winds(l, m)
    ensures Consistent(m)
  {
    forall i | 0 <= i < |m.swaps|
      ensures SwapOk(m.bookings, m.swaps[i])
    {
      assert SwapOk(l.bookings, l.swaps[i]) && SameSwap(l.swaps[i], m.swaps[i]);
      var b := l.swaps[i].booking.value;
      assert SettlesBooking(l.bookings[b], m.bookings[b]);
    }
    forall i, j | 0 <= i < j < |m.swaps|
      ensures m.swaps[i].id != m.swaps[j].id
    {
      assert SameSwap(l.swaps[i], m.swaps[i]) && SameSwap(l.swaps[j], m.swaps[j]);
    }
    forall i, j | 0 <= i < j < |m.bookings|
      ensures m.bookings[i].owner != m.bookings[j].owner
    {
      assert SettlesBooking(l.bookings[i], m.bookings[i]) && SettlesBooking(l.bookings[j], m.bookings[j]);
    }
    WindsKeepsFunds(l, m);
  }

  lemma WindsKeepsFunds(l: Ledger, m: Ledger)
    requires FundsOk(l) && Winds(l, m)
    ensures FundsOk(m)
  {
    forall j | 0 <= j < |m.funds|
      ensures FindSwap(m.swaps, m.funds[j].swap).Some?
    {
      assert SettlesFund(l.funds[j], m.funds[j]);
      var i := FindSwap(l.swaps, l.funds[j].swap).value;
      assert SameSwap(l.swaps[i], m.swaps[i]);
    }
    forall i, j | 0 <= i < j < |m.funds|
      ensures m.funds[i].swap != m.funds[j].swap
    {
      assert SettlesFund(l.funds[i], m.funds[i]) && SettlesFund(l.funds[j], m.funds[j]);
    }
  }

  lemma {:induction false} OwedShrinks(bs: seq<Booking>, cs: seq<Booking>, fs: seq<FundIntent>, gs: seq<FundIntent>,
                                       token: nat)
    requires |bs| == |cs| && |fs| == |gs|
    requires forall b :: 0 <= b < |bs| ==> SettlesBooking(bs[b], cs[b])
    requires forall j :: 0 <= j < |fs| ==> SettlesFund(fs[j], gs[j])
    ensures OwedUnits(cs, gs, token) <= OwedUnits(bs, fs, token)
    decreases |bs|
  {
    if bs != [] {
      var n := |bs| - 1;
      OwedShrinks(bs[..n], cs[..n], fs, gs, token);
      assert SettlesBooking(bs[n], cs[n]);
      if FundActive(gs, cs[n].owner) {
        var j :| 0 <= j < |gs| && gs[j].swap == cs[n].owner && EvmEngine.Active(gs[j].status);
        assert SettlesFund(fs[j], gs[j]);
      }
    }
  }

  /** Winding down never adds to R + P, for any token. */
  lemma WindingNeverAdds(l: Ledger, m: Ledger, token: nat)
    requires Consistent(l) && Winds(l, m)
    ensures Consistent(m)
    ensures ReservedUnits(m, token) + UnresolvedUnits(m, token) <= ReservedUnits(l, token) + UnresolvedUnits(l, token)
  {
    WindsKeepsConsistency(l, m);
    CountedOnce(l, token);
    CountedOnce(m, token);
    OwedShrinks(l.bookings, m.bookings, l.funds, m.funds, token);
  }

  lemma WriteWinds(l: Ledger, b: nat, status: Reservation)
    requires b < |l.bookings| && status != Reserved
    ensures Winds(l, WriteBooking(l, b, status))
  {
  }

  lemma TransitionWinds(l: Ledger, b: nat, allowedFrom: set<Reservation>, next: Reservation)
    requires next != Reserved
    ensures TransitionLiquidity(l, b, allowedFrom, next).Some? ==>
              Winds(l, TransitionLiquidity(l, b, allowedFrom, next).value)
  {
    if TransitionLiquidity(l, b, allowedFrom, next).Some? { WriteWinds(l, b, next); }
  }

  lemma CommitAndAdvanceWinds(l: Ledger, b: nat, swap: nat)
    ensures CommitAndAdvance(l, b, swap).Some? ==> Winds(l, CommitAndAdvance(l, b, swap).value)
  {
  }

  lemma MoveFundWinds(l: Ledger, swap: nat, status: IntentStatus)
    ensures Winds(l, MoveFund(l, swap, status))
  {
  }

  lemma EditWinds(l: Ledger, swap: nat, state: SwapState, mirror: Option<Reservation>, htlcId: Option<nat>,
                  recoveryRequired: bool)
    ensures Winds(l, EditSwap(l, swap, state, mirror, htlcId, recoveryRequired))
  {
  }

  // --------------------------------------------------------------- boot winds

  lemma ByHtlcStatusWinds(l: Ledger, b: nat, status: int)
    ensures ByHtlcStatus(l, b, status).Some? ==> Winds(l, ByHtlcStatus(l, b, status).value)
  {
    TransitionWinds(l, b, {Reserved}, Committed);
    TransitionWinds(l, b, {Committed, Reserved}, ReservationSettled);
    TransitionWinds(l, b, {Committed, Reserved}, Released);
  }

  lemma EscalateWinds(l: Ledger, m: Ledger, swap: nat)
    requires Winds(l, m)
    ensures Winds(l, Escalate(m, swap))
  {
    assert Winds(m, Escalate(m, swap));
    WindsTwice(l, m, Escalate(m, swap));
  }

  lemma ResolveByManagerWinds(given: BootInput, l: Ledger, f: FundIntent, swap: Option<Swap>)
    ensures Winds(l, ResolveByManager(given, l, f, swap).ledger)
  {
    hide Winds, MoveFund, CommitAndAdvance, TransitionLiquidity, Escalate;
    WindsItself(l);
    if f.swap in given.intents && given.intents[f.swap].IntentIs? {
      var status := if EvmEngine.Active(f.status) then given.intents[f.swap].status else f.status;
      var l1 := MoveFund(l, f.swap, status);
      MoveFundWinds(l, f.swap, status);
      EscalateWinds(l, l1, f.swap);
      if swap.Some? && swap.value.booking.Some? {
        var b := swap.value.booking.value;
        CommitAndAdvanceWinds(l1, b, f.swap);
        TransitionWinds(l1, b, {Reserved}, Committed);
        if CommitAndAdvance(l1, b, f.swap).Some? { WindsTwice(l, l1, CommitAndAdvance(l1, b, f.swap).value); }
        if CommitLiquidity(l1, b).Some? { WindsTwice(l, l1, CommitLiquidity(l1, b).value); }
      }
    }
  }

  lemma WindsItself(l: Ledger)
    ensures Winds(l, l)
  {
  }

  lemma ResolveByHtlcWinds(given: BootInput, l: Ledger, f: FundIntent, swap: Swap)
    requires swap.htlcId.Some?
    ensures Winds(l, ResolveByHtlc(given, l, f, swap).ledger)
  {
    hide Winds;
    WindsItself(l);
    var r := Read(given.early, swap.htlcId.value);
    if Conclusive(r) {
      var l1 := MoveFund(l, f.swap, Confirmed);
      MoveFundWinds(l, f.swap, Confirmed);
      EscalateWinds(l, l1, f.swap);
      if swap.booking.Some? {
        ByHtlcStatusWinds(l1, swap.booking.value, r.value);
        var next := ByHtlcStatus(l1, swap.booking.value, r.value);
        if next.Some? {
          EditWinds(next.value, f.swap, StateFor(r.value), Some(StatusFor(r.value)), swap.htlcId, r.value != 1);
          WindsTwice(l, l1, next.value);
          WindsTwice(l, next.value, EditSwap(next.value, f.swap, StateFor(r.value), Some(StatusFor(r.value)),
                                             swap.htlcId, r.value != 1));
        }
      }
    }
  }

  lemma ResolveFundWinds(given: BootInput, l: Ledger, f: FundIntent, token: nat)
    ensures Winds(l, ResolveFund(given, l, f, token).ledger)
  {
    hide Winds, ResolveByManager, ResolveByHtlc;
    WindsItself(l);
    EscalateWinds(l, l, f.swap);
    var i := FindSwap(l.swaps, f.swap);
    var swap := if i.Some? then Some(l.swaps[i.value]) else None;
    var l1 := if swap.Some? && !CoordinatorSteps.Terminal(swap.value.state) && FailedFunding(f.status)
              then Escalate(l, f.swap) else l;
    if given.hasManager {
      ResolveByManagerWinds(given, l1, f, swap);
      WindsTwice(l, l1, ResolveByManager(given, l1, f, swap).ledger);
    } else if swap.Some? && swap.value.htlcId.Some? {
      ResolveByHtlcWinds(given, l1, f, swap.value);
      WindsTwice(l, l1, ResolveByHtlc(given, l1, f, swap.value).ledger);
    }
  }

  lemma {:induction false} ResolveAllWinds(given: BootInput, l: Ledger, queue: seq<FundIntent>, token: nat)
    ensures Winds(l, ResolveAll(given, l, queue, token).ledger)
    decreases |queue|
  {
    hide Winds, ResolveFund;
    WindsItself(l);
    if queue != [] {
      ResolveFundWinds(given, l, queue[0], token);
      var p := ResolveFund(given, l, queue[0], token);
      if p.Through? {
        ResolveAllWinds(given, p.ledger, queue[1..], token);
        WindsTwice(l, p.ledger, ResolveAll(given, p.ledger, queue[1..], token).ledger);
      }
    }
  }

  lemma CheckSwapWinds(given: BootInput, l: Ledger, s: Swap, token: nat)
    ensures Winds(l, CheckSwap(given, l, s, token).ledger)
  {
    hide Winds;
    WindsItself(l);
    EscalateWinds(l, l, s.id);
    if s.booking.Some? && s.htlcId.Some? && Conclusive(Read(given.late, s.htlcId.value)) {
      CommitAndAdvanceWinds(l, s.booking.value, s.id);
      ByHtlcStatusWinds(l, s.booking.value, Read(given.late, s.htlcId.value).value);
    }
  }

  lemma {:induction false} CheckAllWinds(given: BootInput, l: Ledger, queue: seq<Swap>, token: nat)
    ensures Winds(l, CheckAll(given, l, queue, token).ledger)
    decreases |queue|
  {
    hide Winds, CheckSwap;
    WindsItself(l);
    if queue != [] {
      CheckSwapWinds(given, l, queue[0], token);
      var p := CheckSwap(given, l, queue[0], token);
      if p.Through? {
        CheckAllWinds(given, p.ledger, queue[1..], token);
        WindsTwice(l, p.ledger, CheckAll(given, p.ledger, queue[1..], token).ledger);
      }
    }
  }

  lemma ReconciledWinds(given: BootInput, l: Ledger, token: nat)
    ensures Winds(l, Reconciled(given, l, token).ledger)
  {
    hide Winds, ResolveAll, CheckAll;
    ResolveAllWinds(given, l, ActiveFunds(l.funds) + StrandedFunds(l, l.funds), token);
    var p := ResolveFunds(given, l, token);
    if p.Through? {
      CheckAllWinds(given, p.ledger, NonTerminal(p.ledger.swaps), token);
      WindsTwice(l, p.ledger, CheckSwaps(given, p.ledger, token).ledger);
    }
  }

  // ---------------------------------------------------------------------- runs

  datatype Move =
    | PrepareSwap(owner: nat, token: nat, amount: int, now: int, allowFallback: bool, crash: bool)
    | StartFunding(swap: nat)
    | FundingMoves(swap: nat, status: IntentStatus)
    | CommitMove(booking: nat)
    | CommitAndAdvanceMove(booking: nat, swap: nat)
    | ReleaseMove(booking: nat)
    | RestoreMove(booking: nat)
    | SettleMove(booking: nat)
    | CoordinatorEdits(swap: nat, state: SwapState, mirror: Option<Reservation>, htlcId: Option<nat>, recovery: bool)
    | Observe(policy: FinalityPolicy, token: nat, reading: CapacityReading, now: int)
    | BootMove(given: BootInput, token: nat)

  function Else(l: Ledger, o: Option<Ledger>): Ledger { if o.Some? then o.value else l }

  /** Reserve, then write the swap row unless the process dies in between. */
  function Prepare(l: Ledger, owner: nat, token: nat, amount: int, now: int, allowFallback: bool, crash: bool): Ledger {
    var r := ReserveLiquidity(l, owner, token, amount, now, allowFallback);
    if r.reply.Granted? && !crash && r.reply.id < |r.ledger.bookings| then CreateSwap(r.ledger, owner, r.reply.id)
    else r.ledger
  }

  function Step(l: Ledger, m: Move): Ledger {
    match m
    case PrepareSwap(owner, token, amount, now, fallback, crash) =>
      Prepare(l, owner, token, amount, now, fallback, crash)
    case StartFunding(swap) => CreateFund(l, swap)
    case FundingMoves(swap, status) => MoveFund(l, swap, status)
    case CommitMove(b) => Else(l, CommitLiquidity(l, b))
    case CommitAndAdvanceMove(b, swap) => Else(l, CommitAndAdvance(l, b, swap))
    case ReleaseMove(b) => Else(l, ReleaseLiquidity(l, b))
    case RestoreMove(b) => Else(l, RestoreRefund(l, b))
    case SettleMove(b) => Else(l, SettleLiquidity(l, b))
    case CoordinatorEdits(swap, state, mirror, htlcId, recovery) => EditSwap(l, swap, state, mirror, htlcId, recovery)
    case Observe(policy, token, reading, now) => ReconcileCapacity(policy, l, token, reading, now).ledger
    case BootMove(given, token) => Boot(given, l, token).ledger
  }

  function Run(l: Ledger, moves: seq<Move>): Ledger
    decreases |moves|
  {
    if moves == [] then l else Run(Step(l, moves[0]), moves[1..])
  }

  const NoRows := Ledger([], [], [], map[], map[])

  /** A READY snapshot covers everything owed in its token. */
  predicate Solvent(l: Ledger) {
    forall t :: t in l.snapshots && l.snapshots[t].readiness == Ready ==>
      OwedUnits(l.bookings, l.funds, t) <= l.snapshots[t].capacity
  }

  predicate Safe(l: Ledger) { Consistent(l) && Solvent(l) }

  /** A step that only winds down keeps solvency. */
  lemma WindingKeepsSafety(l: Ledger, m: Ledger)
    requires Safe(l) && Winds(l, m)
    ensures Safe(m)
  {
    WindsKeepsConsistency(l, m);
    forall t | t in m.snapshots && m.snapshots[t].readiness == Ready
      ensures OwedUnits(m.bookings, m.funds, t) <= m.snapshots[t].capacity
    {
      OwedShrinks(l.bookings, m.bookings, l.funds, m.funds, t);
    }
  }

  lemma CapacityKeepsSafety(p: FinalityPolicy, l: Ledger, token: nat, reading: CapacityReading, now: int)
    requires Safe(l)
    ensures Safe(ReconcileCapacity(p, l, token, reading, now).ledger)
  {
    CountedOnce(l, token);
    var m := ReconcileCapacity(p, l, token, reading, now).ledger;
    assert m.bookings == l.bookings && m.funds == l.funds && m.swaps == l.swaps;
  }

  lemma SetReadinessKeepsSafety(l: Ledger, token: nat, r: Readiness, now: int)
    requires Safe(l) && r != Ready
    ensures Safe(SetReadiness(l, token, r, now))
  {
  }

  lemma BootKeepsSafety(given: BootInput, l: Ledger, token: nat)
    requires Safe(l)
    ensures Safe(Boot(given, l, token).ledger)
  {
    hide Safe, Winds, Reconciled, ReconcileCapacity, SetReadiness;
    var l0 := SetReadiness(l, token, Reconciling, given.now);
    SetReadinessKeepsSafety(l, token, Reconciling, given.now);
    SetReadinessKeepsSafety(l0, token, Unknown, given.now);
    SetReadinessKeepsSafety(l0, token, NotReady, given.now);
    ReconciledWinds(given, l0, token);
    var l1 := Reconciled(given, l0, token).ledger;
    WindingKeepsSafety(l0, l1);
    SetReadinessKeepsSafety(l1, token, Unknown, given.now);
    CapacityKeepsSafety(given.policy, l1, token, given.reading, given.now);
  }

  // ------------------------------------------------ the steps that add something

  lemma {:induction false} NewBookingOwes(bookings: seq<Booking>, b: Booking, funds: seq<FundIntent>, token: nat)
    requires b.status == Reserved
    ensures OwedUnits(bookings + [b], funds, token)
         == OwedUnits(bookings, funds, token) + (if b.token == token then b.amount else 0)
  {
    assert (bookings + [b])[..|bookings|] == bookings;
  }

  lemma InsertKeepsConsistency(l: Ledger, owner: nat, token: nat, amount: nat)
    requires Consistent(l)
    ensures Consistent(Insert(l, owner, token, amount).ledger)
  {
    var m := Insert(l, owner, token, amount).ledger;
    forall i | 0 <= i < |m.swaps|
      ensures SwapOk(m.bookings, m.swaps[i])
    {
      assert SwapOk(l.bookings, l.swaps[i]);
    }
  }

  /** Reserving is the only move that adds to what is owed, and it checks the headroom first. */
  lemma ReserveKeepsSafety(l: Ledger, owner: nat, token: nat, amount: int, now: int, allowFallback: bool)
    requires Safe(l)
    ensures Safe(ReserveLiquidity(l, owner, token, amount, now, allowFallback).ledger)
  {
    if amount > 0 {
      InsertKeepsConsistency(l, owner, token, amount);
      CountedOnce(l, token);
      forall t: nat
        ensures OwedUnits(l.bookings + [Booking(owner, token, amount, Reserved)], l.funds, t)
             == OwedUnits(l.bookings, l.funds, t) + (if token == t then amount else 0)
      {
        NewBookingOwes(l.bookings, Booking(owner, token, amount, Reserved), l.funds, t);
      }
      hide Consistent;
    }
  }

  lemma CreateSwapKeepsSafety(l: Ledger, owner: nat, b: nat)
    requires Safe(l) && b < |l.bookings| && l.bookings[b].owner == owner
    ensures Safe(CreateSwap(l, owner, b))
  {
    var m := CreateSwap(l, owner, b);
    if m != l {
      forall i | 0 <= i < |m.swaps|
        ensures SwapOk(m.bookings, m.swaps[i])
      {
        if i < |l.swaps| { assert SwapOk(l.bookings, l.swaps[i]); }
      }
      forall j | 0 <= j < |m.funds|
        ensures FindSwap(m.swaps, m.funds[j].swap).Some?
      {
        var i := FindSwap(l.swaps, l.funds[j].swap).value;
        assert m.swaps[i] == l.swaps[i];
      }
    }
  }

  /** Starting to fund moves an obligation from R towards P but adds none: its reservation is still held. */
  lemma CreateFundKeepsSafety(l: Ledger, swap: nat)
    requires Safe(l)
    ensures Safe(CreateFund(l, swap))
  {
    var m := CreateFund(l, swap);
    if m != l {
      var s := l.swaps[FindSwap(l.swaps, swap).value];
      assert SwapOk(l.bookings, s);
      forall t: nat
        ensures OwedUnits(m.bookings, m.funds, t) == OwedUnits(l.bookings, l.funds, t)
      {
        OneMoreFund(l.bookings, l.funds, FundIntent(swap, Created), s.booking.value, t);
      }
    }
  }

  lemma GrantedIsOwned(l: Ledger, owner: nat, token: nat, amount: int, now: int, allowFallback: bool)
    ensures var r := ReserveLiquidity(l, owner, token, amount, now, allowFallback);
      r.reply.Granted? ==> r.reply.id < |r.ledger.bookings| && r.ledger.bookings[r.reply.id].owner == owner
  {
  }

  lemma StepKeepsSafety(l: Ledger, m: Move)
    requires Safe(l)
    ensures Safe(Step(l, m))
  {
    hide Safe, Winds, ReserveLiquidity, ReconcileCapacity, Boot;
    WindsItself(l);
    match m {
      case PrepareSwap(owner, token, amount, now, fallback, crash) =>
        ReserveKeepsSafety(l, owner, token, amount, now, fallback);
        GrantedIsOwned(l, owner, token, amount, now, fallback);
        var r := ReserveLiquidity(l, owner, token, amount, now, fallback);
        if r.reply.Granted? { CreateSwapKeepsSafety(r.ledger, owner, r.reply.id); }
      case StartFunding(swap) => CreateFundKeepsSafety(l, swap);
      case FundingMoves(swap, status) =>
        MoveFundWinds(l, swap, status);
        WindingKeepsSafety(l, MoveFund(l, swap, status));
      case CommitMove(b) =>
        TransitionWinds(l, b, {Reserved}, Committed);
        WindingKeepsSafety(l, Step(l, m));
      case CommitAndAdvanceMove(b, swap) =>
        CommitAndAdvanceWinds(l, b, swap);
        WindingKeepsSafety(l, Step(l, m));
      case ReleaseMove(b) =>
        TransitionWinds(l, b, {Reserved}, Released);
        WindingKeepsSafety(l, Step(l, m));
      case RestoreMove(b) =>
        TransitionWinds(l, b, {Committed, Reserved}, Released);
        WindingKeepsSafety(l, Step(l, m));
      case SettleMove(b) =>
        TransitionWinds(l, b, {Committed, Reserved}, ReservationSettled);
        WindingKeepsSafety(l, Step(l, m));
      case CoordinatorEdits(swap, state, mirror, htlcId, recovery) =>
        EditWinds(l, swap, state, mirror, htlcId, recovery);
        WindingKeepsSafety(l, Step(l, m));
      case Observe(policy, token, reading, now) => CapacityKeepsSafety(policy, l, token, reading, now);
      case BootMove(given, token) => BootKeepsSafety(given, l, token);
    }
  }

  lemma {:induction false} RunKeepsSafety(l: Ledger, moves: seq<Move>)
    requires Safe(l)
    ensures Safe(Run(l, moves))
    decreases |moves|
  {
    hide Safe, Step;
    if moves != [] {
      StepKeepsSafety(l, moves[0]);
      RunKeepsSafety(Step(l, moves[0]), moves[1..]);
    }
  }

  // ------------------------------------------------------------- main theorems

  /** In every reachable state a READY snapshot covers R + P. */
  lemma ReadyMeansSolvent(moves: seq<Move>, token: nat)
    ensures var l := Run(NoRows, moves);
      token in l.snapshots && l.snapshots[token].readiness == Ready ==>
        ReservedUnits(l, token) + UnresolvedUnits(l, token) <= l.snapshots[token].capacity
  {
    RunKeepsSafety(NoRows, moves);
    CountedOnce(Run(NoRows, moves), token);
  }

  /** A new execution is granted liquidity exactly when the reported safe headroom of a READY snapshot covers it. */
  lemma GrantedExactly(l: Ledger, owner: nat, token: nat, amount: int, now: int, allowFallback: bool)
    requires token in l.snapshots && FindOwner(l.bookings, owner).None?
    ensures ReserveLiquidity(l, owner, token, amount, now, allowFallback).reply.Granted? <==>
      l.snapshots[token].readiness == Ready && 0 < amount <= SafeHeadroom(l, token, now)
  {
    hide ReservedUnits, UnresolvedUnits;
  }

  /** The reported headroom is never negative while the snapshot is READY, and it is all that R and P leave. */
  lemma HeadroomIsSound(moves: seq<Move>, token: nat, now: int)
    ensures var l := Run(NoRows, moves);
      token in l.snapshots && l.snapshots[token].readiness == Ready ==>
        && SafeHeadroom(l, token, now) >= 0
        && SafeHeadroom(l, token, now) + ReservedUnits(l, token) + UnresolvedUnits(l, token)
           <= l.snapshots[token].capacity
  {
    ReadyMeansSolvent(moves, token);
    hide ReservedUnits, UnresolvedUnits, Run;
  }

  predicate ReservationMove(m: Move) {
    m.CommitMove? || m.CommitAndAdvanceMove? || m.ReleaseMove? || m.RestoreMove? || m.SettleMove?
  }

  lemma SafeIsConsistent(l: Ledger)
    requires Safe(l)
    ensures Consistent(l)
  {
  }

  lemma ReservationMoveWinds(l: Ledger, m: Move)
    requires ReservationMove(m)
    ensures Winds(l, Step(l, m)) && Step(l, m).snapshots == l.snapshots
  {
    WindsItself(l);
    hide TransitionLiquidity, CommitAndAdvance;
    match m {
      case CommitMove(b) => TransitionWinds(l, b, {Reserved}, Committed);
      case CommitAndAdvanceMove(b, swap) => CommitAndAdvanceWinds(l, b, swap);
      case ReleaseMove(b) => TransitionWinds(l, b, {Reserved}, Released);
      case RestoreMove(b) => TransitionWinds(l, b, {Committed, Reserved}, Released);
      case SettleMove(b) => TransitionWinds(l, b, {Committed, Reserved}, ReservationSettled);
      case _ =>
    }
  }

  /** Commits, releases, settlements and restorations leave R + P unchanged or lower, for every token. */
  lemma ReservationMovesNeverAdd(moves: seq<Move>, m: Move, token: nat)
    requires ReservationMove(m)
    ensures var l := Run(NoRows, moves); var l' := Step(l, m);
      && ReservedUnits(l', token) + UnresolvedUnits(l', token) <= ReservedUnits(l, token) + UnresolvedUnits(l, token)
      && l'.snapshots == l.snapshots
  {
    RunKeepsSafety(NoRows, moves);
    var l := Run(NoRows, moves);
    hide Winds, Safe, Step;
    SafeIsConsistent(l);
    ReservationMoveWinds(l, m);
    WindingNeverAdds(l, Step(l, m), token);
  }

  /**
   Committing a held reservation moves its amount from R to P exactly when its
   funding is still unresolved; otherwise R + P drops by the amount.
   */
  lemma CommitConserves(moves: seq<Move>, b: nat, token: nat)
    requires b < |Run(NoRows, moves).bookings| && Run(NoRows, moves).bookings[b].status == Reserved
    ensures var l := Run(NoRows, moves); var l' := Step(l, CommitMove(b)); var k := l.bookings[b];
      ReservedUnits(l', token) + UnresolvedUnits(l', token)
        == ReservedUnits(l, token) + UnresolvedUnits(l, token)
           - (if k.token == token && !FundActive(l.funds, k.owner) then k.amount else 0)
  {
    var l := Run(NoRows, moves);
    RunKeepsSafety(NoRows, moves);
    TransitionWinds(l, b, {Reserved}, Committed);
    var l' := Step(l, CommitMove(b));
    WindsKeepsConsistency(l, l');
    CountedOnce(l, token);
    CountedOnce(l', token);
    OneLessOwed(l.bookings, b, l.funds, token);
  }

  lemma {:induction false} OneLessOwed(bookings: seq<Booking>, b: nat, funds: seq<FundIntent>, token: nat)
    requires b < |bookings| && bookings[b].status == Reserved
    ensures OwedUnits(bookings[b := bookings[b].(status := Committed)], funds, token)
         == OwedUnits(bookings, funds, token)
            - (if bookings[b].token == token && !FundActive(funds, bookings[b].owner) then bookings[b].amount else 0)
    decreases |bookings|
  {
    var n := |bookings| - 1;
    var changed := bookings[b := bookings[b].(status := Committed)];
    if b < n {
      OneLessOwed(bookings[..n], b, funds, token);
      assert changed[..n] == bookings[..n][b := bookings[b].(status := Committed)];
    } else {
      assert changed[..n] == bookings[..n];
    }
  }
}
