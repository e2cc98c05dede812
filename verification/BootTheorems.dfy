/** READY after boot means that the books match the chain; any doubt means not READY. */
module BootTheorems {
  import opened Wrappers
  import opened SwapTypes
  import opened EvmTypes
  import opened LiquidityLedger
  import opened LiquiditySolvency
  import opened BootReconciliation
  import opened LiquidityRuns
  import EvmEngine
  import CoordinatorSteps

  /** Reservation and mirror are COMMITTED, SETTLED or RELEASED exactly as the HTLC was observed 1, 2 or 3. */
  predicate Matches(given: BootInput, l: Ledger, s: Swap) {
    && s.htlcId.Some? && Conclusive(Read(given.late, s.htlcId.value))
    && s.booking.Some? && s.booking.value < |l.bookings|
    && l.bookings[s.booking.value].status == StatusFor(Read(given.late, s.htlcId.value).value)
    && s.mirror == Some(StatusFor(Read(given.late, s.htlcId.value).value))
  }

  /** The HTLC of the swap was observed locked. */
  predicate SeenLocked(given: BootInput, s: Swap) {
    s.htlcId.Some? && Read(given.late, s.htlcId.value) == HtlcStatus(1)
  }

  predicate FundIs(l: Ledger, swap: nat, status: IntentStatus) {
    FindFund(l.funds, swap).Some? && l.funds[FindFund(l.funds, swap).value].status == status
  }

  predicate FundIsActive(l: Ledger, swap: nat) {
    FindFund(l.funds, swap).Some? && EvmEngine.Active(l.funds[FindFund(l.funds, swap).value].status)
  }

  /** What a non-terminal swap of the token looks like once boot has passed over it. */
  predicate Checked(given: BootInput, l: Ledger, s: Swap, token: nat) {
    || !OfToken(s, token)
    || BeforeFunding(s.state)
    || (s.state == EvmFundingPending && FundIsActive(l, s.id))
    || (s.state == EvmFundingPending && FundIs(l, s.id, Confirmed) && Matches(given, l, s) && !SeenLocked(given, s))
    || (RequiresHtlc(s.state) && Matches(given, l, s))
  }

  /** The row and its reservation are untouched. */
  predicate Untouched(l: Ledger, m: Ledger, k: nat) {
    && k < |l.swaps| && k < |m.swaps| && m.swaps[k] == l.swaps[k]
    && l.swaps[k].booking.Some? && l.swaps[k].booking.value < |l.bookings| && l.swaps[k].booking.value < |m.bookings|
    && m.bookings[l.swaps[k].booking.value] == l.bookings[l.swaps[k].booking.value]
  }

  lemma RowIsFound(l: Ledger, k: nat)
    requires SwapsOk(l) && k < |l.swaps|
    ensures FindSwap(l.swaps, l.swaps[k].id) == Some(k)
  {
  }

  /** Writing one reservation touches no swap but its owner. */
  lemma OthersUntouched(l: Ledger, k: nat, j: nat, m: Ledger)
    requires Consistent(l) && k < |l.swaps| && j < |l.swaps| && j != k
    requires |m.swaps| == |l.swaps| && |m.bookings| == |l.bookings|
    requires forall i :: 0 <= i < |l.swaps| && l.swaps[i].booking != l.swaps[k].booking ==> m.swaps[i] == l.swaps[i]
    requires forall b :: 0 <= b < |l.bookings| && Some(b) != l.swaps[k].booking ==> m.bookings[b] == l.bookings[b]
    ensures Untouched(l, m, j)
  {
    assert SwapOk(l.bookings, l.swaps[k]) && SwapOk(l.bookings, l.swaps[j]);
  }

  predicate OnlyRow(l: Ledger, m: Ledger, k: nat) {
    && |m.swaps| == |l.swaps|
    && forall j :: 0 <= j < |l.swaps| && j != k ==> Untouched(l, m, j)
  }

  lemma ObserveSwapChecks(given: BootInput, l: Ledger, k: nat, token: nat)
    requires Consistent(l) && k < |l.swaps| && ObserveSwap(given, l, l.swaps[k]).Through?
    requires RequiresHtlc(l.swaps[k].state)
             || (l.swaps[k].state == EvmFundingPending && FundIs(l, l.swaps[k].id, Confirmed))
    ensures var m := ObserveSwap(given, l, l.swaps[k]).ledger;
      m.funds == l.funds && OnlyRow(l, m, k) && Checked(given, m, m.swaps[k], token)
      && m.swaps[k].id == l.swaps[k].id
  {
    var s := l.swaps[k];
    RowIsFound(l, k);
    var r := Read(given.late, s.htlcId.value).value;
    if r == 1 {
      CommitTouchesOneRow(l, k);
    } else {
      hide CommitAndAdvance;
      WriteTouchesOneRow(l, k, StatusFor(r));
    }
  }

  lemma CommitTouchesOneRow(l: Ledger, k: nat)
    requires Consistent(l) && k < |l.swaps| && FindSwap(l.swaps, l.swaps[k].id) == Some(k)
    requires l.swaps[k].booking.Some? && CommitAndAdvance(l, l.swaps[k].booking.value, l.swaps[k].id).Some?
    ensures var m := CommitAndAdvance(l, l.swaps[k].booking.value, l.swaps[k].id).value; OnlyRow(l, m, k)
  {
    var m := CommitAndAdvance(l, l.swaps[k].booking.value, l.swaps[k].id).value;
    forall j | 0 <= j < |l.swaps| && j != k
      ensures Untouched(l, m, j)
    {
      OthersUntouched(l, k, j, m);
    }
  }

  lemma WriteTouchesOneRow(l: Ledger, k: nat, status: Reservation)
    requires Consistent(l) && k < |l.swaps| && l.swaps[k].booking.Some? && l.swaps[k].booking.value < |l.bookings|
    ensures OnlyRow(l, WriteBooking(l, l.swaps[k].booking.value, status), k)
  {
    var m := WriteBooking(l, l.swaps[k].booking.value, status);
    forall j | 0 <= j < |l.swaps| && j != k
      ensures Untouched(l, m, j)
    {
      OthersUntouched(l, k, j, m);
    }
  }

  lemma CheckSwapChecks(given: BootInput, l: Ledger, k: nat, token: nat)
    requires Consistent(l) && k < |l.swaps| && !CoordinatorSteps.Terminal(l.swaps[k].state)
    requires CheckSwap(given, l, l.swaps[k], token).Through?
    ensures var m := CheckSwap(given, l, l.swaps[k], token).ledger;
      m.funds == l.funds && OnlyRow(l, m, k) && Checked(given, m, m.swaps[k], token)
      && m.swaps[k].id == l.swaps[k].id
  {
    hide ObserveSwap, Matches;
    var s := l.swaps[k];
    if RequiresHtlc(s.state) || (s.state == EvmFundingPending && FundIs(l, s.id, Confirmed)) {
      if OfToken(s, token) {
        ObserveSwapChecks(given, l, k, token);
      } else {
        NothingTouched(l);
      }
    } else {
      NothingTouched(l);
    }
  }

  lemma NothingTouched(l: Ledger)
    requires Consistent(l)
    ensures forall j :: 0 <= j < |l.swaps| ==> Untouched(l, l, j)
  {
    forall j | 0 <= j < |l.swaps|
      ensures Untouched(l, l, j)
    {
      assert SwapOk(l.bookings, l.swaps[j]);
    }
  }

  predicate Queued(queue: seq<Swap>, id: nat) { exists n :: 0 <= n < |queue| && queue[n].id == id }

  predicate ProperQueue(l: Ledger, queue: seq<Swap>) {
    && (forall a, b :: 0 <= a < b < |queue| ==> queue[a].id != queue[b].id)
    && (forall a :: 0 <= a < |queue| ==>
          !CoordinatorSteps.Terminal(queue[a].state)
          && FindSwap(l.swaps, queue[a].id).Some? && l.swaps[FindSwap(l.swaps, queue[a].id).value] == queue[a])
  }

  lemma {:induction false} CheckAllChecks(given: BootInput, l: Ledger, queue: seq<Swap>, token: nat)
    requires Consistent(l) && ProperQueue(l, queue) && CheckAll(given, l, queue, token).Through?
    ensures var m := CheckAll(given, l, queue, token).ledger;
      m.funds == l.funds && |m.swaps| == |l.swaps|
      && forall k :: 0 <= k < |l.swaps| ==>
           if Queued(queue, l.swaps[k].id) then Checked(given, m, m.swaps[k], token) else Untouched(l, m, k)
    decreases |queue|
  {
    if queue == [] {
      forall k | 0 <= k < |l.swaps| ensures Untouched(l, l, k) { assert SwapOk(l.bookings, l.swaps[k]); }
    } else {
      var rest := queue[1..];
      var k0 := FindSwap(l.swaps, queue[0].id).value;
      CheckSwapChecks(given, l, k0, token);
      CheckSwapWinds(given, l, queue[0], token);
      var l1 := CheckSwap(given, l, queue[0], token).ledger;
      WindsKeepsConsistency(l, l1);
      RestIsProper(l, l1, queue, k0);
      CheckAllChecks(given, l1, rest, token);
      var m := CheckAll(given, l1, rest, token).ledger;
      forall k | 0 <= k < |l.swaps|
        ensures if Queued(queue, l.swaps[k].id) then Checked(given, m, m.swaps[k], token) else Untouched(l, m, k)
      {
        OneRowChecked(given, l, l1, m, queue, k0, k, token);
      }
    }
  }

  /** A row is either the one just checked, one still queued, or one that stays untouched throughout. */
  lemma OneRowChecked(given: BootInput, l: Ledger, l1: Ledger, m: Ledger, queue: seq<Swap>, k0: nat, k: nat, token: nat)
    requires Consistent(l) && Consistent(l1) && queue != []
    requires k0 < |l.swaps| == |l1.swaps| == |m.swaps| && k < |l.swaps|
    requires l.swaps[k0].id == queue[0].id == l1.swaps[k0].id && OnlyRow(l, l1, k0)
    requires forall a, b :: 0 <= a < b < |queue| ==> queue[a].id != queue[b].id
    requires m.funds == l1.funds && Checked(given, l1, l1.swaps[k0], token)
    requires if Queued(queue[1..], l1.swaps[k].id) then Checked(given, m, m.swaps[k], token) else Untouched(l1, m, k)
    ensures if Queued(queue, l.swaps[k].id) then Checked(given, m, m.swaps[k], token) else Untouched(l, m, k)
  {
    QueuedSplits(queue, l.swaps[k].id);
    if k == k0 {
      assert !Queued(queue[1..], l1.swaps[k].id);
    } else {
      assert Untouched(l, l1, k);
      assert l.swaps[k].id != queue[0].id;
    }
  }

  lemma QueuedSplits(queue: seq<Swap>, id: nat)
    requires queue != []
    ensures Queued(queue, id) <==> queue[0].id == id || Queued(queue[1..], id)
  {
    if Queued(queue[1..], id) {
      var n :| 0 <= n < |queue[1..]| && queue[1..][n].id == id;
      assert queue[n + 1].id == id;
    }
  }

  lemma RestIsProper(l: Ledger, l1: Ledger, queue: seq<Swap>, k0: nat)
    requires Consistent(l) && Consistent(l1) && ProperQueue(l, queue) && queue != []
    requires k0 < |l.swaps| && l.swaps[k0].id == queue[0].id && OnlyRow(l, l1, k0)
    ensures ProperQueue(l1, queue[1..])
  {
    var rest := queue[1..];
    forall a | 0 <= a < |rest|
      ensures !CoordinatorSteps.Terminal(rest[a].state)
        && FindSwap(l1.swaps, rest[a].id).Some? && l1.swaps[FindSwap(l1.swaps, rest[a].id).value] == rest[a]
    {
      assert rest[a] == queue[a + 1];
      var k := FindSwap(l.swaps, rest[a].id).value;
      assert Untouched(l, l1, k);
      RowIsFound(l1, k);
    }
  }

  lemma {:induction false} NonTerminalIsProper(swaps: seq<Swap>)
    requires forall i, j :: 0 <= i < j < |swaps| ==> swaps[i].id != swaps[j].id
    ensures forall a, b :: 0 <= a < b < |NonTerminal(swaps)| ==> NonTerminal(swaps)[a].id != NonTerminal(swaps)[b].id
    ensures forall s :: s in NonTerminal(swaps) <==> s in swaps && !CoordinatorSteps.Terminal(s.state)
    decreases |swaps|
  {
    if swaps != [] {
      var n := |swaps| - 1;
      NonTerminalIsProper(swaps[..n]);
      assert swaps == swaps[..n] + [swaps[n]];
    }
  }

  lemma QueueIsProper(l: Ledger)
    requires Consistent(l)
    ensures ProperQueue(l, NonTerminal(l.swaps))
  {
    NonTerminalIsProper(l.swaps);
    var q := NonTerminal(l.swaps);
    forall a | 0 <= a < |q|
      ensures FindSwap(l.swaps, q[a].id).Some? && l.swaps[FindSwap(l.swaps, q[a].id).value] == q[a]
    {
      assert q[a] in q;
      var k :| 0 <= k < |l.swaps| && l.swaps[k] == q[a];
      RowIsFound(l, k);
    }
  }

  lemma CheckSwapsChecks(given: BootInput, l: Ledger, token: nat)
    requires Consistent(l) && CheckSwaps(given, l, token).Through?
    ensures var m := CheckSwaps(given, l, token).ledger;
      forall k :: 0 <= k < |m.swaps| && !CoordinatorSteps.Terminal(m.swaps[k].state) ==>
        Checked(given, m, m.swaps[k], token)
  {
    var q := NonTerminal(l.swaps);
    QueueIsProper(l);
    NonTerminalIsProper(l.swaps);
    CheckAllChecks(given, l, q, token);
    var m := CheckSwaps(given, l, token).ledger;
    forall k | 0 <= k < |m.swaps|
      ensures CoordinatorSteps.Terminal(m.swaps[k].state) || Checked(given, m, m.swaps[k], token)
    {
      if !CoordinatorSteps.Terminal(l.swaps[k].state) {
        assert l.swaps[k] in q;
        assert Queued(q, l.swaps[k].id);
      }
    }
  }

  predicate OpenOf(s: Swap, token: nat) { !CoordinatorSteps.Terminal(s.state) && OfToken(s, token) }

  /** What READY from boot promises about one row. */
  predicate BooksMatch(given: BootInput, l: Ledger, s: Swap) {
    && s.state != RecoveryRequired && s.state != ManualReview
    && (RequiresHtlc(s.state) ==> Matches(given, l, s))
    && (s.state == EvmFundingPending ==>
          FundIsActive(l, s.id) || (FundIs(l, s.id, Confirmed) && Matches(given, l, s) && !SeenLocked(given, s)))
  }

  lemma ReachedIsConsistent(moves: seq<Move>)
    ensures Consistent(Run(NoRows, moves))
  {
    hide Run;
    RunKeepsSafety(NoRows, moves);
  }

  /**
   READY after boot: every non-terminal swap of the token that must have an
   HTLC has its reservation exactly as the HTLC was observed, none waits for
   recovery or review, and the headroom is what the snapshot leaves after R and P.
   */
  lemma ReadyMeansBooksMatch(moves: seq<Move>, given: BootInput, token: nat)
    requires Boot(given, Run(NoRows, moves), token).readiness == Ready
    ensures var v := Boot(given, Run(NoRows, moves), token);
      && (forall k :: 0 <= k < |v.ledger.swaps| && OpenOf(v.ledger.swaps[k], token) ==>
            BooksMatch(given, v.ledger, v.ledger.swaps[k]))
      && token in v.ledger.snapshots && v.ledger.snapshots[token].readiness == Ready
      && v.headroom == v.ledger.snapshots[token].capacity - ReservedUnits(v.ledger, token)
                       - UnresolvedUnits(v.ledger, token)
      && v.headroom >= 0
  {
    hide Boot, Run, BooksMatch, OpenOf, ReservedUnits, UnresolvedUnits, Consistent;
    ReachedIsConsistent(moves);
    BootReadyFrom(given, Run(NoRows, moves), token);
  }

  /** A READY boot went through every phase. */
  lemma ReadyWentThrough(given: BootInput, l: Ledger, token: nat)
    requires Boot(given, l, token).readiness == Ready
    ensures var p1 := ResolveFunds(given, SetReadiness(l, token, Reconciling, given.now), token);
      && p1.Through? && CheckSwaps(given, p1.ledger, token).Through?
      && Boot(given, l, token)
           == ReconcileCapacity(given.policy, CheckSwaps(given, p1.ledger, token).ledger, token, given.reading,
                                given.now)
  {
    hide ResolveFunds, CheckSwaps, ReconcileCapacity;
  }

  lemma ResolvedIsConsistent(given: BootInput, l: Ledger, token: nat)
    requires Consistent(l)
    ensures Consistent(ResolveFunds(given, SetReadiness(l, token, Reconciling, given.now), token).ledger)
  {
    var l0 := SetReadiness(l, token, Reconciling, given.now);
    assert l0.bookings == l.bookings && l0.swaps == l.swaps && l0.funds == l.funds;
    assert Consistent(l0);
    hide ResolveAll, Winds, Consistent;
    ResolveAllWinds(given, l0, ActiveFunds(l0.funds) + StrandedFunds(l0, l0.funds), token);
    WindsKeepsConsistency(l0, ResolveFunds(given, l0, token).ledger);
  }

  lemma BootReadyFrom(given: BootInput, l: Ledger, token: nat)
    requires Consistent(l) && Boot(given, l, token).readiness == Ready
    ensures var v := Boot(given, l, token);
      && (forall k :: 0 <= k < |v.ledger.swaps| && OpenOf(v.ledger.swaps[k], token) ==>
            BooksMatch(given, v.ledger, v.ledger.swaps[k]))
      && token in v.ledger.snapshots && v.ledger.snapshots[token].readiness == Ready
      && v.headroom == Headroom(v.ledger, token, v.ledger.snapshots[token].capacity) && v.headroom >= 0
  {
    hide Boot, ReconcileCapacity, Consistent, ResolveFunds, CheckSwaps, SetReadiness, Headroom;
    ReadyWentThrough(given, l, token);
    ResolvedIsConsistent(given, l, token);
    var l1 := ResolveFunds(given, SetReadiness(l, token, Reconciling, given.now), token).ledger;
    CheckSwapsChecks(given, l1, token);
    var l2 := CheckSwaps(given, l1, token).ledger;
    var v := Boot(given, l, token);
    ReadyCapacity(given, l2, token);
    forall k | 0 <= k < |v.ledger.swaps| && OpenOf(v.ledger.swaps[k], token)
      ensures BooksMatch(given, v.ledger, v.ledger.swaps[k])
    {
      assert Checked(given, l2, l2.swaps[k], token);
    }
  }

  lemma ReadyCapacity(given: BootInput, l: Ledger, token: nat)
    requires ReconcileCapacity(given.policy, l, token, given.reading, given.now).readiness == Ready
    ensures var v := ReconcileCapacity(given.policy, l, token, given.reading, given.now);
      && v.ledger.bookings == l.bookings && v.ledger.swaps == l.swaps && v.ledger.funds == l.funds
      && token in v.ledger.snapshots && v.ledger.snapshots[token].readiness == Ready
      && v.headroom == Headroom(v.ledger, token, v.ledger.snapshots[token].capacity) && v.headroom >= 0
  {
    var m := ReconcileCapacity(given.policy, l, token, given.reading, given.now).ledger;
    SameTables(l, m, m.funds, token);
  }

  lemma {:induction false} SameTables(l: Ledger, m: Ledger, funds: seq<FundIntent>, token: nat)
    requires m.bookings == l.bookings && m.swaps == l.swaps && funds <= m.funds
    ensures SumExposure(l, funds, token) == SumExposure(m, funds, token)
    decreases |funds|
  {
    if funds != [] { SameTables(l, m, funds[..|funds| - 1], token); }
  }

  // ------------------------------------------------------------- failing closed

  predicate Observed(given: BootInput, s: Swap) { s.htlcId.Some? && Conclusive(Read(given.late, s.htlcId.value)) }

  lemma {:induction false} UnobservedHalts(given: BootInput, l: Ledger, queue: seq<Swap>, token: nat, n: nat)
    requires n < |queue| && OfToken(queue[n], token) && NeedsObservation(l, queue[n]) && !Observed(given, queue[n])
    ensures CheckAll(given, l, queue, token).Halted?
    decreases |queue|
  {
    var p := CheckSwap(given, l, queue[0], token);
    if n > 0 && p.Through? {
      assert p.ledger.funds == l.funds;
      UnobservedHalts(given, p.ledger, queue[1..], token, n - 1);
    }
  }

  /**
   One failed, malformed or absent observation among the swaps that need one
   makes boot report something other than READY and grant no headroom.
   */
  lemma FailedObservationIsNotReady(given: BootInput, l: Ledger, token: nat, k: nat)
    requires given.chainValid == Some(true)
    requires var p := ResolveFunds(given, SetReadiness(l, token, Reconciling, given.now), token);
      p.Through? && k < |p.ledger.swaps| && !CoordinatorSteps.Terminal(p.ledger.swaps[k].state)
      && OfToken(p.ledger.swaps[k], token) && NeedsObservation(p.ledger, p.ledger.swaps[k])
      && !Observed(given, p.ledger.swaps[k])
    ensures Boot(given, l, token).readiness == Unknown && Boot(given, l, token).headroom == 0
  {
    var l1 := ResolveFunds(given, SetReadiness(l, token, Reconciling, given.now), token).ledger;
    QueueContains(l1.swaps, k);
    var q := NonTerminal(l1.swaps);
    var n :| 0 <= n < |q| && q[n] == l1.swaps[k];
    UnobservedHalts(given, l1, q, token, n);
  }

  lemma {:induction false} QueueContains(swaps: seq<Swap>, k: nat)
    requires k < |swaps| && !CoordinatorSteps.Terminal(swaps[k].state)
    ensures swaps[k] in NonTerminal(swaps)
    decreases |swaps|
  {
    var n := |swaps| - 1;
    if k < n { QueueContains(swaps[..n], k); }
  }

  // ------------------------------------------------------ the recovery flag

  /**
   Boot looks at states, not at the recovery flag: after a READY boot the
   reported readiness is READY exactly when no open swap of the token carries
   the flag.
   */
  lemma FlagDecidesAfterBoot(moves: seq<Move>, given: BootInput, token: nat)
    requires Boot(given, Run(NoRows, moves), token).readiness == Ready
    ensures var l := Boot(given, Run(NoRows, moves), token).ledger;
      ReportedReadiness(l, token, Ready, false) == Ready <==>
        forall k :: 0 <= k < |l.swaps| && OpenOf(l.swaps[k], token) ==> !l.swaps[k].recoveryRequired
  {
    ReadyMeansBooksMatch(moves, given, token);
    var l := Boot(given, Run(NoRows, moves), token).ledger;
    forall k | 0 <= k < |l.swaps| && OpenOf(l.swaps[k], token)
      ensures l.swaps[k].state != RecoveryRequired && l.swaps[k].state != ManualReview
    {
      assert BooksMatch(given, l, l.swaps[k]);
    }
  }

  const Token: nat := 7

  const Lenient := FinalityPolicy(0, 0, 0)

  const Plenty := CapacityReading(true, 0, 0, 100)

  const FlaggedSwap := Swap(1, Some(0), 5, Some(Token), LightningHeld, None, None, true)

  const FlaggedLedger := Ledger([Booking(1, Token, 5, Reserved)], [FlaggedSwap], [],
                                map[Token := Snapshot(100, Ready, 0)], map[Token := 100])

  const QuietBoot := BootInput(Some(true), false, false, map[], map[], map[], Plenty, Lenient, 0)

  lemma FlaggedIsReachable()
    ensures exists moves: seq<Move> :: Run(NoRows, moves) == FlaggedLedger
  {
    var a := Observe(Lenient, Token, Plenty, 0);
    var b := PrepareSwap(1, Token, 5, 0, false, false);
    var c := CoordinatorEdits(1, LightningHeld, None, None, true);
    var l1 := Ledger([], [], [], map[Token := Snapshot(100, Ready, 0)], map[Token := 100]);
    assert Step(NoRows, a) == l1;
    var l2 := l1.(bookings := [Booking(1, Token, 5, Reserved)],
                  swaps := [Swap(1, Some(0), 5, Some(Token), PlanPrepared, Some(Reserved), None, false)]);
    assert Step(l1, b) == l2;
    assert Step(l2, c) == FlaggedLedger;
    assert Run(l2, [c]) == Run(FlaggedLedger, []);
    assert Run(l1, [b, c]) == Run(l2, [c]);
    assert Run(NoRows, [a, b, c]) == Run(l1, [b, c]);
  }

  /** Such a swap exists: boot says READY although the reported readiness is still NOT_READY. */
  lemma BootIgnoresTheFlag()
    ensures exists moves: seq<Move> ::
      && Boot(QuietBoot, Run(NoRows, moves), Token).readiness == Ready
      && ReportedReadiness(Boot(QuietBoot, Run(NoRows, moves), Token).ledger, Token, Ready, false) == NotReady
  {
    FlaggedIsReachable();
    var moves: seq<Move> :| Run(NoRows, moves) == FlaggedLedger;
    FlaggedBoots();
    hide Boot, Run, ReportedReadiness;
    assert Boot(QuietBoot, Run(NoRows, moves), Token) == Boot(QuietBoot, FlaggedLedger, Token);
  }

  lemma FlaggedPhases(l0: Ledger)
    requires l0.swaps == [FlaggedSwap] && l0.funds == []
    ensures Reconciled(QuietBoot, l0, Token) == Through(l0)
  {
    assert NonTerminal(l0.swaps) == [FlaggedSwap];
    assert CheckAll(QuietBoot, l0, [FlaggedSwap], Token) == CheckAll(QuietBoot, l0, [], Token);
    assert ResolveFunds(QuietBoot, l0, Token) == Through(l0);
  }

  lemma FlaggedHeadroom(l0: Ledger)
    requires l0.bookings == [Booking(1, Token, 5, Reserved)] && l0.funds == []
    ensures Headroom(l0, Token, 100) == 95
  {
    assert SumByStatus([], Token, Reserved) == 0;
    assert l0.bookings[..0] == [];
  }

  lemma FlaggedBoots()
    ensures Boot(QuietBoot, FlaggedLedger, Token).readiness == Ready
    ensures ReportedReadiness(Boot(QuietBoot, FlaggedLedger, Token).ledger, Token, Ready, false) == NotReady
  {
    var l0 := SetReadiness(FlaggedLedger, Token, Reconciling, 0);
    FlaggedPhases(l0);
    FlaggedHeadroom(l0);
    hide Reconciled, Headroom;
    var v := ReconcileCapacity(Lenient, l0, Token, Plenty, 0);
    assert Boot(QuietBoot, FlaggedLedger, Token) == v;
    assert v.readiness == Ready && v.ledger.swaps == [FlaggedSwap];
    hide Boot, ReconcileCapacity;
    assert v.ledger.swaps[0] == FlaggedSwap;
  }
}
