/** What the transaction engine guarantees over any run of calls, crashes, lost replies and chain moves. */
module EvmTheorems {
  import opened Wrappers
  import opened EvmTypes
  import opened EvmEngine
  import opened EvmInvariant
  import opened EvmHistory

  function After(p: Policy, events: seq<Event>): Engine { Run(p, Start, events) }

  lemma AfterInv(p: Policy, events: seq<Event>)
    ensures Inv(p, After(p, events))
  {
    StartInv(p);
    RunKeepsInv(p, Start, events);
  }

  // ------------------------------------------------- at most one economic effect

  /** Every attempt is a numbered re-pricing of the intent's one transaction, and a key has one intent. */
  lemma AttemptsShareOneAction(p: Policy, events: seq<Event>, i: nat, k: nat)
    requires i < |After(p, events).rows| && k < |After(p, events).rows[i].attempts|
    ensures var r := After(p, events).rows[i]; var tx := r.attempts[k].tx;
      && r.attempts[k].number == k + 1
      && tx.lane == r.lane && tx.to == r.target && tx.data == r.calldata && tx.value == r.value
      && tx.nonce == r.attempts[0].tx.nonce
      && (r.nonce.Some? ==> r.nonce == Some(tx.nonce))
    ensures forall j :: 0 <= j < |After(p, events).rows| && j != i ==>
      After(p, events).rows[j].key != After(p, events).rows[i].key
  {
    AfterInv(p, events);
    var s := After(p, events);
    assert RowOk(p, s.mined, s.rows[i]);
    assert AttemptOk(p, s.rows[i], k);
  }

  predicate RecordedFor(rows: seq<Intent>, key: Key, tx: Tx) {
    exists i, k :: 0 <= i < |rows| && 0 <= k < |rows[i].attempts| && rows[i].key == key && rows[i].attempts[k].tx == tx
  }

  /** Where the chain executed a transaction of this intent, successfully or not. */
  function EffectsOf(s: Engine, key: Key): set<Slot> {
    set slot | slot in s.mined && s.mined[slot].Ours? && RecordedFor(s.rows, key, s.mined[slot].tx)
  }

  lemma OneSlotPerKey(p: Policy, s: Engine, key: Key, a: Slot, b: Slot)
    requires Inv(p, s) && a in EffectsOf(s, key) && b in EffectsOf(s, key)
    ensures a == b
  {
    var i, k :| 0 <= i < |s.rows| && 0 <= k < |s.rows[i].attempts| && s.rows[i].key == key
                && s.rows[i].attempts[k].tx == s.mined[a].tx;
    var j, l :| 0 <= j < |s.rows| && 0 <= l < |s.rows[j].attempts| && s.rows[j].key == key
                && s.rows[j].attempts[l].tx == s.mined[b].tx;
    assert i == j;
    assert RowOk(p, s.mined, s.rows[i]);
    assert AttemptOk(p, s.rows[i], k) && AttemptOk(p, s.rows[i], l);
  }

  /**
   The FUND of a swap, like every other action, takes effect at most once:
   among all the transactions ever signed for it the chain mines at most one.
   */
  lemma AtMostOneEffect(p: Policy, events: seq<Event>, key: Key)
    ensures |EffectsOf(After(p, events), key)| <= 1
  {
    AfterInv(p, events);
    var s := After(p, events);
    var effects := EffectsOf(s, key);
    if effects != {} {
      var a :| a in effects;
      forall b | b in effects
        ensures b == a
      {
        OneSlotPerKey(p, s, key, a, b);
      }
      assert effects == {a};
    }
  }

  /** Whatever reached the node or the chain had been stored before, under exactly one intent and number. */
  lemma SentWasStoredFirst(p: Policy, events: seq<Event>)
    ensures var s := After(p, events);
      && (forall tx :: tx in s.sent ==> Recorded(s.rows, tx))
      && (forall slot :: slot in s.mined && s.mined[slot].Ours? ==> Recorded(s.rows, s.mined[slot].tx))
      && HashesDistinct(s.rows)
  {
    AfterInv(p, events);
  }

  // ---------------------------------------------------------------- confirmation

  predicate Winner(s: Engine, r: Intent, k: nat) {
    && k < |r.attempts| && r.attempts[k].status == MinedSuccess
    && r.canonical == Some(r.attempts[k].tx) && MinedAs(s.mined, r.attempts[k].tx, true)
    && forall j :: 0 <= j < |r.attempts| && j != k ==> r.attempts[j].status == Superseded
  }

  lemma WinnerIsAlone(p: Policy, s: Engine, i: nat, k: nat)
    requires Inv(p, s) && i < |s.rows| && k < |s.rows[i].attempts| && s.rows[i].attempts[k].status == MinedSuccess
    ensures s.rows[i].status == Confirmed && Winner(s, s.rows[i], k)
  {
    var r := s.rows[i];
    assert RowOk(p, s.mined, r);
    forall j | 0 <= j < |r.attempts| && j != k
      ensures r.attempts[j].status == Superseded
    {
      assert r.attempts[j].status == MinedSuccess ==> SameAttempt(i, j, i, k);
    }
  }

  /** CONFIRMED means exactly one mined attempt, truthfully mined, canonical, and the rest superseded. */
  lemma ConfirmedExactly(p: Policy, events: seq<Event>, i: nat)
    requires i < |After(p, events).rows|
    ensures var s := After(p, events);
      s.rows[i].status == Confirmed <==> exists k :: 0 <= k < |s.rows[i].attempts| && Winner(s, s.rows[i], k)
    ensures var s := After(p, events);
      forall k :: 0 <= k < |s.rows[i].attempts| && s.rows[i].attempts[k].status == MinedSuccess ==>
        Winner(s, s.rows[i], k)
  {
    AfterInv(p, events);
    var s := After(p, events);
    var r := s.rows[i];
    assert RowOk(p, s.mined, r);
    forall k | 0 <= k < |r.attempts| && r.attempts[k].status == MinedSuccess
      ensures r.status == Confirmed && Winner(s, r, k)
    {
      WinnerIsAlone(p, s, i, k);
    }
  }

  // ---------------------------------------------------------------- terminality

  predicate Final(r: Intent, r': Intent) {
    r'.status == r.status && r'.nonce == r.nonce && r'.canonical == r.canonical && SameTxs(r.attempts, r'.attempts)
  }

  lemma TerminalStep(p: Policy, s: Engine, e: Event, i: nat)
    requires Inv(p, s) && i < |s.rows| && !Active(s.rows[i].status)
    ensures i < |Step(p, s, e).rows| && Final(s.rows[i], Step(p, s, e).rows[i])
  {
    hide Inv, Step;
    StepEvolves(p, s, e);
    assert Evolves(Base(s, e).rows, HeardIn(e), s.rows[i], Step(p, s, e).rows[i]);
  }

  lemma FinalRefl(a: Intent)
    ensures Final(a, a)
  {
  }

  lemma FinalTwice(a: Intent, b: Intent, c: Intent)
    requires Final(a, b) && Final(b, c)
    ensures Final(a, c)
  {
  }

  lemma {:induction false} TerminalStays(p: Policy, s: Engine, after: seq<Event>, i: nat)
    requires Inv(p, s) && i < |s.rows| && !Active(s.rows[i].status)
    ensures i < |Run(p, s, after).rows| && Final(s.rows[i], Run(p, s, after).rows[i])
    decreases |after|
  {
    if after != [] {
      var s1 := Step(p, s, after[0]);
      TerminalStep(p, s, after[0], i);
      assert !Active(s1.rows[i].status);
      hide Inv, Step, Final;
      StepKeepsInv(p, s, after[0]);
      TerminalStays(p, s1, after[1..], i);
      FinalTwice(s.rows[i], s1.rows[i], Run(p, s, after).rows[i]);
    } else {
      FinalRefl(s.rows[i]);
    }
  }

  /** No execution, replacement, recovery or reorder of node answers moves a terminal intent. */
  lemma TerminalIsFinal(p: Policy, before: seq<Event>, after: seq<Event>, i: nat)
    requires i < |After(p, before).rows| && !Active(After(p, before).rows[i].status)
    ensures var s := After(p, before); var s' := Run(p, s, after);
      i < |s'.rows| && Final(s.rows[i], s'.rows[i])
  {
    AfterInv(p, before);
    TerminalStays(p, After(p, before), after, i);
  }

  // --------------------------------------------------------------------- nonces

  predicate Gained(rows: seq<Intent>, rows': seq<Intent>, i: nat) {
    i < |rows'| && rows'[i].nonce.Some? && (i < |rows| ==> rows[i].nonce.None?)
  }

  /** A nonce gained in any step of any run is at least the pending count and above all the lane still holds. */
  lemma NewNoncesAreFresh(p: Policy, events: seq<Event>, e: Event, i: nat)
    requires Gained(After(p, events).rows, Step(p, After(p, events), e).rows, i)
    ensures var rows := After(p, events).rows; var r := Step(p, After(p, events), e).rows[i];
      && HeardIn(e).pending.Some? && r.nonce.value >= HeardIn(e).pending.value
      && Fresh(rows, r.lane, r.nonce.value)
  {
    hide Inv, Step;
    AfterInv(p, events);
    var s := After(p, events);
    StepEvolves(p, s, e);
    var b := Base(s, e).rows;
    assert Evolves(b, HeardIn(e), b[i], Step(p, s, e).rows[i]);
  }

  /**
   And it is the least such nonce, so no slot is skipped and the transaction can
   be mined: everything from the pending count up to it is still held.
   */
  lemma NewNoncesLeaveNoGap(p: Policy, events: seq<Event>, e: Event, i: nat, m: nat)
    requires Gained(After(p, events).rows, Step(p, After(p, events), e).rows, i)
    ensures var rows := After(p, events).rows; var r := Step(p, After(p, events), e).rows[i];
      HeardIn(e).pending.Some? && m >= HeardIn(e).pending.value && Fresh(rows, r.lane, m) ==> r.nonce.value <= m
  {
    hide Inv, Step;
    AfterInv(p, events);
    var s := After(p, events);
    StepEvolves(p, s, e);
    var b := Base(s, e).rows;
    var r := Step(p, s, e).rows[i];
    assert Evolves(b, HeardIn(e), b[i], r);
    if Fresh(s.rows, r.lane, m) { BaseIsAsFresh(s, e, r.lane, m); }
  }

  /** A missing row that `Execute` creates holds no nonce. */
  lemma BaseIsAsFresh(s: Engine, e: Event, lane: Lane, m: nat)
    requires Fresh(s.rows, lane, m)
    ensures Fresh(Base(s, e).rows, lane, m)
  {
  }

  /**
   The invariant freshness rests on: a dead intent that still holds a nonce has
   an attempt that may have gone out, and at most one intent of a lane holds a
   nonce without any attempt. The unique index is never violated.
   */
  lemma HeldNonces(p: Policy, events: seq<Event>)
    ensures var rows := After(p, events).rows;
      && (forall i :: 0 <= i < |rows| && Dead(rows[i].status) && rows[i].nonce.Some? ==> Touched(rows[i]))
      && OneBareNonce(rows) && NoncesDistinct(rows)
  {
    AfterInv(p, events);
    var s := After(p, events);
    forall i | 0 <= i < |s.rows| && Dead(s.rows[i].status) && s.rows[i].nonce.Some?
      ensures Touched(s.rows[i])
    {
      assert RowOk(p, s.mined, s.rows[i]);
    }
  }

  predicate SharesSlot(rows: seq<Intent>, i: nat, j: nat) {
    && i < |rows| && j < |rows| && i != j && rows[i].lane == rows[j].lane
    && rows[i].attempts != [] && rows[j].attempts != []
    && rows[i].attempts[0].tx.nonce == rows[j].attempts[0].tx.nonce
  }

  predicate GaveBack(r: Intent) {
    Dead(r.status) && r.nonce.None? && forall k :: 0 <= k < |r.attempts| ==> r.attempts[k].status == Prepared
  }

  /** Two intents sign for the same slot only after one of them was closed and gave its nonce back. */
  lemma SlotsAreSharedOnlyAfterGivingBack(p: Policy, events: seq<Event>, i: nat, j: nat)
    requires SharesSlot(After(p, events).rows, i, j)
    ensures GaveBack(After(p, events).rows[i]) || GaveBack(After(p, events).rows[j])
  {
    AfterInv(p, events);
    var s := After(p, events);
    assert RowOk(p, s.mined, s.rows[i]) && RowOk(p, s.mined, s.rows[j]);
  }

  /** A transaction that reached the node holds this nonce of the lane. */
  predicate Occupied(s: Engine, lane: Lane, nonce: nat) {
    exists tx :: tx in s.sent && tx.lane == lane && tx.nonce == nonce
  }

  /** Some transaction of the lane reached the node above every nonce that still counts. */
  predicate SentAboveHeld(s: Engine, lane: Lane) {
    exists tx :: tx in s.sent && tx.lane == lane && tx.nonce > HighestHeld(s.rows, lane)
  }

  predicate MayReserve(s: Engine, i: nat) {
    i < |s.rows| && s.rows[i].nonce.None? && !AnotherUnresolved(s.rows, i, s.rows[i].lane)
  }

  /** Under this pending count the nonce about to be reserved is one that was already used in public. */
  predicate Collides(s: Engine, i: nat, pending: nat)
    requires i < |s.rows|
  {
    var o := Reserve(s.rows, i, pending);
    o.Some? && Occupied(s, s.rows[i].lane, o.value[i].nonce.value)
  }

  lemma ReservedIsCandidate(p: Policy, s: Engine, i: nat, pending: nat)
    requires Inv(p, s) && MayReserve(s, i)
    ensures Reserve(s.rows, i, pending).Some?
    ensures Reserve(s.rows, i, pending).value[i].nonce == Some(Candidate(s.rows, s.rows[i].lane, pending))
  {
    ReserveRefusesExactly(p, s, i, pending);
  }

  /**
   Before a reservation: some pending count leads it to a nonce already used in
   public exactly when a transaction of the lane was sent above all that counts.
   */
  lemma CollisionsExactly(p: Policy, events: seq<Event>, i: nat)
    requires MayReserve(After(p, events), i)
    ensures var s := After(p, events);
      (exists pending: nat :: Collides(s, i, pending)) <==> SentAboveHeld(s, s.rows[i].lane)
  {
    AfterInv(p, events);
    var s := After(p, events);
    hide Inv, Run;
    var lane := s.rows[i].lane;
    if SentAboveHeld(s, lane) {
      var tx :| tx in s.sent && tx.lane == lane && tx.nonce > HighestHeld(s.rows, lane);
      ReservedIsCandidate(p, s, i, tx.nonce);
      assert Collides(s, i, tx.nonce);
    }
    forall pending: nat | Collides(s, i, pending)
      ensures SentAboveHeld(s, lane)
    {
      ReservedIsCandidate(p, s, i, pending);
    }
  }

  predicate BelongsToGivenBack(rows: seq<Intent>, tx: Tx) {
    exists j, k :: 0 <= j < |rows| && 0 <= k < |rows[j].attempts| && rows[j].attempts[k].tx == tx && GaveBack(rows[j])
  }

  /** Whatever was sent above all that counts was signed by an intent that was closed and gave its nonce back. */
  lemma SentAboveHeldWasGivenBack(p: Policy, events: seq<Event>, tx: Tx)
    requires tx in After(p, events).sent && tx.nonce > HighestHeld(After(p, events).rows, tx.lane)
    ensures BelongsToGivenBack(After(p, events).rows, tx)
  {
    SentWasStoredFirst(p, events);
    AfterInv(p, events);
    var s := After(p, events);
    hide Run;
    var j, k :| 0 <= j < |s.rows| && 0 <= k < |s.rows[j].attempts| && s.rows[j].attempts[k].tx == tx;
    var r := s.rows[j];
    assert RowOk(p, s.mined, r) && AttemptOk(p, r, k);
    assert !Counts(r, tx.lane);
    assert GaveBack(r);
  }

  /** A node whose pending count is above all that was ever sent in the lane excludes the collision. */
  lemma HonestCountNeverCollides(p: Policy, events: seq<Event>, i: nat, pending: nat)
    requires MayReserve(After(p, events), i)
    requires forall tx :: tx in After(p, events).sent && tx.lane == After(p, events).rows[i].lane ==> tx.nonce < pending
    ensures !Collides(After(p, events), i, pending)
  {
    AfterInv(p, events);
    var s := After(p, events);
    hide Inv, Run;
    ReservedIsCandidate(p, s, i, pending);
  }

  const Wallet := Lane(8453, 1)

  const OnePolicy := Policy(10, 3, 50 * GWEI, 10 * GWEI, 1_000_000, 50_000_000 * GWEI)

  function AskFor(swap: nat): Request { Request(Key(swap, FundAction), 7, swap, 0) }

  const Calm := PrepareAnswers(EstimateUnavailable, Fees(Some(1), Some(2)), Some(0), NoCrash)

  const Spiking := PrepareAnswers(EstimateUnavailable, Fees(Some(1), Some(60 * GWEI)), None, NoCrash)

  function Ask(swap: nat, send: SendAnswer): Event { Execute(Wallet, AskFor(swap), [], true, Calm, send) }

  function SignedFor(swap: nat): Tx { Tx(Wallet, 0, 7, swap, 0, 350_000, 2, 1) }

  function RowFor(swap: nat, nonce: Option<nat>, status: IntentStatus, attempt: AttemptStatus): Intent {
    Intent(Key(swap, FundAction), Wallet, 7, swap, 0, nonce, status, None, [Attempt(1, SignedFor(swap), attempt)])
  }

  predicate NoNonces(rows: seq<Intent>) { forall j :: 0 <= j < |rows| ==> rows[j].nonce.None? }

  /** Where no intent holds a nonce, a stale pending count of 0 makes the next one sign with nonce 0. */
  lemma AskReserves(rows: seq<Intent>, swap: nat)
    requires NoNonces(rows)
    ensures var r := NewIntent(Wallet, AskFor(swap));
      Reserve(rows + [r], |rows|, 0) == Some(rows + [r.(nonce := Some(0), status := NonceReserved)])
  {
    var r := NewIntent(Wallet, AskFor(swap));
    var all := rows + [r];
    assert NoNonces(all);
    assert HighestHeld(all, Wallet) == -1;
    var held := r.(nonce := Some(0), status := NonceReserved);
    assert all[|rows| := held] == rows + [held];
  }

  lemma AskStores(rows: seq<Intent>, swap: nat)
    requires !Recorded(rows, SignedFor(swap))
    ensures var held := NewIntent(Wallet, AskFor(swap)).(nonce := Some(0), status := NonceReserved);
      Record(rows + [held], |rows|, 1, SignedFor(swap))
         == Stored(rows + [RowFor(swap, Some(0), Dispatching, Prepared)], 0)
  {
    var held := NewIntent(Wallet, AskFor(swap)).(nonce := Some(0), status := NonceReserved);
    var all := rows + [held];
    assert !Recorded(all, SignedFor(swap));
    var r := RowFor(swap, Some(0), Dispatching, Prepared);
    assert held.attempts + [Attempt(1, SignedFor(swap), Prepared)] == r.attempts;
    assert all[|rows| := r] == rows + [r];
  }

  lemma AskSigns(s: Engine, swap: nat)
    requires NoNonces(s.rows) && !Recorded(s.rows, SignedFor(swap))
    ensures var s1 := s.(rows := s.rows + [NewIntent(Wallet, AskFor(swap))]);
      SignAndRecord(s1, |s.rows|, 350_000, FeePair(1, 2), Calm)
         == Ready(s.(rows := s.rows + [RowFor(swap, Some(0), Dispatching, Prepared)]), 0)
  {
    AskReserves(s.rows, swap);
    AskStores(s.rows, swap);
    assert NoNonces(s.rows + [NewIntent(Wallet, AskFor(swap))]);
    hide Reserve, Record, Recorded;
  }

  lemma AskPrepares(s: Engine, swap: nat)
    requires NoNonces(s.rows) && !Recorded(s.rows, SignedFor(swap))
    ensures var s1 := s.(rows := s.rows + [NewIntent(Wallet, AskFor(swap))]);
      Prepare(OnePolicy, s1, |s.rows|, swap, None, Calm)
         == Ready(s.(rows := s.rows + [RowFor(swap, Some(0), Dispatching, Prepared)]), 0)
  {
    AskSigns(s, swap);
    hide SignAndRecord, Recorded;
  }

  /** A first execution under these answers stores its attempt and hands it to the node. */
  lemma AskGoesOut(s: Engine, swap: nat, send: SendAnswer)
    requires NoNonces(s.rows) && !Recorded(s.rows, SignedFor(swap)) && FindKey(s.rows, Key(swap, FundAction)).None?
    ensures var r := RowFor(swap, Some(0), Dispatching, Prepared);
      Step(OnePolicy, s, Ask(swap, send)) == BroadcastAttempt(s.(rows := s.rows + [r]), |s.rows|, 0, send).state
  {
    AskPrepares(s, swap);
    hide Prepare, Recorded, BroadcastAttempt;
    var all := s.rows + [NewIntent(Wallet, AskFor(swap))];
    assert FindKey(all, Key(swap, FundAction)) == Some(|s.rows|);
  }

  const AfterLoss := Engine([RowFor(1, Some(0), Dispatching, Prepared)], {SignedFor(1)}, map[])

  const AfterBlock := Engine([RowFor(1, None, FeeCapBlocked, Prepared)], {SignedFor(1)}, map[])

  const SecondRow := RowFor(2, Some(0), Pending, Broadcast)

  lemma FirstAsk()
    ensures Step(OnePolicy, Start, Ask(1, LostReply)) == AfterLoss
  {
    AskGoesOut(Start, 1, LostReply);
    hide Step;
    assert Start.rows + [RowFor(1, Some(0), Dispatching, Prepared)] == AfterLoss.rows;
  }

  lemma BlockedByFees()
    ensures Step(OnePolicy, AfterLoss, Replace(0, 1, 0, Spiking, Refused)) == AfterBlock
  {
    hide SignAndRecord, BroadcastAttempt;
    assert !Touched(AfterLoss.rows[0]);
    assert AfterLoss.rows[0 := Close(AfterLoss.rows[0], FeeCapBlocked)] == AfterBlock.rows;
  }

  lemma SecondAsk()
    ensures Step(OnePolicy, AfterBlock, Ask(2, Accepted))
         == Engine([AfterBlock.rows[0], SecondRow], {SignedFor(1), SignedFor(2)}, map[])
  {
    AskGoesOut(AfterBlock, 2, Accepted);
    hide Step;
    var r := RowFor(2, Some(0), Dispatching, Prepared);
    var rows := AfterBlock.rows + [r];
    assert MarkBroadcast(r, 0).attempts == SecondRow.attempts;
    assert rows[1 := MarkBroadcast(r, 0)] == [AfterBlock.rows[0], SecondRow];
    assert AfterBlock.sent + {SignedFor(2)} == {SignedFor(1), SignedFor(2)};
  }

  /**
   And that does happen to a transaction already out: the reply to its
   broadcast is lost, a replacement hits a fee cap, the nonce is given back,
   and a node that still reports the old pending count lets another intent sign
   for the same slot.
   */
  lemma GivenBackNonceMayBeInFlight()
    ensures var s := After(OnePolicy, [Ask(1, LostReply), Replace(0, 1, 0, Spiking, Refused), Ask(2, Accepted)]);
      SignedFor(1) in s.sent && SignedFor(2) in s.sent && SharesSlot(s.rows, 0, 1)
  {
    FirstAsk();
    BlockedByFees();
    SecondAsk();
    hide Step;
    var blocked, second := Replace(0, 1, 0, Spiking, Refused), Ask(2, Accepted);
    var end := Engine([AfterBlock.rows[0], SecondRow], {SignedFor(1), SignedFor(2)}, map[]);
    assert Run(OnePolicy, end, []) == end;
    assert Run(OnePolicy, AfterBlock, [second]) == end;
    assert [blocked, second][1..] == [second];
    assert Run(OnePolicy, AfterLoss, [blocked, second]) == end;
    assert [Ask(1, LostReply), blocked, second][1..] == [blocked, second];
  }

  // ----------------------------------------------------------------------- fees

  function Pow(b: nat, n: nat): nat { if n == 0 then 1 else b * Pow(b, n - 1) }

  lemma Climb(low: nat, prev: nat, next: nat, m: nat, h: nat, q: nat)
    requires prev * h >= low * q && 100 * next >= prev * m
    ensures next * (100 * h) >= low * (m * q)
  {
    assert next * (100 * h) == (100 * next) * h;
    assert (100 * next) * h >= (prev * m) * h;
    assert (prev * m) * h == (prev * h) * m;
    assert (prev * h) * m >= (low * q) * m;
    assert (low * q) * m == low * (m * q);
  }

  lemma {:induction false} LadderFrom(p: Policy, r: Intent, k: nat)
    requires AttemptsOk(p, r) && k < |r.attempts|
    ensures r.attempts[k].tx.tip * Pow(100, k) >= r.attempts[0].tx.tip * Pow(100 + p.minBump, k)
    ensures r.attempts[k].tx.maxFee * Pow(100, k) >= r.attempts[0].tx.maxFee * Pow(100 + p.minBump, k)
  {
    if k > 0 {
      LadderFrom(p, r, k - 1);
      var a, b, z := r.attempts[k - 1].tx, r.attempts[k].tx, r.attempts[0].tx;
      assert RungUp(p, FeesOf(a), FeesOf(b));
      Climb(z.tip, a.tip, b.tip, 100 + p.minBump, Pow(100, k - 1), Pow(100 + p.minBump, k - 1));
      Climb(z.maxFee, a.maxFee, b.maxFee, 100 + p.minBump, Pow(100, k - 1), Pow(100 + p.minBump, k - 1));
    }
  }

  /** Each replacement outbids its predecessor by more than the minimum bump, so fees grow geometrically. */
  lemma FeeLadder(p: Policy, events: seq<Event>, i: nat, k: nat)
    requires i < |After(p, events).rows| && k < |After(p, events).rows[i].attempts|
    ensures var a := After(p, events).rows[i].attempts;
      && (k > 0 ==> RungUp(p, FeesOf(a[k - 1].tx), FeesOf(a[k].tx)))
      && a[k].tx.tip * Pow(100, k) >= a[0].tx.tip * Pow(100 + p.minBump, k)
      && a[k].tx.maxFee * Pow(100, k) >= a[0].tx.maxFee * Pow(100 + p.minBump, k)
  {
    AfterInv(p, events);
    var s := After(p, events);
    assert RowOk(p, s.mined, s.rows[i]);
    LadderFrom(p, s.rows[i], k);
  }

  /** No attempt is ever stored above a cap, and there are at most maxReplacements + 1 of them. */
  lemma CapsHold(p: Policy, events: seq<Event>, i: nat)
    requires i < |After(p, events).rows|
    ensures var a := After(p, events).rows[i].attempts;
      && |a| <= p.maxReplacements + 1
      && forall k :: 0 <= k < |a| ==>
           && a[k].tx.gas <= p.gasCap && a[k].tx.tip <= p.tipCap && a[k].tx.maxFee <= p.maxFeeCap
           && a[k].tx.gas * a[k].tx.maxFee + a[k].tx.value <= p.costCap
  {
    AfterInv(p, events);
    var s := After(p, events);
    assert RowOk(p, s.mined, s.rows[i]);
    forall k | 0 <= k < |s.rows[i].attempts|
      ensures var tx := s.rows[i].attempts[k].tx; WithinCaps(p, tx.gas, FeesOf(tx), tx.value)
    {
      assert AttemptOk(p, s.rows[i], k);
    }
  }

  // ----------------------------------------------------- maxFee is at least the tip

  /** The tip estimate is above the max fee exactly when the node reports a positive max fee below the tip in use. */
  lemma EstimateOrderedExactly(a: FeeAnswer)
    ensures Estimated(a).maxFee < Estimated(a).tip <==>
      && a.Fees? && a.maxFee.Some? && 0 < a.maxFee.value
      && a.maxFee.value < (if a.tip.Some? && a.tip.value > 0 then a.tip.value else GWEI)
  {
  }

  predicate WellPriced(events: seq<Event>) {
    forall i :: 0 <= i < |events| ==> HeardIn(events[i]).priced
  }

  lemma {:induction false} FeesStayOrderedFrom(p: Policy, s: Engine, events: seq<Event>)
    requires Inv(p, s) && WellPriced(events) && forall i :: 0 <= i < |s.rows| ==> Ordered(s.rows[i])
    ensures forall i :: 0 <= i < |Run(p, s, events).rows| ==> Ordered(Run(p, s, events).rows[i])
    decreases |events|
  {
    if events != [] {
      hide Inv, Step;
      var s1 := Step(p, s, events[0]);
      StepEvolves(p, s, events[0]);
      StepKeepsInv(p, s, events[0]);
      var b := Base(s, events[0]).rows;
      forall i | 0 <= i < |s1.rows|
        ensures Ordered(s1.rows[i])
      {
        assert Evolves(b, HeardIn(events[0]), b[i], s1.rows[i]);
        assert Ordered(b[i]);
      }
      FeesStayOrderedFrom(p, s1, events[1..]);
    }
  }

  /** If every estimate the node gave was in order, every attempt ever stored satisfies maxFee >= tip. */
  lemma FeesStayOrdered(p: Policy, events: seq<Event>)
    requires WellPriced(events)
    ensures forall i :: 0 <= i < |After(p, events).rows| ==> Ordered(After(p, events).rows[i])
  {
    StartInv(p);
    FeesStayOrderedFrom(p, Start, events);
  }

  // ---------------------------------------------------------------- convergence

  /** A reconciliation whose queries are all answered learns the fate of a mined attempt. */
  lemma ReconcileLearnsTheFate(p: Policy, events: seq<Event>, i: nat, k: nat, success: bool, latestKnown: bool)
    requires i < |After(p, events).rows| && Active(After(p, events).rows[i].status)
    requires k < |After(p, events).rows[i].attempts|
    requires MinedAs(After(p, events).mined, After(p, events).rows[i].attempts[k].tx, success)
    ensures var o := ReconcileIntent(After(p, events), i, [], latestKnown);
      o.ok && o.state.rows[i].status == (if success then Confirmed else Reverted)
      && (success ==> o.state.rows[i].canonical == Some(After(p, events).rows[i].attempts[k].tx))
  {
    AfterInv(p, events);
    var s := After(p, events);
    ScanFinds(p, s, i, k, success, 0);
  }

  lemma {:induction false} ScanFinds(p: Policy, s: Engine, i: nat, k: nat, success: bool, from: nat)
    requires Inv(p, s) && i < |s.rows| && from <= k < |s.rows[i].attempts|
    requires MinedAs(s.mined, s.rows[i].attempts[k].tx, success)
    ensures ScanFrom(s.mined, s.rows[i].attempts, [], from) == Receipt(k, success)
    decreases k - from
  {
    var a := s.rows[i].attempts;
    if from < k {
      assert RowOk(p, s.mined, s.rows[i]);
      assert AttemptOk(p, s.rows[i], from) && AttemptOk(p, s.rows[i], k);
      assert a[from].tx == a[k].tx ==> SameAttempt(i, from, i, k);
      ScanFinds(p, s, i, k, success, from + 1);
    }
  }
}
