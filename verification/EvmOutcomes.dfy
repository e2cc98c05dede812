/**
 How every call of the transaction manager ends: what it signs, at which
 price, and what each answer of the node leaves in the tables.
 */
module EvmOutcomes {
  import opened Wrappers
  import opened EvmTypes
  import opened EvmEngine
  import opened EvmInvariant
  import opened EvmHistory

  // -------------------------------------------------------------------- prices

  /** Acceptable as a replacement's fee: no lower than the estimate, and more than `percent` above `prev`. */
  predicate Outbids(bid: nat, estimate: nat, prev: nat, percent: nat) {
    bid >= estimate && 100 * bid > prev * (100 + percent)
  }

  predicate LeastBid(bid: nat, estimate: nat, prev: nat, percent: nat) {
    Outbids(bid, estimate, prev, percent) && forall b: nat :: Outbids(b, estimate, prev, percent) ==> bid <= b
  }

  lemma BumpIsLeast(estimate: nat, prev: nat, percent: nat)
    ensures LeastBid(Max(Bumped(prev, percent), estimate), estimate, prev, percent)
  {
  }

  /**
   A first attempt offers the estimate; a replacement offers the least fees
   that outbid its predecessor by the larger of the two percentages.
   */
  lemma BidsAreLeast(p: Policy, r: Intent, custom: nat, estimate: Fees)
    requires r.attempts != []
    ensures NextFees(p, r, None, estimate) == estimate
    ensures var prev, bid := r.attempts[|r.attempts| - 1].tx, NextFees(p, r, Some(custom), estimate);
      var percent := if custom >= p.minBump then custom else p.minBump;
      LeastBid(bid.tip, estimate.tip, prev.tip, percent) && LeastBid(bid.maxFee, estimate.maxFee, prev.maxFee, percent)
  {
    hide Bumped, LeastBid;
    var prev := r.attempts[|r.attempts| - 1].tx;
    BumpIsLeast(estimate.tip, prev.tip, Max(p.minBump, custom));
    BumpIsLeast(estimate.maxFee, prev.maxFee, Max(p.minBump, custom));
  }

  function Positive(reported: Option<int>): Option<nat> {
    if reported.Some? && reported.value > 0 then Some(reported.value) else None
  }

  /** What the node leaves out or reports as not positive is one gwei of tip, and one gwei on top of the tip. */
  lemma EstimatesDefault(a: FeeAnswer, g: GasAnswer)
    ensures var tip := if a.Fees? then Positive(a.tip) else None;
      Estimated(a).tip == if tip.Some? then tip.value else 1_000_000_000
    ensures var most := if a.Fees? then Positive(a.maxFee) else None;
      Estimated(a).maxFee == if most.Some? then most.value else Estimated(a).tip + 1_000_000_000
    ensures g.Estimate? ==> 100 * GasLimit(g) <= 120 * g.gas < 100 * GasLimit(g) + 100
    ensures !g.Estimate? ==> GasLimit(g) == 350_000
  {
  }

  predicate CapsAllow(p: Policy, gas: nat, fees: Fees, value: nat) {
    && gas <= p.gasCap && fees.tip <= p.tipCap && fees.maxFee <= p.maxFeeCap
    && gas * fees.maxFee + value <= p.costCap
  }

  // ------------------------------------------------------------------- receipts

  /** The query for this attempt's receipt reports none. */
  predicate Silent(mined: map<Slot, Fate>, r: Intent, probes: seq<Probe>, j: nat)
    requires j < |r.attempts|
  {
    var probe := if j < |probes| then probes[j] else Answer;
    var tx := r.attempts[j].tx;
    probe == Missing || (probe == Answer && !MinedAs(mined, tx, true) && !MinedAs(mined, tx, false))
  }

  /** Attempt `k` is the first whose query reports a receipt or fails; past the end, none does. */
  predicate FirstNews(mined: map<Slot, Fate>, r: Intent, probes: seq<Probe>, k: nat) {
    && k <= |r.attempts| && (forall j :: 0 <= j < k ==> Silent(mined, r, probes, j))
    && (k < |r.attempts| ==> !Silent(mined, r, probes, k))
  }

  predicate QueryFails(r: Intent, probes: seq<Probe>, k: nat) {
    k < |r.attempts| && k < |probes| && probes[k] == Broken
  }

  /** Attempt `k` won: the intent is confirmed with it, every other open attempt is superseded. */
  predicate Won(r: Intent, r': Intent, k: nat) {
    && k < |r.attempts| && |r'.attempts| == |r.attempts|
    && r' == r.(status := Confirmed, canonical := Some(r.attempts[k].tx), attempts := r'.attempts)
    && r'.attempts[k] == r.attempts[k].(status := MinedSuccess)
    && forall j :: 0 <= j < |r.attempts| && j != k ==> r'.attempts[j] == r.attempts[j].(status := Superseded)
  }

  /** Attempt `k` was mined and reverted: so is the intent, and it keeps its nonce. */
  predicate Lost(r: Intent, r': Intent, k: nat) {
    && k < |r.attempts|
    && r' == r.(status := Reverted, attempts := r.attempts[k := r.attempts[k].(status := MinedRevert)])
  }

  /** What the receipts leave: nothing is learnt unless the first news is a receipt. */
  predicate Learnt(s: Engine, s': Engine, i: nat, probes: seq<Probe>, k: nat) {
    && i < |s.rows| && |s'.rows| == |s.rows|
    && s'.sent == s.sent && s'.mined == s.mined
    && s'.rows == s.rows[i := s'.rows[i]]
    && var r := s.rows[i];
       if k >= |r.attempts| || QueryFails(r, probes, k) then s'.rows[i] == r
       else if MinedAs(s.mined, r.attempts[k].tx, true) then Won(r, s'.rows[i], k)
       else Lost(r, s'.rows[i], k)
  }

  lemma {:induction false} ScanIsFirstNews(mined: map<Slot, Fate>, r: Intent, probes: seq<Probe>, k: nat, from: nat)
    requires from <= k && FirstNews(mined, r, probes, k)
    ensures ScanFrom(mined, r.attempts, probes, from) ==
      if k == |r.attempts| then NoReceipt else if QueryFails(r, probes, k) then ScanFailed
      else Receipt(k, MinedAs(mined, r.attempts[k].tx, true))
    decreases k - from
  {
    if from < k {
      assert Silent(mined, r, probes, from);
      ScanIsFirstNews(mined, r, probes, k, from + 1);
    }
  }

  lemma OpenBeforeWin(p: Policy, s: Engine, i: nat, k: nat)
    requires Inv(p, s) && i < |s.rows| && Active(s.rows[i].status) && k < |s.rows[i].attempts|
    ensures Won(s.rows[i], MarkMinedSuccess(s.rows[i], k), k)
  {
    var r := s.rows[i];
    assert RowOk(p, s.mined, r);
    var r' := MarkMinedSuccess(r, k);
    forall j | 0 <= j < |r.attempts| && j != k
      ensures r'.attempts[j] == r.attempts[j].(status := Superseded)
    {
      assert r.attempts[j].status != MinedSuccess && r.attempts[j].status != MinedRevert;
    }
  }

  lemma ReconciliationLearns(p: Policy, s: Engine, i: nat, probes: seq<Probe>, latestKnown: bool, k: nat)
    requires Inv(p, s) && i < |s.rows| && Active(s.rows[i].status) && FirstNews(s.mined, s.rows[i], probes, k)
    ensures var o := ReconcileIntent(s, i, probes, latestKnown); var r := s.rows[i];
      && Learnt(s, o.state, i, probes, k)
      && (o.ok <==> !QueryFails(r, probes, k) && (k < |r.attempts| || r.attempts == [] || latestKnown))
  {
    var r := s.rows[i];
    ScanIsFirstNews(s.mined, r, probes, k, 0);
    assert RowOk(p, s.mined, r);
    if k < |r.attempts| { OpenBeforeWin(p, s, i, k); }
    hide Inv, Won, ScanFrom, FirstNews, MinedAs;
  }

  /** A reconciliation learns exactly what the first receipt says; an intent that is no longer active is left alone. */
  lemma ReconcileEnds(p: Policy, s: Engine, i: nat, probes: seq<Probe>, latestKnown: bool, k: nat)
    requires Inv(p, s) && i < |s.rows| && FirstNews(s.mined, s.rows[i], probes, k)
    ensures var s' := Step(p, s, Reconcile(i, probes, latestKnown));
      if Active(s.rows[i].status) then Learnt(s, s', i, probes, k) else s' == s
  {
    if Active(s.rows[i].status) { ReconciliationLearns(p, s, i, probes, latestKnown, k); }
    hide Inv, Learnt, FirstNews;
  }

  // ------------------------------------------------------------------ broadcast

  predicate NotYetPending(status: IntentStatus) { status in {Created, NonceReserved, Dispatching} }

  /**
   What handing attempt `k` to the node leaves. A transaction the node may have
   seen counts as sent even when the reply is lost; only an acknowledgement is
   recorded. When the nonce is used up the receipts decide, and without any the
   intent is in conflict; `news` is the first attempt with news of itself.
   */
  predicate HandedOver(s: Engine, s': Engine, i: nat, k: nat, send: SendAnswer, news: nat) {
    && i < |s.rows| && k < |s.rows[i].attempts|
    && var r := s.rows[i];
       var sent := s.(sent := s.sent + {r.attempts[k].tx});
       match send
       case Refused => s' == s
       case LostReply => s' == sent
       case NonceTooLow(probes, latestKnown) =>
         if !Active(r.status) then s' == s
         else if news == |r.attempts| && latestKnown then s' == s.(rows := s.rows[i := r.(status := NonceConflict)])
         else Learnt(s, s', i, probes, news)
       case _ =>
         s' == sent.(rows := s.rows[i :=
           r.(attempts := r.attempts[k := r.attempts[k].(status := Broadcast)],
              status := if NotYetPending(r.status) then Pending else r.status)])
  }

  predicate NewsAfter(s: Engine, i: nat, send: SendAnswer, news: nat) {
    i < |s.rows| && (send.NonceTooLow? ==> FirstNews(s.mined, s.rows[i], send.probes, news))
  }

  lemma BroadcastHandsOver(p: Policy, s: Engine, i: nat, k: nat, send: SendAnswer, news: nat)
    requires Inv(p, s) && i < |s.rows| && k < |s.rows[i].attempts|
    requires Active(s.rows[i].status) || s.rows[i].status == Reverted
    requires NewsAfter(s, i, send, news)
    ensures HandedOver(s, BroadcastAttempt(s, i, k, send).state, i, k, send, news)
    ensures send == Accepted || send == AlreadyKnown ==> BroadcastAttempt(s, i, k, send).ok
    ensures send == LostReply || send == Refused ==> !BroadcastAttempt(s, i, k, send).ok
  {
    if send.NonceTooLow? && Active(s.rows[i].status) {
      ReconciliationLearns(p, s, i, send.probes, send.latestKnown, news);
      hide ReconcileIntent;
    }
    hide Inv, FirstNews;
  }

  // ------------------------------------------------------------ a new attempt

  /** The least nonce from the pending count on that lies above everything the lane holds. */
  predicate LeastFree(rows: seq<Intent>, lane: Lane, pending: nat, n: nat) {
    n >= pending && Fresh(rows, lane, n) && Gapless(rows, lane, pending, n)
  }

  /** The nonce the next attempt of this intent is signed with: its own, or the least free one. */
  predicate MaySign(rows: seq<Intent>, i: nat, pending: Option<nat>, n: nat) {
    && i < |rows|
    && if rows[i].nonce.Some? then rows[i].nonce == Some(n)
       else
         && !AnotherUnresolved(rows, i, rows[i].lane)
         && pending.Some? && LeastFree(rows, rows[i].lane, pending.value, n)
  }

  /** The transaction of the intent's next attempt. */
  function NextTx(p: Policy, r: Intent, n: nat, bump: Option<nat>, a: PrepareAnswers): Tx
    requires bump.Some? ==> r.attempts != []
  {
    var fees := NextFees(p, r, bump, Estimated(a.fees));
    Tx(r.lane, n, r.target, r.calldata, r.value, GasLimit(a.gas), fees.maxFee, fees.tip)
  }

  /** What stands in the way of a new attempt before a nonce is touched. */
  predicate Unaffordable(p: Policy, r: Intent, bump: Option<nat>, a: PrepareAnswers)
    requires bump.Some? ==> r.attempts != []
  {
    || |r.attempts| > p.maxReplacements
    || (!a.gas.SimulationReverts? &&
        !CapsAllow(p, GasLimit(a.gas), NextFees(p, r, bump, Estimated(a.fees)), r.value))
  }

  /** The intent is closed; it gives its nonce back unless an attempt may have gone out. */
  predicate Closed(s: Engine, s': Engine, i: nat, status: IntentStatus) {
    && i < |s.rows|
    && var r := s.rows[i];
       var wentOut := exists k :: 0 <= k < |r.attempts| && r.attempts[k].status != Prepared;
       s' == s.(rows := s.rows[i := r.(status := status, nonce := if wentOut then r.nonce else None)])
  }

  function Numbered(s: Engine, i: nat, n: nat): Engine
    requires i < |s.rows|
  {
    if s.rows[i].nonce.Some? then s
    else s.(rows := s.rows[i := s.rows[i].(nonce := Some(n), status := NonceReserved)])
  }

  /** Stored and not yet handed over: the attempt comes before the broadcast. */
  function WithNext(s: Engine, i: nat, tx: Tx): Engine
    requires i < |s.rows|
  {
    var r := s.rows[i];
    s.(rows := s.rows[i := r.(nonce := Some(tx.nonce), status := Dispatching,
                              attempts := r.attempts + [Attempt(|r.attempts| + 1, tx, Prepared)])])
  }

  /** A call that prepares an attempt for row `i`, as a replacement exactly if there is one to replace. */
  predicate Prepares(p: Policy, s: Engine, i: nat, bump: Option<nat>) {
    Inv(p, s) && i < |s.rows| && Active(s.rows[i].status) && (bump.Some? <==> s.rows[i].attempts != [])
  }

  /** Calldata that is not the intent's own is refused; a cap closes the intent; a failed simulation reverts it. */
  lemma PreparationRefused(p: Policy, s: Engine, i: nat, calldata: nat, bump: Option<nat>, a: PrepareAnswers,
                           send: SendAnswer)
    requires Prepares(p, s, i, bump)
    ensures var r := s.rows[i]; var s' := PrepareAndSend(p, s, i, calldata, bump, a, send);
      && (calldata != r.calldata ==> s' == s)
      && (calldata == r.calldata && Unaffordable(p, r, bump, a) ==> Closed(s, s', i, FeeCapBlocked))
      && (calldata == r.calldata && |r.attempts| <= p.maxReplacements && a.gas.SimulationReverts? ==>
            Closed(s, s', i, Reverted))
  {
    hide Inv, SignAndRecord, BroadcastAttempt, NextFees, GasLimit, Estimated;
  }

  lemma LeastFreeIsCandidate(p: Policy, s: Engine, i: nat, pending: nat, n: nat)
    requires Inv(p, s) && i < |s.rows| && LeastFree(s.rows, s.rows[i].lane, pending, n)
    ensures Candidate(s.rows, s.rows[i].lane, pending) == n
  {
    forall j | 0 <= j < |s.rows|
      ensures StatusOk(s.rows[j])
    {
      assert RowOk(p, s.mined, s.rows[j]);
    }
    hide Inv, RowOk, StatusOk;
    CandidateIsFresh(s.rows, s.rows[i].lane, pending);
    hide Fresh, Candidate;
  }

  lemma ReserveNumbers(p: Policy, s: Engine, i: nat, pending: Option<nat>, n: nat)
    requires Inv(p, s) && i < |s.rows| && MaySign(s.rows, i, pending, n)
    ensures Reserve(s.rows, i, if pending.Some? then pending.value else 0) == Some(Numbered(s, i, n).rows)
  {
    if s.rows[i].nonce.None? {
      LeastFreeIsCandidate(p, s, i, pending.value, n);
      ReserveRefusesExactly(p, s, i, pending.value);
    }
    hide Inv, LeastFree, Candidate, AnotherUnresolved, HeldByAnother;
  }

  lemma NumberedIsSound(p: Policy, s: Engine, i: nat, pending: Option<nat>, n: nat)
    requires Inv(p, s) && i < |s.rows| && Active(s.rows[i].status) && MaySign(s.rows, i, pending, n)
    ensures var s1 := Numbered(s, i, n);
      Inv(p, s1) && s1.rows[i].nonce == Some(n) && s1.rows[i].attempts == s.rows[i].attempts
      && Active(s1.rows[i].status)
  {
    ReserveNumbers(p, s, i, pending, n);
    ReserveKeepsInv(p, s, i, if pending.Some? then pending.value else 0);
    hide Inv, MaySign;
  }

  lemma NumberedRecords(s: Engine, i: nat, n: nat, tx: Tx)
    requires i < |s.rows|
    ensures Recorded(Numbered(s, i, n).rows, tx) <==> Recorded(s.rows, tx)
  {
    var rows := Numbered(s, i, n).rows;
    assert forall j :: 0 <= j < |rows| ==> rows[j].attempts == s.rows[j].attempts;
  }

  lemma StoresNext(p: Policy, s: Engine, i: nat, n: nat, bump: Option<nat>, a: PrepareAnswers)
    requires Prepares(p, s, i, bump) && MaySign(s.rows, i, a.pending, n)
    requires !Unaffordable(p, s.rows[i], bump, a) && !a.gas.SimulationReverts?
    ensures var tx := NextTx(p, s.rows[i], n, bump, a); var s1 := Numbered(s, i, n);
      var rec := Record(s1.rows, i, |s.rows[i].attempts| + 1, tx);
      if Recorded(s.rows, tx) then rec == NotStored
      else rec == Stored(WithNext(s, i, tx).rows, |s.rows[i].attempts|)
           && Inv(p, WithNext(s, i, tx)) && Active(WithNext(s, i, tx).rows[i].status)
  {
    var r := s.rows[i];
    var tx := NextTx(p, r, n, bump, a);
    var s1 := Numbered(s, i, n);
    NumberedIsSound(p, s, i, a.pending, n);
    NumberedRecords(s, i, n, tx);
    if bump.Some? { NextFeesClimb(p, r, bump.value, Estimated(a.fees)); }
    RecordKeepsInv(p, s1, i, tx);
    hide Inv, Recorded, Record, NextFees, GasLimit, Estimated, RungUp, MaySign;
    assert s1.rows[i := Recorder(s1.rows[i], tx)] == WithNext(s, i, tx).rows;
  }

  lemma PreparesNext(p: Policy, s: Engine, i: nat, n: nat, bump: Option<nat>, a: PrepareAnswers)
    requires Prepares(p, s, i, bump) && MaySign(s.rows, i, a.pending, n)
    requires !Unaffordable(p, s.rows[i], bump, a) && !a.gas.SimulationReverts?
    ensures var tx := NextTx(p, s.rows[i], n, bump, a);
      Prepare(p, s, i, s.rows[i].calldata, bump, a) ==
      if a.crash == AfterReserve || Recorded(s.rows, tx) then Stopped(Numbered(s, i, n))
      else if a.crash == AfterRecord then Stopped(WithNext(s, i, tx))
      else Ready(WithNext(s, i, tx), |s.rows[i].attempts|)
  {
    ReserveNumbers(p, s, i, a.pending, n);
    StoresNext(p, s, i, n, bump, a);
    hide Inv, Recorded, Record, Reserve, NextFees, GasLimit, Estimated, AnotherUnresolved, LeastFree;
  }

  /**
   Otherwise the attempt is signed with the intent's nonce or the least free
   one, stored under the next number, and then handed over. It goes no further
   than the reservation if the same transaction is already stored, and no
   further than the crash.
   */
  lemma AttemptGoesOut(p: Policy, s: Engine, i: nat, n: nat, bump: Option<nat>, a: PrepareAnswers, send: SendAnswer,
                       news: nat)
    requires Prepares(p, s, i, bump) && MaySign(s.rows, i, a.pending, n)
    requires !Unaffordable(p, s.rows[i], bump, a) && !a.gas.SimulationReverts?
    requires NewsAfter(WithNext(s, i, NextTx(p, s.rows[i], n, bump, a)), i, send, news)
    ensures var tx := NextTx(p, s.rows[i], n, bump, a);
      var s' := PrepareAndSend(p, s, i, s.rows[i].calldata, bump, a, send);
      if a.crash == AfterReserve || Recorded(s.rows, tx) then s' == Numbered(s, i, n)
      else if a.crash == AfterRecord then s' == WithNext(s, i, tx)
      else HandedOver(WithNext(s, i, tx), s', i, |s.rows[i].attempts|, send, news)
  {
    var tx := NextTx(p, s.rows[i], n, bump, a);
    PreparesNext(p, s, i, n, bump, a);
    StoresNext(p, s, i, n, bump, a);
    hide Inv, Recorded, Record, Prepare, NextTx, BroadcastAttempt, HandedOver, NewsAfter, MaySign, Unaffordable;
    if !Recorded(s.rows, tx) && a.crash == NoCrash {
      BroadcastHandsOver(p, WithNext(s, i, tx), i, |s.rows[i].attempts|, send, news);
    }
  }

  /** Without a nonce none is signed for while another intent's is unresolved or the pending count is unknown. */
  lemma NoNonceNoAttempt(p: Policy, s: Engine, i: nat, bump: Option<nat>, a: PrepareAnswers, send: SendAnswer)
    requires Prepares(p, s, i, bump) && !Unaffordable(p, s.rows[i], bump, a) && !a.gas.SimulationReverts?
    requires s.rows[i].nonce.None? && (AnotherUnresolved(s.rows, i, s.rows[i].lane) || a.pending.None?)
    ensures PrepareAndSend(p, s, i, s.rows[i].calldata, bump, a, send) == s
  {
    hide Inv, AnotherUnresolved, NextFees, GasLimit, Estimated, BroadcastAttempt, Reserve;
  }

  // ------------------------------------------------------------------- methods

  /** A key asked for the first time gets a row of its own; afterwards its row is found again. */
  lemma RequestIsRecorded(s: Engine, e: Event)
    requires e.Execute?
    ensures var q := e.request;
      Base(s, e) ==
      if exists j :: 0 <= j < |s.rows| && s.rows[j].key == q.key then s
      else s.(rows := s.rows + [Intent(q.key, e.lane, q.target, q.calldata, q.value, None, Created, None, [])])
  {
  }

  /** Only a pending or dispatching intent with an attempt is re-priced. */
  lemma ReplaceEnds(p: Policy, s: Engine, i: nat, calldata: nat, custom: nat, a: PrepareAnswers, send: SendAnswer)
    ensures Step(p, s, Replace(i, calldata, custom, a, send)) ==
      if i < |s.rows| && s.rows[i].status in {Pending, Dispatching} && |s.rows[i].attempts| > 0
      then PrepareAndSend(p, s, i, calldata, Some(custom), a, send) else s
  {
    hide PrepareAndSend;
  }

  /** An execution prepares the first attempt if there is none, and otherwise asks for receipts first. */
  lemma ExecuteStarts(p: Policy, s: Engine, e: Event, i: nat)
    requires e.Execute? && KeysDistinct(Base(s, e).rows) && i < |Base(s, e).rows|
    requires Base(s, e).rows[i].key == e.request.key
    ensures var b := Base(s, e); var r := b.rows[i];
      && (!Active(r.status) || r.lane != e.lane ==> Step(p, s, e) == b)
      && (Active(r.status) && r.lane == e.lane && r.attempts == [] ==>
            Step(p, s, e) == PrepareAndSend(p, b, i, e.request.calldata, None, e.prepare, e.send))
      && (Active(r.status) && r.lane == e.lane && r.attempts != [] ==>
            Step(p, s, e)
              == ExecuteIntent(p, b, i, e.request.calldata, e.probes, e.latestKnown, e.prepare, e.send))
  {
    hide PrepareAndSend, ReconcileIntent, BroadcastAttempt;
    assert FindKey(Base(s, e).rows, e.request.key) == Some(i);
  }

  /** The last attempt was never acknowledged and can be signed again from the same calldata. */
  predicate Resendable(r: Intent, calldata: nat) {
    && r.attempts != []
    && var last := r.attempts[|r.attempts| - 1];
       last.status == Prepared && calldata == last.tx.data
  }

  lemma LearntOnce(s: Engine, s1: Engine, s2: Engine, i: nat, probes: seq<Probe>, k: nat)
    requires Learnt(s, s1, i, probes, k) && Learnt(s, s2, i, probes, k)
    ensures s1 == s2
  {
    var r := s.rows[i];
    assert s1.rows[i].attempts == s2.rows[i].attempts;
  }

  /**
   An intent that has attempts first learns its fate (leading to `s1`). If a
   query failed the call ends there, and also if it is confirmed or nothing is
   left to resend; otherwise its last attempt is handed over once more.
   */
  lemma ExecuteResends(p: Policy, s: Engine, i: nat, calldata: nat, probes: seq<Probe>, latestKnown: bool,
                       a: PrepareAnswers, send: SendAnswer, k: nat, s1: Engine, news: nat)
    requires Inv(p, s) && i < |s.rows| && Active(s.rows[i].status) && s.rows[i].attempts != []
    requires FirstNews(s.mined, s.rows[i], probes, k) && Learnt(s, s1, i, probes, k) && NewsAfter(s1, i, send, news)
    ensures var r := s.rows[i]; var s' := ExecuteIntent(p, s, i, calldata, probes, latestKnown, a, send);
      if QueryFails(r, probes, k) || (k == |r.attempts| && !latestKnown) then s' == s
      else if s1.rows[i].status == Confirmed || !Resendable(r, calldata) then s' == s1
      else HandedOver(s1, s', i, |r.attempts| - 1, send, news)
  {
    var r := s.rows[i];
    var o := ReconcileIntent(s, i, probes, latestKnown);
    ReconciliationLearns(p, s, i, probes, latestKnown, k);
    LearntOnce(s, s1, o.state, i, probes, k);
    ReconcileKeepsInv(p, s, i, probes, latestKnown);
    assert |s1.rows[i].attempts| == |r.attempts|;
    assert s1.rows[i].status in {r.status, Confirmed, Reverted};
    hide Inv, ReconcileIntent, Learnt, FirstNews, BroadcastAttempt, HandedOver, NewsAfter;
    if o.ok && s1.rows[i].status != Confirmed && Resendable(r, calldata) {
      BroadcastHandsOver(p, s1, i, |r.attempts| - 1, send, news);
    }
  }

  // ------------------------------------------------------------------- recovery

  /** Attempt `k` is the first that was never acknowledged; past the end, all were. */
  predicate FirstUnsent(r: Intent, k: nat) {
    && k <= |r.attempts| && (forall j :: 0 <= j < k ==> r.attempts[j].status != Prepared)
    && (k < |r.attempts| ==> r.attempts[k].status == Prepared)
  }

  lemma {:induction false} FirstUnsentFound(r: Intent, k: nat, from: nat)
    requires from <= k && FirstUnsent(r, k)
    ensures FirstPrepared(r.attempts, from) == if k < |r.attempts| then Some(k) else None
    decreases k - from
  {
    if from < k { FirstUnsentFound(r, k, from + 1); }
  }

  /** Startup visits this row. */
  predicate Visited(s: Engine, i: nat, chain: nat) {
    i < |s.rows| && Active(s.rows[i].status) && s.rows[i].lane.chain == chain
  }

  /** What one visit leaves when the node acknowledges and answers everything; `k` first unsent, `m` first receipt. */
  predicate Recovered(s: Engine, s': Engine, i: nat, k: nat, m: nat) {
    && i < |s.rows| && |s'.rows| == |s.rows|
    && var r := s.rows[i];
       var r1 := if k < |r.attempts|
                 then r.(attempts := r.attempts[k := r.attempts[k].(status := Broadcast)],
                         status := if NotYetPending(r.status) then Pending else r.status)
                 else r;
       && (k < |r.attempts| ==> r.attempts[k].tx in s'.sent)
       && if m >= |r.attempts| then s'.rows[i] == r1
          else if MinedAs(s.mined, r.attempts[m].tx, true) then Won(r1, s'.rows[i], m)
          else Lost(r1, s'.rows[i], m)
  }

  const Kind := RecoveryAnswer(Accepted, [], true)

  lemma SameNews(mined: map<Slot, Fate>, r: Intent, r1: Intent, m: nat)
    requires SameTxs(r.attempts, r1.attempts) && FirstNews(mined, r, [], m)
    ensures FirstNews(mined, r1, [], m)
  {
    hide MinedAs;
    forall j | 0 <= j < |r.attempts|
      ensures Silent(mined, r1, [], j) == Silent(mined, r, [], j)
    {
    }
  }

  lemma ResentThenLearnt(s: Engine, s1: Engine, s2: Engine, i: nat, k: nat, m: nat)
    requires HandedOver(s, s1, i, k, Accepted, 0) && Learnt(s1, s2, i, [], m)
    ensures Recovered(s, s2, i, k, m) && s2.rows == s.rows[i := s2.rows[i]]
    ensures s2.mined == s.mined && s.sent <= s2.sent
  {
    hide Won, Lost, MinedAs;
  }

  lemma ResendSettles(p: Policy, s: Engine, i: nat, k: nat, m: nat)
    requires Inv(p, s) && i < |s.rows| && Active(s.rows[i].status) && k < |s.rows[i].attempts|
    requires FirstNews(s.mined, s.rows[i], [], m)
    ensures var s1 := BroadcastAttempt(s, i, k, Accepted).state; var o := ReconcileIntent(s1, i, [], true);
      && BroadcastAttempt(s, i, k, Accepted).ok && o.ok
      && Recovered(s, o.state, i, k, m) && o.state.rows == s.rows[i := o.state.rows[i]]
      && o.state.mined == s.mined && s.sent <= o.state.sent
  {
    BroadcastHandsOver(p, s, i, k, Accepted, 0);
    BroadcastKeepsInv(p, s, i, k, Accepted);
    var s1 := BroadcastAttempt(s, i, k, Accepted).state;
    SameNews(s.mined, s.rows[i], s1.rows[i], m);
    ReconciliationLearns(p, s1, i, [], true, m);
    var s2 := ReconcileIntent(s1, i, [], true).state;
    hide Inv, BroadcastAttempt, ReconcileIntent, FirstNews, Learnt, Recovered, HandedOver;
    ResentThenLearnt(s, s1, s2, i, k, m);
  }

  lemma RecoverOneEnds(p: Policy, s: Engine, i: nat, lane: Lane, k: nat, m: nat)
    requires Inv(p, s) && i < |s.rows| && Active(s.rows[i].status) && s.rows[i].lane == lane
    requires FirstUnsent(s.rows[i], k) && FirstNews(s.mined, s.rows[i], [], m)
    ensures var o := RecoverOne(s, i, lane, Kind);
      && o.ok && Recovered(s, o.state, i, k, m) && o.state.rows == s.rows[i := o.state.rows[i]]
      && o.state.mined == s.mined && s.sent <= o.state.sent
  {
    var r := s.rows[i];
    FirstUnsentFound(r, k, 0);
    if k == |r.attempts| {
      ReconciliationLearns(p, s, i, [], true, m);
    } else {
      ResendSettles(p, s, i, k, m);
    }
    hide Inv, BroadcastAttempt, ReconcileIntent, FirstUnsent, FirstNews, Recovered;
  }

  /** Every active intent of the chain is the caller's own, and the node acknowledges and answers everything. */
  predicate AllKind(s: Engine, lane: Lane, answers: seq<RecoveryAnswer>) {
    forall i :: 0 <= i < |s.rows| && Visited(s, i, lane.chain) ==>
      s.rows[i].lane == lane && RecoveryAnswerAt(answers, i) == Kind
  }

  lemma {:induction false} UnsentExists(r: Intent, from: nat) returns (k: nat)
    requires from <= |r.attempts| && forall j :: 0 <= j < from ==> r.attempts[j].status != Prepared
    ensures FirstUnsent(r, k)
    decreases |r.attempts| - from
  {
    if from == |r.attempts| || r.attempts[from].status == Prepared { k := from; }
    else { k := UnsentExists(r, from + 1); }
  }

  lemma {:induction false} NewsExists(mined: map<Slot, Fate>, r: Intent, probes: seq<Probe>, from: nat) returns (k: nat)
    requires from <= |r.attempts| && forall j :: 0 <= j < from ==> Silent(mined, r, probes, j)
    ensures FirstNews(mined, r, probes, k)
    decreases |r.attempts| - from
  {
    if from == |r.attempts| || !Silent(mined, r, probes, from) { k := from; }
    else { k := NewsExists(mined, r, probes, from + 1); }
  }

  lemma VisitKeepsKind(s: Engine, s1: Engine, at: nat, k: nat, m: nat, lane: Lane, answers: seq<RecoveryAnswer>)
    requires AllKind(s, lane, answers) && Recovered(s, s1, at, k, m) && s1.rows == s.rows[at := s1.rows[at]]
    requires Visited(s, at, lane.chain)
    ensures AllKind(s1, lane, answers)
  {
    assert s1.rows[at].lane == s.rows[at].lane;
  }

  lemma {:induction false} RecoverFromEnds(p: Policy, s: Engine, from: nat, lane: Lane, answers: seq<RecoveryAnswer>,
                                           i: nat, k: nat, m: nat)
    requires Inv(p, s) && from <= |s.rows| && AllKind(s, lane, answers) && i < |s.rows|
    requires FirstUnsent(s.rows[i], k) && FirstNews(s.mined, s.rows[i], [], m)
    ensures var s' := RecoverFrom(s, from, lane, answers).state;
      && |s'.rows| == |s.rows| && s.sent <= s'.sent
      && (if from <= i && Visited(s, i, lane.chain) then Recovered(s, s', i, k, m) else s'.rows[i] == s.rows[i])
    decreases |s.rows| - from
  {
    hide Inv, RecoverOne, FirstUnsent, FirstNews, Won, Lost;
    if from < |s.rows| {
      if !Visited(s, from, lane.chain) {
        RecoverFromEnds(p, s, from + 1, lane, answers, i, k, m);
      } else {
        var s1 := RecoverOne(s, from, lane, Kind).state;
        var k0, m0 := k, m;
        if from != i {
          k0 := UnsentExists(s.rows[from], 0);
          m0 := NewsExists(s.mined, s.rows[from], [], 0);
        }
        RecoverOneEnds(p, s, from, lane, k0, m0);
        RecoverOneKeepsInv(p, s, from, lane, Kind);
        VisitKeepsKind(s, s1, from, k0, m0, lane, answers);
        var k1, m1 := k, m;
        if from == i {
          k1 := UnsentExists(s1.rows[i], 0);
          m1 := NewsExists(s1.mined, s1.rows[i], [], 0);
        }
        RecoverFromEnds(p, s1, from + 1, lane, answers, i, k1, m1);
      }
    }
  }

  /**
   With a node that acknowledges and answers, startup hands over the first
   unacknowledged attempt of every active intent of the chain and learns the
   fate of each from its first receipt; no other intent changes.
   */
  lemma RecoveryEnds(p: Policy, s: Engine, lane: Lane, answers: seq<RecoveryAnswer>, i: nat, k: nat, m: nat)
    requires Inv(p, s) && AllKind(s, lane, answers) && i < |s.rows|
    requires FirstUnsent(s.rows[i], k) && FirstNews(s.mined, s.rows[i], [], m)
    ensures var s' := Step(p, s, Recover(lane, answers));
      |s'.rows| == |s.rows|
      && if Visited(s, i, lane.chain) then Recovered(s, s', i, k, m) else s'.rows[i] == s.rows[i]
  {
    RecoverFromEnds(p, s, 0, lane, answers, i, k, m);
    hide RecoverFrom, Recovered;
  }

  lemma {:induction false} RecoverSkips(s: Engine, from: nat, lane: Lane, answers: seq<RecoveryAnswer>, i: nat)
    requires from <= i < |s.rows| && forall j :: from <= j < i ==> !Visited(s, j, lane.chain)
    ensures RecoverFrom(s, from, lane, answers) == RecoverFrom(s, i, lane, answers)
    decreases i - from
  {
    if from < i {
      assert !Visited(s, from, lane.chain);
      RecoverSkips(s, from + 1, lane, answers, i);
    }
  }

  /**
   A refused or unanswered broadcast, a failed query or another signer's unsent attempt ends the startup at
   once: an unanswered one counts as sent, and nothing else changes.
   */
  lemma RecoveryStops(p: Policy, s: Engine, lane: Lane, answers: seq<RecoveryAnswer>, i: nat, k: nat, m: nat)
    requires Inv(p, s) && Visited(s, i, lane.chain) && forall j :: 0 <= j < i ==> !Visited(s, j, lane.chain)
    requires FirstUnsent(s.rows[i], k) && FirstNews(s.mined, s.rows[i], RecoveryAnswerAt(answers, i).probes, m)
    ensures var r, a := s.rows[i], RecoveryAnswerAt(answers, i); var s' := Step(p, s, Recover(lane, answers));
      && (k < |r.attempts| && (r.lane != lane || a.send == Refused) ==> s' == s)
      && (k < |r.attempts| && r.lane == lane && a.send == LostReply ==>
            s' == s.(sent := s.sent + {r.attempts[k].tx}))
      && (k == |r.attempts| && (QueryFails(r, a.probes, m) || (m == k > 0 && !a.latestKnown)) ==> s' == s)
  {
    var r, a := s.rows[i], RecoveryAnswerAt(answers, i);
    RecoverSkips(s, 0, lane, answers, i);
    FirstUnsentFound(r, k, 0);
    ReconciliationLearns(p, s, i, a.probes, a.latestKnown, m);
    hide Inv, ReconcileIntent, FirstNews;
  }
}
